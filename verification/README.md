# Vyto: verified models of the compiler's core, its runtime and its table engine

Vyto compiles a small typed language to C99. Three things carry its promises: an emitter that
places every retain and release, a checker that settles layout, inference and return paths before
a line of C is printed, and a C runtime with a columnar table engine. This project models them in
Dafny and proves what they are for.

**The emitter** (`VytoLang`, `CTarget`, `EmitSpec`, `EmitExpr`, `EmitShape`, `EmitRun`,
`EmitSteps`, `EmitSim`, `EmitMain`, `EmitLabels`, `EmitTheorem`, `Emitter`). `VytoLang` is the
statement language with a meaning that answers calls, fields and arrays from an oracle over the
trace of events; loops are indexed by a fuel that both languages spend alike, so the theorems speak
of every run, finished or cut off. `CTarget` is the C that is printed, with C's meaning of
`switch`, `break`, `continue`, `goto` and labels, with each object's count, and with a record of every
object that was retained, released or followed while its count was not positive. `EmitSpec` is the emitter as functions of its state (scope stack, pending temporaries,
two counters), `Emitter` the object whose methods update that state in place and are proved to do
what those functions say. The theorem is one simulation: same trace, same outcome, every object's
count moved by nothing but the stores on the heap and the returned reference, and nothing dead
touched on the way.

**The checker** (`ReturnPaths`, `Hierarchy`, `Vtable`, `ClassRules`, `Inference`). The return-path analysis
is proved sound and exact for control flow in which every decision is free, and each run of the statement
language is such a walk; vtable layout against lookup by name and against rules on the classes up the chain,
over hierarchies as declared, cycles included; the unifier against substitution and against the pairs of
types it meets, type identity included.

**The parser** (`Grammar`, `ParseRoundTrip`, `Precedence`, `ExprParser`). Precedence climbing over a token
cursor, and a printer that writes parentheses only where a level requires them: parsing gives the tree back,
and no shorter text does. Which operator takes which operand is stated on token lists, with the classes of
operators written out.

**The table engine** (`StableSort`, `MergeSort`, `SortAlgebra`, `ColTable`, `CountingSort`,
`KeyRuns`, `GroupBy`, `HashJoin`, `Dictionary`). A stable sort is characterised by ascending order
and unchanged classes of equal elements, which fixes it completely; the fast forms are proved equal
to that or to nested loops, and what comes out is said over cells and counts of rows. Numeric cells are the values `cell_num` gives, so two integers that
round to one double are one key, as in the engine. Hash functions are arbitrary parameters.

**The runtime** (`WeakTable`, `RefHeap`, `HashMap`, `Strings`, `IntPow`, `Pool`, and the array sort in
`MergeSort`). Release with its cascade and the weak registry, the string map, the string
operations, checked power and gcd, and the size-class allocator. An object of `RefHeap` is a count
and a list of strong and weak fields, which covers instances, arrays, maps and closures alike.

Where memory can run out and the code goes on, the answer to each request is a parameter (`first`, `room`,
`late`, `scratch`, `haveScratch`, `calloc`, `libc`), and the claims about that code are for every pattern
of answers; requests that are taken to be met are named under "Left out".

`Basics` holds the few notions that several modules share.

Four places where the code does something other than its comments or its neighbours say, each with
its exact condition:

- A group-by that runs out of memory is promised to fall back to sorting, slower but not wrong
  (`lib/vyto/data/native/src/coltable.c:1152-1154`). It does when the hash table cannot start or grow.
  When the buffer before it or one of the four after it cannot be had, the result is empty. And the sort,
  on either path, does nothing when it gets no buffer (`lib/vyto/data/native/src/coltable.c:751-752`):
  the groups then come in the order of their first rows, or, in the fallback, the ranges are those of the
  rows as they stand.
  `GroupBy.Sound` is the condition, over the rows and the answers to the requests for memory;
  `GroupBy.Cluster` shows that the result is right if and only if it holds, and what comes out either way
  (`GroupBy.Outcome`). `GroupBy.FallbackMissing` gives inputs for each of the four failures.
- `layout_class` looks for an inheritance cycle by walking up from the parent until it meets the class
  itself (`src/check.c:148-152`). On a chain that runs into a cycle the class is not part of, that walk
  does not end (`Hierarchy.WalkHangs`: A derives from B, B from C, C from B). `Hierarchy.CycleTest` says
  for every hierarchy when it ends and with which answer, and `Vtable.PassEndsExactly` when the check of all
  classes in declaration order does.
- A class used as the base of a generic instance is laid out as soon as the instance is
  (`src/check.c:1289`), which can be before its own parent is set (`src/check.c:384-388`), and is not laid
  out again. `Vtable.EarlyLayout`: where neither layout meets a diagnostic, the early one is right if and only
  if the parent has no slots; `Vtable.EarlyLayoutWrong` has an override refused and a slot given twice.
- A field store releases the old reference before it writes the new one (`src/emit.c:1657-1660`). The
  object is still there for the write if and only if, without the old reference, it belongs to a set of
  objects that keeps itself alive; `RefHeap.Heap.Store` reports which. That is so for every object the
  program reaches by strong references (`RefHeap.ReachedIsSupported`). An object reached by a weak
  reference alone, in a cycle through the field, is lost (`RefHeap.StoreLosesItsObject`).

## Model

| member | source | states |
|---|---|---|
| EmitTheorem.EmittedFunctionIsFaithful | src/emit.c:1743-2134 | for every accepted body, oracle, budget and object: compiled and source runs end alike with the same trace and result, and the object's count has moved only by heap stores and by +1 on a returned reference; and where the caller counts what it lends and a slot shows the object only while others count it, no run, finished or cut short, retains, releases or follows it while its count is not positive |
| EmitTheorem.ReleaseFirstHurts | src/emit.c:1585-1596 | what that rules out: releasing the old reference of `x = x` before taking the new one |
| EmitTheorem.CompiledResultIsSourceResult | src/emit.c:2296-2324 | with accepted return paths the dead return at the end is dead: what the C function returns, the source returned |
| EmitTheorem.EachLabelOnce | src/emit.c:218-227 | no `_lbN` label is placed twice in a function |
| EmitMain.SimStmt | src/emit.c:1743-2134 | one statement's code keeps the simulation from any emitter state: values agree, owned names and pending temporaries hold exactly the counts |
| EmitMain.SimAll | src/emit.c:1551-1553 | a statement list's code does, across gotos that leave it |
| EmitMain.SimScope | src/emit.c:2103-2113 | a nested scope's code does, its owned names released when control falls out of it |
| EmitMain.SimWhile | src/emit.c:1793-1814 | `for(;;)` with an inner test is the source loop: break, continue, return and panic alike |
| EmitMain.SimFor | src/emit.c:1815-1945 | range, array, enum and protocol loops are the source loop, their header references released once on every exit |
| EmitMain.SimSwitch | src/emit.c:1946-2045 | a C switch or string test chain runs the arm the source picks, never falls through, and a break inside it ends the loop around it |
| EmitMain.SimBreak | src/emit.c:2078-2097 | break releases the scopes it leaves and lands behind the innermost loop, by goto when a switch lies between |
| EmitSteps.SimReturn | src/emit.c:2046-2077 | return hands over one count of a reference result and gives up every owned name and temporary |
| EmitSteps.SimAssignRef | src/emit.c:1585-1596 | assigning a reference local moves one count in and one out, and nothing dead is touched: the new reference is taken before the old one goes |
| EmitSteps.SimSetStrong | src/emit.c:1650-1662 | a strong field store accounts for the old and the new reference, both alive when they are released and taken |
| EmitSteps.SimSetElem | src/emit.c:1664-1720 | an element store leaves counting to the array helper and flushes what it spilled |
| EmitExpr.ExSim | src/emit.c:1099-1465 | an expression's code has its value and trace; fresh results carry one count, spilled ones are pending; what it follows and what it yields is alive |
| EmitExpr.ExForSim | src/emit.c:357-369 | a value for a destination: one count exactly when it is a reference |
| EmitRun.RelExec | src/emit.c:253-258 | releasing distinct names gives back exactly what they held and nulls them, and meets nothing dead where each had its count |
| EmitRun.LastFirst | src/emit.c:253-258 | the name registered last is released first |
| EmitRun.JumpExec | src/emit.c:1735-1741 | a jump releases the scopes up to the innermost loop and no other |
| EmitRun.ReturnExec | src/emit.c:1735-1741 | a return releases all of them |
| EmitShape.StmtShape | src/emit.c:240-291 | a statement leaves the outer scopes and pending temporaries as they were, and names stay distinct |
| EmitLabels.AllLabels | src/emit.c:218-227 | labels of a statement list are distinct and new |
| Emitter.EmitFunction | src/emit.c:2296-2324 | the stateful emitter prints what the functional one does |
| Emitter.Em.Stmt | src/emit.c:1743-2134 | one call appends the statement's code and leaves the state the functional emitter leaves |
| Emitter.Em.FindTarget | src/emit.c:2078-2097 | the outward walk finds the loop and marks it exactly when a switch lies between |
| Emitter.Em.ReleaseForJump | src/emit.c:1735-1741 | the scope walk prints the releases of a jump or of a return |
| Emitter.Em.FlushTemps | src/emit.c:284-291 | pending temporaries above a watermark are released in reverse and forgotten |
| Emitter.Em.Borrowed | src/emit.c:316-324 | a fresh value is spilled to a pending temporary, a borrowed one is not |
| Emitter.Em.OwnedValue | src/emit.c:362-369 | a borrowed value is retained, a fresh one is not |
| Emitter.Em.RetainAssigned | src/emit.c:297-306 | parameters the body assigns are retained and registered |
| ReturnPaths.AcceptedNeverFallsThrough | src/check.c:3348-3388 | no run of an accepted body reaches its end: it returns, panics, diverges, or switches on no declared variant |
| ReturnPaths.AcceptedIffNoWayThrough | src/check.c:3347-3388 | with every condition and arm chosen freely: where no `while (true)` has a break, and break and continue stand in loops only, a body is accepted if and only if no choice leads to its end |
| ReturnPaths.NoWayThrough | src/check.c:3347-3388 | no choice leads through an accepted body to its end, breaks in a `while (true)` or not |
| ReturnPaths.WayThrough | src/check.c:3347-3388 | the choices that lead to the end of a rejected body |
| ReturnPaths.DeadBreakRejected | src/check.c:3359-3361 | where a `while (true)` has a break: one that nothing reaches makes the body rejected though nothing leads to its end |
| ReturnPaths.RunIsWalk | src/check.c:3347-3388 | whatever a run of the statement language does, some choice does |
| ReturnPaths.BreakIsPart | src/check.c:3320-3345 | the break search finds exactly the breaks outside inner loops |
| ReturnPaths.NoBreakOut | src/check.c:3320-3345 | a body without such a break is never left by one |
| ReturnPaths.Covered | src/check.c:3098-3127 | a total enum switch has an arm for every declared variant |
| ReturnPaths.ExecLax | src/check.c:3348-3388 | without the stray check a run is the same |
| Vtable.Checker.LayoutClass | src/check.c:415-454 | for any class whose cycle test ends: the inheritance-cycle diagnostic exactly if the class is its own ancestor, a layout recorded exactly if one exists, another diagnostic otherwise |
| Vtable.Checker.LayoutAll | src/check.c:3632-3635 | all classes in declaration order, up to the first diagnostic |
| Vtable.PassEndsExactly | src/check.c:3632-3635 | that pass ends exactly if no class stuck below a cycle comes before a diagnosis, and finds nothing wrong exactly if every chain ends and every class has a layout |
| Vtable.PassHangs | src/check.c:415-420 | with A deriving from B, and B and C from each other, it never ends |
| Vtable.EarlyLayout | src/check.c:1283-1289 | a class laid out before its parent is set: where nothing is diagnosed, right exactly if the parent has no slots |
| Vtable.EarlyLayoutWrong | src/check.c:384-388 | an override refused, and a new method given the slot of the parent's, for that reason |
| Vtable.AncestorsPass | src/check.c:418-420 | once a class passed the cycle test, its ancestors pass it in no more steps |
| Vtable.Checker.Derives | src/check.c:148-152 | where the walk ends, it answers whether the class is up the chain |
| Hierarchy.CycleTest | src/check.c:148-152 | for every hierarchy: yes exactly if the class is its own ancestor, no exactly if its chain ends, no answer after any number of steps exactly otherwise |
| Hierarchy.StepsSuffice | src/check.c:148-152 | a walk that has no answer after as many steps as there are classes never has one |
| Hierarchy.WalkHangs | src/check.c:419 | from A, deriving from B, with B and C deriving from each other, no number of steps ends the walk |
| Vtable.Checker.Check | src/check.c:428-453 | the checks on one method, each with its outcome |
| Vtable.Checker.FindMethod | src/check.c:164-169 | the loop finds the nearest method of a name |
| ClassRules.AcceptedIffLawful | src/check.c:415-454 | over an accepted parent a class is laid out if and only if: none of its fields is declared above, its method names are new in it and shared with no field of it or above, what may be overridden has no default arguments, an override has the nearest method of its name above to override, virtual and of its signature, and any other method none |
| ClassRules.PassIffLawful | src/check.c:3632-3635 | a program is accepted if and only if every chain of parents ends and every class keeps these rules |
| ClassRules.FindIs | src/check.c:164-169 | lookup answers with the first method of the name in the nearest class that has one |
| Vtable.SlotsOneToOne | src/check.c:415-454 | in an accepted class names with slots and slots below `nvslots` match one to one, and exactly virtual methods have slots |
| Vtable.ParentSlotsKept | src/check.c:421-437 | a subclass keeps every parent slot with the signature; new slots lie behind |
| Vtable.ImplIsLookup | src/emit.c:2328-2333 | the method in a slot is the one lookup finds for the slot's name |
| Vtable.EverySlotFilled | src/emit.c:2381-2388 | every slot of an accepted class has a method |
| Vtable.DispatchIsLookup | src/check.c:164-169 | a call through a slot of the static class runs the runtime class's method, same signature |
| Vtable.AcceptedProgramDispatches | src/check.c:3632-3635 | in a program the pass accepts, every call through a slot of any static class runs the method lookup finds in the object's class, same signature |
| Inference.UnifyInstance | src/check.c:1323-1343 | on an instance of the parameter type, unifying meets no conflict and binds every occurring parameter to what the substitution binds |
| Inference.UnifyInvertsSubst | src/check.c:925-960 | substituting what was inferred gives the argument's type back |
| Inference.CallInferred | src/check.c:1382-1399 | a call whose argument types are an instance is inferred, skipped parameters and early stop included |
| Inference.InferCall | src/check.c:1363-1402 | the loop over arguments computes that, or names the failure |
| Inference.UnifyInPlace | src/check.c:1323-1343 | the recursion that updates the binding array computes the unifier |
| Inference.UnifyMeets | src/check.c:1323-1343 | unifying succeeds if and only if no parameter meets two different types, or one different from what it is bound to; what it binds is identical to every type met |
| Inference.WalkConflict | src/check.c:1382-1399 | a call is in conflict only where one of its parameters meets two different types |
| Inference.TwoTypesForOne | src/check.c:1382-1399 | int and string for `f<T>(a: T, b: T)`: the walk stops once T is bound, and the second argument is left to the check of arguments; they conflict where something is still unbound |
| Inference.SubstTakes | src/check.c:925-937 | a bound parameter becomes its binding, and a weak slot stays weak when that is a class |
| Inference.SubstLeaves | src/check.c:925-960 | where nothing that occurs is bound, nothing changes |
| Inference.SameIsErased | src/check.c:19-44 | types are identical exactly if they are the same once weak marks and the second names of int, float and byte are taken off |
| Inference.SameTrans | src/check.c:27-44 | type identity is transitive |
| Inference.SameSym | src/check.c:27-44 | and symmetric |
| ParseRoundTrip.ParseInvertsPrint | src/parse.c:498-599 | parsing the printed form gives back the same tree |
| ParseRoundTrip.PrintIsShortest | src/parse.c:369-599 | no shorter token list parses to the tree, so none of the printed parentheses can be spared |
| ParseRoundTrip.DroppedPair | src/parse.c:486-491 | with an opening and a closing parenthesis taken out, the text fails or means something else |
| ParseRoundTrip.TypeRead | src/parse.c:138-234 | a printed type is read back with its `weak`, its brackets and its `?` marks |
| ParseRoundTrip.PrintInjective | src/parse.c:553-580 | different trees are printed differently |
| ParseRoundTrip.TopRead | src/parse.c:588-599 | an expression is read up to whatever ends it, assignments included |
| ParseRoundTrip.BinaryRead | src/parse.c:568-580 | reading an operand leaves the operator loop with it in hand |
| ParseRoundTrip.NoArrowAhead | src/parse.c:281-303 | a parenthesized expression is not taken for arrow parameters |
| Precedence.Grouping | src/parse.c:553-580 | for operands x, y, z with their prefix operators and casts and binary operators f, g: `x f y g z` is `(x f y) g z` if f is of the class of g or a tighter one, and `x f (y g z)` otherwise, over the six classes as sets |
| Precedence.NamesGroup | src/parse.c:553-580 | the same of three names |
| Precedence.OperandsFirst | src/parse.c:530-551 | prefix operators and `as` bind tighter than every binary operator, prefix operators tighter than `as` |
| Precedence.PostfixFirst | src/parse.c:498-539 | calls, indexing and members bind tighter than prefix operators |
| Precedence.NotBinary | src/parse.c:553-566 | an operator of no class, as `!` and `~`, joins nothing: reading stops in front of it |
| Precedence.OnlyPrefix | src/parse.c:530-539 | only `!`, `-`, `~` and `&` open an expression |
| Precedence.AssignLast | src/parse.c:588-599 | assignment is looser than every operator, and what follows it is read as a whole |
| Precedence.WeakTakesNoMark | src/parse.c:213-234 | `weak T?` is refused |
| ExprParser.Parser.ParseExpr | src/parse.c:588-599 | the cursor parser ends, and builds the node that `Grammar.Top` does, of which the rows above speak, from the same tokens |
| ExprParser.Parser.ParseBin | src/parse.c:568-580 | likewise the precedence loop |
| ExprParser.Parser.ParseAs | src/parse.c:541-551 | likewise casts, to a type by name with `weak`, brackets and `?` marks |
| ExprParser.Parser.ParseType | src/parse.c:213-234 | likewise such types; a mark on a weak one is refused |
| ExprParser.Parser.ParseUnary | src/parse.c:530-539 | likewise prefix operators |
| ExprParser.Parser.ParsePostfix | src/parse.c:498-528 | likewise calls, indexing and members |
| ExprParser.Parser.ParseArgs | src/parse.c:253-273 | likewise argument lists, a trailing comma allowed |
| ExprParser.Parser.ParsePrimary | src/parse.c:369-496 | likewise numbers, names and parentheses |
| StableSort.StableSortUnique | lib/vyto/data/native/src/coltable.c:741-769 | ascending order and unchanged classes fix a stable sort completely |
| StableSort.StableSortedSorts | lib/vyto/data/native/src/coltable.c:747-769 | the bottom-up passes sort stably and rearrange |
| StableSort.InsertStable | runtime/vyto_rt.c:1058-1074 | one insertion extends a stable sort by one element |
| MergeSort.MergeRuns | lib/vyto/data/native/src/coltable.c:755-763 | the two-run loop merges, ties to the left, whichever way round it asks |
| MergeSort.SortBuf | lib/vyto/data/native/src/coltable.c:747-769 | sorts the first entries of an index buffer stably, leaves the rest; does nothing when it gets no second buffer |
| MergeSort.SortedAnyway | lib/vyto/data/native/src/coltable.c:747-752 | so it leaves the stable sort exactly if it had a buffer or the entries were ascending |
| MergeSort.InsertionSort | runtime/vyto_rt.c:1058-1075 | the fallback without scratch memory sorts stably in place |
| MergeSort.ArrSort | runtime/vyto_rt.c:1051-1100 | with or without scratch memory the array becomes the one stable sort of its elements |
| ColTable.CompareRows | lib/vyto/data/native/src/coltable.c:731-739 | the key loop: the first key that differs decides, keys out of range do not; negative exactly if the first row comes before the second over their cells (`Before`), positive exactly if behind it |
| ColTable.BeforeIs | lib/vyto/data/native/src/coltable.c:705-739 | the order over cells: the smaller number, or the text with the smaller byte at the first difference or a proper prefix, first; the other way round for a negative direction; ties go on to the next key |
| ColTable.FirstKeyMoves | lib/vyto/data/native/src/coltable.c:705-739 | so rows in order have the first key's cells never falling, or never rising for a negative direction, and where they tie the rows are in order by the other keys |
| ColTable.RowOrderConsistent | lib/vyto/data/native/src/coltable.c:705-739 | every key list, mixed directions included, is a consistent total preorder |
| ColTable.Contains | lib/vyto/data/native/src/coltable.c:847-855 | true exactly when the needle occurs, ASCII case aside |
| ColTable.Table.SortKeys | lib/vyto/data/native/src/coltable.c:779-786 | the view becomes its stable sort by at most 64 keys, or stays as it is when the sort gets no buffer; with it, no row comes before an earlier one over the cells of the keys (`InOrder`); rows distinct and in range |
| ColTable.Table.Sort | lib/vyto/data/native/src/coltable.c:771-776 | the same for one key |
| ColTable.Table.Filter | lib/vyto/data/native/src/coltable.c:811-878 | in-place compaction keeps exactly the passing rows, in order |
| ColTable.NumFilterKeeps | lib/vyto/data/native/src/coltable.c:797-821 | the rows kept by each of the six comparisons with a number |
| ColTable.TextFilterKeeps | lib/vyto/data/native/src/coltable.c:823-878 | the rows kept by a test on text: equal to the needle, or holding it byte by byte with the 26 letters in either case |
| ColTable.Table.ResetView | lib/vyto/data/native/src/coltable.c:790-795 | all rows in order |
| ColTable.ViewNormalForm | lib/vyto/data/native/src/coltable.c:771-878 | any run of sorts, with their buffers granted or not, filters and resets is: filter by all tests, sort once by the keys of all granted sorts, latest first |
| ColTable.ViewListsPassingRows | lib/vyto/data/native/src/coltable.c:771-878 | and its view lists each passing row once and nothing else |
| ColTable.MultiKeyIsSuccessive | lib/vyto/data/native/src/coltable.c:731-786 | a multi-key sort is single sorts from the last key to the first |
| SortAlgebra.FilterSortCommute | lib/vyto/data/native/src/coltable.c:809-821 | filtering and sorting commute |
| GroupBy.GroupTable | lib/vyto/data/native/src/coltable.c:1107-1312 | bad requests are rejected, and only those; otherwise rows and ranges are those of the stable sort by key exactly under the condition `Sound`, and then every range's key cells come before those of the ranges behind it, upwards in each key column; what comes out elsewhere is `Outcome`, and the hash path is taken exactly when its memory suffices |
| GroupBy.Cluster | lib/vyto/data/native/src/coltable.c:1144-1312 | hashing with counting sort, or sorting, give the same array and the same ranges, each range all rows of one key, if and only if the view is empty, or the first request is met and: on the hash path the late ones are, and the groups' sort has its buffer or the keys come in ascending order; in the fallback the rows' sort has its buffer or the rows are in key order |
| GroupBy.Number | lib/vyto/data/native/src/coltable.c:1175-1233 | the hash pass gets through exactly when every doubling on the way to the number of different keys is granted, and then numbers rows by key, in the order of their first rows |
| GroupBy.FallbackMissing | lib/vyto/data/native/src/coltable.c:1152-1159 | inputs at which the result is wrong: the first request or a late one refused, three rows of two keys cut into three ranges, groups left descending |
| GroupBy.Groups.Add | lib/vyto/data/native/src/coltable.c:1197-1228 | a new group enters its chain, or a request that this many groups need was refused |
| GroupBy.Groups.Find | lib/vyto/data/native/src/coltable.c:1185-1195 | a chain walk finds the key's group or shows there is none |
| GroupBy.Groups.Rehash | lib/vyto/data/native/src/coltable.c:1215-1226 | relinking into twice the buckets keeps every chain |
| GroupBy.KeysGroup | lib/vyto/data/native/src/coltable.c:1345-1353 | equal keys are ties of the sort and have equal hashes |
| GroupBy.Rank | lib/vyto/data/native/src/coltable.c:1275-1284 | each group's rank is its row's place among the representatives after their sort, done or not |
| GroupBy.ByRank | lib/vyto/data/native/src/coltable.c:1270-1310 | the ranges hold the rows of one key each, keys in the order after that sort; right exactly if the sort had its buffer or they were ascending |
| GroupBy.BySorting | lib/vyto/data/native/src/coltable.c:1235-1265 | the fallback's rows and ranges; right exactly if the sort had its buffer or the rows were in key order |
| CountingSort.Count | lib/vyto/data/native/src/coltable.c:1286-1289 | the sums are where each rank begins |
| CountingSort.Place | lib/vyto/data/native/src/coltable.c:1290-1300 | the fill puts every row where its rank's layout has it |
| CountingSort.LaidIsStableSort | lib/vyto/data/native/src/coltable.c:1286-1300 | that layout is the stable sort |
| KeyRuns.Scan | lib/vyto/data/native/src/coltable.c:1239-1259 | the fallback's scan cuts the rows into maximal ranges of equal keys |
| KeyRuns.RunsUnique | lib/vyto/data/native/src/coltable.c:1239-1312 | there is one such cut |
| KeyRuns.RunsAreGroups | lib/vyto/data/native/src/coltable.c:1091-1106 | the ranges together are the sorted rows, each all rows of one key in view order |
| HashJoin.Join | lib/vyto/data/native/src/coltable.c:1408-1485 | a pair of rows comes out as often as the two are visible together if their keys are of one class, not null and equal, and else never; a left row by itself as often as it is visible if the kind is 1, the classes agree and no visible right row has its key, and else never; without memory for the table nothing, which is right exactly if there was nothing to join |
| HashJoin.Probe | lib/vyto/data/native/src/coltable.c:1439-1451 | one chain walk meets exactly the matching rows, the latest slot first |
| HashJoin.Build | lib/vyto/data/native/src/coltable.c:1367-1387 | each bucket's chain lists its slots |
| HashJoin.InnerJoinRight | lib/vyto/data/native/src/coltable.c:1459-1483 | whichever side is hashed |
| HashJoin.LeftJoinRight | lib/vyto/data/native/src/coltable.c:1429-1457 | every match, and one row for each left row with none |
| HashJoin.InnerJoinMeaning | lib/vyto/data/native/src/coltable.c:1459-1483 | a pair is joined exactly when both rows are visible and their keys equal and not null |
| HashJoin.LeftJoinMeaning | lib/vyto/data/native/src/coltable.c:1429-1457 | a left row alone appears as often as it is visible if it has no match, and never otherwise |
| Dictionary.Dict.Intern | lib/vyto/data/native/src/coltable.c:110-142 | interning is interning on the plain list of distinct texts, arena and index kept |
| Dictionary.Dict.Lookup | lib/vyto/data/native/src/coltable.c:115-121 | the probe ends with the entry or, at an empty slot, with proof that there is none |
| Dictionary.Dict.Rehash | lib/vyto/data/native/src/coltable.c:95-107 | every entry is within reach of its home again |
| Dictionary.HoleExists | lib/vyto/data/native/src/coltable.c:111-121 | a load below the size leaves an empty slot on every probe |
| Dictionary.CodesAreTexts | lib/vyto/data/native/src/coltable.c:110-142 | over any run of interns codes are equal exactly when texts are, and old codes keep their text |
| RefHeap.Heap.Release | runtime/vyto_rt.c:510-530 | counts, roots and registry stay exact through the whole cascade, which ends; what is left is the largest set of objects that keeps itself alive without the reference; the object is freed exactly if this was its last one |
| RefHeap.Heap.Teardown | src/emit.c:2368-2378 | a dead object's fields are released or dropped in order, then it is gone; what is left is the largest set that keeps itself alive without it |
| RefHeap.Heap.DeinitField | runtime/vyto_rt.c:1015-1029 | one field of it; what is left is the largest set that keeps itself alive without that field |
| RefHeap.Heap.Retain | runtime/vyto_rt.h:67-79 | one more reference; null and immortal objects aside |
| RefHeap.Heap.Orphan | runtime/vyto_rt.c:493-508 | exactly the slots registered under the target become null, and the live count falls by them |
| RefHeap.Heap.WeakSet | runtime/vyto_rt.c:476-482 | the slot points at the target and is registered once under it |
| RefHeap.Heap.WeakDrop | runtime/vyto_rt.c:486-490 | the slot is unregistered and null |
| RefHeap.Heap.Store | src/emit.c:1650-1662 | a strong field store keeps the counts; the object is there for the write if and only if it belongs, without the old reference, to a set that keeps itself alive |
| RefHeap.Heap.ReleaseField | src/emit.c:1657-1658 | its first half, with the same condition on the heap before it |
| RefHeap.ReachedIsSupported | src/emit.c:1650-1662 | the condition holds for every object strong references lead to |
| RefHeap.StoreLosesItsObject | src/emit.c:1657-1660 | a sound heap with an object, reached weakly, that a store into it frees before the write |
| RefHeap.SurvivorsAreLargest | runtime/vyto_rt.c:510-530 | what an operation leaves is the largest self-supporting set of the heap before it |
| RefHeap.Heap.Alloc | runtime/vyto_rt.c:360-366 | a new object has count one and null fields |
| RefHeap.ReachableSurvives | runtime/vyto_rt.c:510-530 | what the program reaches through strong fields survives any release, fields unchanged |
| RefHeap.SurvivorsAreOwned | runtime/vyto_rt.c:510-530 | what stays alive has an owner |
| RefHeap.Die | runtime/vyto_rt.c:519-527 | dying with its weak slots nulled keeps the whole invariant |
| WeakTable.Detach | runtime/vyto_rt.c:438-454 | one slot less under one target, an empty entry removed, all else as before |
| WeakTable.Attach | runtime/vyto_rt.c:456-473 | one slot more |
| WeakTable.TakeOut | runtime/vyto_rt.c:493-508 | a target's entry removed |
| HashMap.VtMap.Set | runtime/vyto_rt.c:1308-1329 | the map gets the entry, across growth |
| HashMap.VtMap.Get | runtime/vyto_rt.c:1331-1340 | the map's answer; none for a missing key |
| HashMap.VtMap.Has | runtime/vyto_rt.c:1342-1345 | membership |
| HashMap.VtMap.Remove | runtime/vyto_rt.c:1347-1357 | the map loses the key |
| HashMap.VtMap.Grow | runtime/vyto_rt.c:1289-1306 | doubling changes nothing the map shows |
| HashMap.VtMap.Clear | runtime/vyto_rt_map.c:41-55 | the empty map |
| HashMap.VtMap.Merge | runtime/vyto_rt_map.c:60-65 | the other map's entries win; merging a map into itself leaves it as it was |
| HashMap.VtMap.Keys | runtime/vyto_rt_map.c:13-20 | the keys of the walk |
| HashMap.VtMap.Values | runtime/vyto_rt_map.c:24-31 | the values of the same walk |
| HashMap.ListingsAreMap | runtime/vyto_rt_map.c:13-31 | the walk lists each key once with its value, and nothing else |
| Strings.SplitJoin | runtime/vyto_rt_str.c:149-168 | joining the pieces with the separator gives the string back |
| Strings.ReplaceIsSplitJoin | runtime/vyto_rt_str.c:118-138 | replacing is splitting at the old and joining with the new |
| Strings.CountIsPieces | runtime/vyto_rt_str.c:44-52 | one piece more than occurrences |
| Strings.PiecesAreClean | runtime/vyto_rt_str.c:149-168 | no piece contains the separator |
| Strings.ReplacedLength | runtime/vyto_rt_str.c:122 | the length formula predicts the bytes written |
| Strings.Find | runtime/vyto_rt_str.c:15-22 | the first occurrence from a position on |
| Strings.Count | runtime/vyto_rt_str.c:44-52 | the loop counts as the definition does |
| Strings.Replace | runtime/vyto_rt_str.c:118-138 | the buffer is filled exactly with the replacement |
| Strings.SplitLoop | runtime/vyto_rt_str.c:149-168 | the loop produces the pieces; an empty separator gives the whole |
| Strings.JoinLoop | runtime/vyto_rt_arr.c:157-175 | the buffer is filled exactly with the joined pieces |
| IntPow.IntegerPower | runtime/vyto_rt_num.c:50-59 | panics if and only if the true power is outside int64, and is right otherwise |
| IntPow.TrapInSquare | runtime/vyto_rt_num.c:50-59 | a trap while squaring is never premature, since no square is 2 to the 63 |
| IntPow.GreatestCommonDivisor | runtime/vyto_rt_num.c:61-69 | divides both, divided by every common divisor; panics exactly on 2 to the 63 |
| Pool.Allocator.HostAlloc | runtime/vyto_rt.c:61-91 | a new block, disjoint from everything, big enough and zero, other blocks untouched; it comes from the free list, the bump space, a new chunk or the C library, in this order, and fails exactly when the C library does where it is asked |
| Pool.Allocator.HostFree | runtime/vyto_rt.c:93-101 | a small block heads its class's list, a large one goes back to the C library; other blocks untouched |
| Pool.Allocator.HostRealloc | runtime/vyto_rt.c:103-131 | keeps the first bytes both sizes hold across all four moves; fails exactly when the new place cannot be had, never within a class, and then nothing changes |
| Pool.ClassOf | runtime/vyto_rt.c:55-66 | a class exactly for requests that fit one with the header, and it is big enough |
| Pool.PopFree | runtime/vyto_rt.c:74-78 | reusing a free slot keeps lists, links and regions disjoint |
| Pool.CutBump | runtime/vyto_rt.c:79-88 | cutting a slot from bump space does |
| Pool.PushFree | runtime/vyto_rt.c:93-101 | giving a slot back does, the list staying acyclic |

## Left out

- EmitTheorem.EmittedFunctionIsFaithful: C evaluates call arguments in an order of its own choosing; here they run left to right, as in the source language.
- EmitTheorem.EmittedFunctionIsFaithful: releases are ledger entries; the deinit effects they set off belong to `RefHeap`, and null checks that panic are not modelled.
- EmitTheorem.EmittedFunctionIsFaithful: an array or object iterated by `for` is borrowed by design, so balance is claimed and not that the loop's array outlives a reassignment; the loop's reads of it are not recorded as accesses.
- EmitTheorem.EmittedFunctionIsFaithful: counts move by this function's own retains, releases and stores. A borrowed reference, such as an argument read from a field, that a callee frees while it is still in use is not seen; the condition that a slot shows an object only while others count it sets such runs aside. It also sets aside a weak slot that shows an object which only this function's own locals hold.
- EmitTheorem.EmittedFunctionIsFaithful: the write of a strong field store comes after the release of the old reference and is not recorded as an access; `RefHeap.Heap.Store` says when the object is still there.
- CTarget, EmitSpec: arrow functions and closures, struct fields, statics, templates, arena blocks, compound assignment to scalars, and checked arithmetic; `s += x` on strings is an assignment of a call.
- EmitExpr.ExSim: index reads and unary operators have no form in the model; a method, native or string operation is a call.
- ReturnPaths.AcceptedIffNoWayThrough: bodies in which a `while (true)` has a break are accepted soundly (`ReturnPaths.NoWayThrough`) but not exactly (`ReturnPaths.DeadBreakRejected`).
- Inference.TwoTypesForOne: the check of arguments against the parameter types, which refuses what the walk left out, is not part of this model.
- ReturnPaths.AcceptedNeverFallsThrough: an enum switch whose subject holds no declared variant is the excluded outcome `Stray`.
- Vtable.Checker.LayoutAll: starts with every parent set and nothing laid out. Instances of generic classes and their bases are laid out earlier, while signatures are being resolved; `Vtable.EarlyLayout` says what that comes to for one class whose parent is missing.
- Vtable.Checker.LayoutClass: signatures are opaque tokens compared for identity. A class is marked when it is laid out and not before, which cannot be told apart, since a chain that ends does not come back.
- Inference.UnifyInPlace: references to generic structs and classes (`TY_NAMED` against an instance).
- Inference.InferCall: explicit and named type arguments, named arguments, inference from the expected type.
- ParseRoundTrip.ParseInvertsPrint: expressions without `<`, whose scan for type arguments reads some comparisons as calls.
- ExprParser.Parser.ParsePrimary: strings and templates, booleans, `null`, `this`, `super`, `new`, array literals and arrow functions.
- ExprParser.Parser.ParsePostfix: calls with explicit type arguments end in failure.
- ExprParser.Parser.ParseArgs: named arguments end in failure.
- ExprParser.Parser.ParseAs: the types `ParseType` reads and no others.
- ExprParser.Parser.ParseType: map, function and generic types, and `<` right behind the name of a primitive type.
- ColTable: floating-point NaN and negative zero, `ct_search` over formatted numbers, growth of rows and columns, null toggling; a table starts from any valid view.
- GroupBy: the reduction of each range, with its own sorts, and the copying of cells into the result; integer overflow of row numbers.
- HashJoin.Join: states row pairs, not the cells written for them.
- Dictionary: code width and the failure of allocations, which return -1.
- HashMap: the counts of keys and values held by a map; null maps.
- RefHeap.Heap.Store: the stale pointer a slot holds between release and write is null in the model. Nothing reads it unless the object itself dies, which is where the claim ends.
- RefHeap: regions that free without deinit, atomic counts, deinit bodies written by the user.
- Pool: threads, and header words shown as typed words rather than bytes; memory from the C library is taken to be unused elsewhere.
- IntPow: the overflow test without compiler builtins.
- Null narrowing, arena escape, name mangling, CSV ingest, float methods and formatting, file and network helpers, drivers and bindings: not part of this model.

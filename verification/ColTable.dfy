/** The columnar table's view: an index permutation that sorts reorder and filters compact,
    while the columns themselves stay where they are. */
module ColTable {
  import opened Basics
  import opened StableSort
  import opened SortAlgebra
  import MergeSort

  type Text = seq<nat>

  /** A column by the way its keys compare: numbers through `cell_num`, text by its bytes, and
      dictionary-coded text through the dictionary. */
  datatype Col =
    | Nums(num: seq<int>, nulls: seq<bool>)
    | Texts(txt: seq<Text>, nulls: seq<bool>)
    | Codes(code: seq<nat>, dict: seq<Text>, nulls: seq<bool>)
  {
    predicate IsText() { !Nums? }

    function Num(row: nat): int {
      if Nums? && row < |num| then num[row] else 0
    }

    function Text(row: nat): Text {
      match this
      case Texts(txt, _) => if row < |txt| then txt[row] else []
      case Codes(code, dict, _) => if row < |code| && code[row] < |dict| then dict[code[row]] else []
      case _ => []
    }

    predicate IsNull(row: nat) { row < |nulls| && nulls[row] }
  }

  /** memcmp over the shorter length, then the shorter text first. */
  function CmpText(a: Text, b: Text): int {
    if a == [] || b == [] then |a| - |b|
    else if a[0] != b[0] then a[0] - b[0]
    else CmpText(a[1..], b[1..])
  }

  function CmpNum(x: int, y: int): int {
    if x < y then -1 else if x > y then 1 else 0
  }

  function CmpCol(c: Col, a: nat, b: nat): int {
    if c.Codes? && a < |c.code| && b < |c.code| && c.code[a] == c.code[b] then 0
    else if c.IsText() then CmpText(c.Text(a), c.Text(b))
    else CmpNum(c.Num(a), c.Num(b))
  }

  /** One sort key: a column number, and a direction that is descending when negative. */
  datatype Key = Key(col: int, dir: int)

  /** The answer one key gives; a column number out of range gives none. */
  function CmpKey(cols: seq<Col>, k: Key, a: nat, b: nat): int {
    if k.col < 0 || k.col >= |cols| then 0
    else if k.dir < 0 then -CmpCol(cols[k.col], a, b)
    else CmpCol(cols[k.col], a, b)
  }

  function CmpRows(cols: seq<Col>, keys: seq<Key>, a: nat, b: nat): int {
    if keys == [] then 0
    else if CmpKey(cols, keys[0], a, b) != 0 then CmpKey(cols, keys[0], a, b)
    else CmpRows(cols, keys[1..], a, b)
  }

  function RowOrder(cols: seq<Col>, keys: seq<Key>): (nat, nat) -> int {
    (a: nat, b: nat) => CmpRows(cols, keys, a, b)
  }

  /** The loop that walks the key list. */
  method CompareRows(cols: seq<Col>, keys: seq<Key>, a: nat, b: nat) returns (r: int)
    ensures r == CmpRows(cols, keys, a, b)
    ensures (r < 0 <==> Before(cols, keys, a, b)) && (r > 0 <==> Before(cols, keys, b, a))
  {
    BeforeIs(cols, keys, a, b);
    BeforeIs(cols, keys, b, a);
    CmpRowsFlip(cols, keys, b, a);
    var k := 0;
    while k < |keys|
      invariant k <= |keys| && CmpRows(cols, keys[k..], a, b) == CmpRows(cols, keys, a, b)
    {
      if 0 <= keys[k].col < |cols| {
        r := CmpCol(cols[keys[k].col], a, b);
        if r != 0 { return if keys[k].dir < 0 then -r else r; }
      }
      k := k + 1;
    }
    return 0;
  }

  // ---------------------------------------------------------------- the comparator is an order

  lemma {:induction false} CmpTextFlip(a: Text, b: Text)
    ensures (CmpText(a, b) < 0 <==> CmpText(b, a) > 0) && (CmpText(a, b) == 0 <==> a == b)
  {
    if a != [] && b != [] && a[0] == b[0] {
      CmpTextFlip(a[1..], b[1..]);
      assert a == [a[0]] + a[1..] && b == [b[0]] + b[1..];
    }
  }

  lemma {:induction false} CmpTextTrans(a: Text, b: Text, c: Text)
    requires CmpText(a, b) <= 0 && CmpText(b, c) <= 0
    ensures CmpText(a, c) <= 0
  {
    if a != [] && b != [] && c != [] && a[0] == b[0] == c[0] { CmpTextTrans(a[1..], b[1..], c[1..]); }
  }

  lemma {:induction false} CmpColIsText(c: Col, a: nat, b: nat)
    ensures CmpCol(c, a, b) == if c.IsText() then CmpText(c.Text(a), c.Text(b)) else CmpNum(c.Num(a), c.Num(b))
  {
    CmpTextFlip(c.Text(a), c.Text(b));
  }

  lemma {:induction false} CmpKeyFlip(cols: seq<Col>, k: Key, a: nat, b: nat)
    ensures CmpKey(cols, k, a, b) < 0 <==> CmpKey(cols, k, b, a) > 0
    ensures CmpKey(cols, k, a, b) > 0 <==> CmpKey(cols, k, b, a) < 0
  {
    if 0 <= k.col < |cols| {
      var c := cols[k.col];
      CmpColIsText(c, a, b);
      CmpColIsText(c, b, a);
      CmpTextFlip(c.Text(a), c.Text(b));
      CmpTextFlip(c.Text(b), c.Text(a));
    }
  }

  lemma {:induction false} CmpKeyTrans(cols: seq<Col>, k: Key, a: nat, b: nat, c: nat)
    requires CmpKey(cols, k, a, b) <= 0 && CmpKey(cols, k, b, c) <= 0
    ensures CmpKey(cols, k, a, c) <= 0
    ensures CmpKey(cols, k, a, b) < 0 || CmpKey(cols, k, b, c) < 0 ==> CmpKey(cols, k, a, c) < 0
  {
    CmpKeyLe(cols, k, a, b, c);
    CmpKeyFlip(cols, k, a, c);
    CmpKeyFlip(cols, k, a, b);
    CmpKeyFlip(cols, k, b, c);
    if CmpKey(cols, k, c, a) <= 0 {
      CmpKeyLe(cols, k, c, a, b);
      CmpKeyLe(cols, k, b, c, a);
    }
  }

  lemma {:induction false} CmpKeyLe(cols: seq<Col>, k: Key, a: nat, b: nat, c: nat)
    requires CmpKey(cols, k, a, b) <= 0 && CmpKey(cols, k, b, c) <= 0
    ensures CmpKey(cols, k, a, c) <= 0
  {
    if 0 <= k.col < |cols| {
      var col := cols[k.col];
      CmpColIsText(col, a, b);
      CmpColIsText(col, b, c);
      CmpColIsText(col, a, c);
      var x, y, z := col.Text(a), col.Text(b), col.Text(c);
      CmpTextFlip(x, y);
      CmpTextFlip(y, x);
      CmpTextFlip(y, z);
      CmpTextFlip(z, y);
      CmpTextFlip(x, z);
      CmpTextFlip(z, x);
      if col.IsText() {
        if k.dir < 0 { CmpTextTrans(z, y, x); } else { CmpTextTrans(x, y, z); }
      }
    }
  }

  lemma {:induction false} CmpRowsFlip(cols: seq<Col>, keys: seq<Key>, a: nat, b: nat)
    ensures CmpRows(cols, keys, a, b) < 0 <==> CmpRows(cols, keys, b, a) > 0
  {
    if keys != [] {
      CmpKeyFlip(cols, keys[0], a, b);
      CmpRowsFlip(cols, keys[1..], a, b);
    }
  }

  lemma {:induction false} CmpRowsTrans(cols: seq<Col>, keys: seq<Key>, a: nat, b: nat, c: nat)
    requires CmpRows(cols, keys, a, b) <= 0 && CmpRows(cols, keys, b, c) <= 0
    ensures CmpRows(cols, keys, a, c) <= 0
  {
    if keys != [] {
      CmpKeyTrans(cols, keys[0], a, b, c);
      if CmpKey(cols, keys[0], a, b) == 0 && CmpKey(cols, keys[0], b, c) == 0 {
        CmpRowsTrans(cols, keys[1..], a, b, c);
      }
    }
  }

  /** Every key list gives a consistent total preorder on the rows. */
  lemma {:induction false} RowOrderConsistent(cols: seq<Col>, keys: seq<Key>)
    ensures Consistent(RowOrder(cols, keys))
  {
    var cmp := RowOrder(cols, keys);
    forall a, b ensures cmp(a, b) < 0 <==> cmp(b, a) > 0 { CmpRowsFlip(cols, keys, a, b); }
    forall a, b, c | cmp(a, b) <= 0 && cmp(b, c) <= 0 ensures cmp(a, c) <= 0 { CmpRowsTrans(cols, keys, a, b, c); }
  }

  lemma {:induction false} RowOrderLex(cols: seq<Col>, k1: seq<Key>, k2: seq<Key>)
    ensures Lexicographic(RowOrder(cols, k1), RowOrder(cols, k2), RowOrder(cols, k1 + k2))
  {
    forall a: nat, b: nat
      ensures CmpRows(cols, k1 + k2, a, b) ==
              if CmpRows(cols, k1, a, b) != 0 then CmpRows(cols, k1, a, b) else CmpRows(cols, k2, a, b)
    {
      CmpRowsAppend(cols, k1, k2, a, b);
    }
  }

  lemma {:induction false} CmpRowsAppend(cols: seq<Col>, k1: seq<Key>, k2: seq<Key>, a: nat, b: nat)
    ensures CmpRows(cols, k1 + k2, a, b) ==
            if CmpRows(cols, k1, a, b) != 0 then CmpRows(cols, k1, a, b) else CmpRows(cols, k2, a, b)
  {
    if k1 == [] {
      assert k1 + k2 == k2;
    } else {
      assert (k1 + k2)[0] == k1[0] && (k1 + k2)[1..] == k1[1..] + k2;
      CmpRowsAppend(cols, k1[1..], k2, a, b);
    }
  }

  // ---------------------------------------------------------------- what the order means, over cells

  /** The smaller byte at the first difference, or nothing where the other goes on. */
  ghost predicate TextLess(a: Text, b: Text) {
    exists k: nat :: FirstLess(a, b, k)
  }

  ghost predicate FirstLess(a: Text, b: Text, k: nat) {
    k <= |a| && k < |b| && a[..k] == b[..k] && (k == |a| || a[k] < b[k])
  }

  ghost predicate CellLess(c: Col, a: nat, b: nat) {
    if c.IsText() then TextLess(c.Text(a), c.Text(b)) else c.Num(a) < c.Num(b)
  }

  ghost predicate CellSame(c: Col, a: nat, b: nat) {
    if c.IsText() then c.Text(a) == c.Text(b) else c.Num(a) == c.Num(b)
  }

  /** Row `a` comes before row `b`: the first of the keys with a column on which they differ says so,
      the smaller cell first, or the greater one where the direction is negative. */
  ghost predicate Before(cols: seq<Col>, keys: seq<Key>, a: nat, b: nat) {
    keys != [] &&
    var k := keys[0];
    if !(0 <= k.col < |cols|) || CellSame(cols[k.col], a, b) then Before(cols, keys[1..], a, b)
    else if k.dir >= 0 then CellLess(cols[k.col], a, b)
    else CellLess(cols[k.col], b, a)
  }

  /** No row of the list comes before an earlier one. */
  ghost predicate InOrder(cols: seq<Col>, keys: seq<Key>, rows: seq<nat>) {
    forall i, j :: 0 <= i < j < |rows| ==> !Before(cols, keys, rows[j], rows[i])
  }

  lemma {:induction false} TextLessIs(a: Text, b: Text)
    ensures TextLess(a, b) <==> CmpText(a, b) < 0
  {
    if a == [] || b == [] {
      if |a| < |b| { assert FirstLess(a, b, 0); }
    } else if a[0] != b[0] {
      if a[0] < b[0] { assert FirstLess(a, b, 0); }
      if k: nat :| FirstLess(a, b, k) { assert k == 0 || a[..k][0] == b[..k][0]; }
    } else {
      TextLessIs(a[1..], b[1..]);
      if k: nat :| FirstLess(a[1..], b[1..], k) {
        assert a[..k + 1] == [a[0]] + a[1..][..k] && b[..k + 1] == [b[0]] + b[1..][..k];
        assert FirstLess(a, b, k + 1);
      }
      if k: nat :| FirstLess(a, b, k) {
        assert k > 0;
        assert a[1..][..k - 1] == a[..k][1..] && b[1..][..k - 1] == b[..k][1..];
        assert FirstLess(a[1..], b[1..], k - 1);
      }
    }
  }

  lemma {:induction false} CellLessIs(c: Col, a: nat, b: nat)
    ensures CellLess(c, a, b) <==> CmpCol(c, a, b) < 0
    ensures CellLess(c, b, a) <==> CmpCol(c, a, b) > 0
    ensures CellSame(c, a, b) <==> CmpCol(c, a, b) == 0
  {
    CmpColIsText(c, a, b);
    TextLessIs(c.Text(a), c.Text(b));
    TextLessIs(c.Text(b), c.Text(a));
    CmpTextFlip(c.Text(a), c.Text(b));
    CmpTextFlip(c.Text(b), c.Text(a));
  }

  lemma {:induction false} BeforeIs(cols: seq<Col>, keys: seq<Key>, a: nat, b: nat)
    ensures Before(cols, keys, a, b) <==> CmpRows(cols, keys, a, b) < 0
  {
    hide CmpCol, CellLess, CellSame;
    if keys != [] {
      BeforeIs(cols, keys[1..], a, b);
      if 0 <= keys[0].col < |cols| { CellLessIs(cols[keys[0].col], a, b); }
    }
  }

  lemma {:induction false} SortedInOrder(cols: seq<Col>, keys: seq<Key>, rows: seq<nat>)
    ensures Sorted(RowOrder(cols, keys), rows) <==> InOrder(cols, keys, rows)
  {
    hide CmpRows, Before;
    forall a: nat, b: nat ensures CmpRows(cols, keys, a, b) <= 0 <==> !Before(cols, keys, b, a) {
      BeforeIs(cols, keys, b, a);
      CmpRowsFlip(cols, keys, b, a);
    }
  }

  lemma {:induction false} ShownInOrder(cols: seq<Col>, keys: seq<Key>, rows: seq<nat>, granted: bool)
    ensures granted || |rows| < 2 ==> InOrder(cols, keys, MergeSort.AfterSort(RowOrder(cols, keys), rows, granted))
  {
    hide StableSorted, Consistent, Before, CmpRows;
    RowOrderConsistent(cols, keys);
    StableSortedSorts(RowOrder(cols, keys), rows);
    SortedInOrder(cols, keys, StableSorted(RowOrder(cols, keys), rows));
  }

  /** Rows in order have the first key's cells going up, or down where its direction is negative. */
  lemma {:induction false} FirstKeyMoves(cols: seq<Col>, keys: seq<Key>, rows: seq<nat>, i: nat, j: nat)
    requires InOrder(cols, keys, rows) && i < j < |rows| && keys != [] && 0 <= keys[0].col < |cols|
    ensures var (c, a, b) := (cols[keys[0].col], rows[i], rows[j]);
      && (!c.IsText() && keys[0].dir >= 0 ==> c.Num(a) <= c.Num(b))
      && (!c.IsText() && keys[0].dir < 0 ==> c.Num(a) >= c.Num(b))
      && (c.IsText() && keys[0].dir >= 0 ==> c.Text(a) == c.Text(b) || TextLess(c.Text(a), c.Text(b)))
      && (c.IsText() && keys[0].dir < 0 ==> c.Text(a) == c.Text(b) || TextLess(c.Text(b), c.Text(a)))
      && (CellSame(c, a, b) ==> !Before(cols, keys[1..], b, a))
  {
    hide CmpCol, TextLess;
    var c, a, b := cols[keys[0].col], rows[i], rows[j];
    assert !Before(cols, keys, b, a);
    CellLessIs(c, a, b);
    CellLessIs(c, b, a);
  }

  // ---------------------------------------------------------------- filters

  /** ASCII lower case. */
  function Lower(c: nat): nat {
    if 65 <= c <= 90 then c + 32 else c
  }

  function Folded(t: Text): (r: Text)
    ensures |r| == |t| && forall i :: 0 <= i < |t| ==> r[i] == Lower(t[i])
  {
    if t == [] then [] else [Lower(t[0])] + Folded(t[1..])
  }

  ghost predicate OccursAt(p: Text, needle: Text, i: nat) {
    i + |needle| <= |p| && Folded(p[i..i + |needle|]) == Folded(needle)
  }

  /** `needle` occurs in `p`, letter case aside. */
  ghost predicate Occurs(p: Text, needle: Text) {
    exists i: nat :: OccursAt(p, needle, i)
  }

  method EqualFolded(a: Text, b: Text) returns (r: bool)
    requires |a| == |b|
    ensures r == (Folded(a) == Folded(b))
  {
    for i := 0 to |a|
      invariant forall j :: 0 <= j < i ==> Lower(a[j]) == Lower(b[j])
    {
      if Lower(a[i]) != Lower(b[i]) {
        assert Folded(a)[i] != Folded(b)[i];
        return false;
      }
    }
    return true;
  }

  /** The scan tries a position only where the first letter agrees. */
  method Contains(p: Text, needle: Text) returns (r: bool)
    ensures r == Occurs(p, needle)
  {
    if needle == [] {
      assert OccursAt(p, needle, 0);
      return true;
    }
    if |needle| > |p| { return false; }
    var n0 := Lower(needle[0]);
    var i := 0;
    while i + |needle| <= |p|
      invariant i + |needle| <= |p| + 1 || i == 0
      invariant forall j: nat :: j < i ==> !OccursAt(p, needle, j)
    {
      if Lower(p[i]) == n0 {
        var eq := EqualFolded(p[i..i + |needle|], needle);
        if eq {
          assert OccursAt(p, needle, i);
          return true;
        }
      } else {
        assert Folded(p[i..i + |needle|])[0] != Folded(needle)[0];
      }
      i := i + 1;
    }
    return false;
  }

  /** What a filter call asks of a row. */
  datatype Test = NumTest(col: int, op: int, operand: int) | TextTest(col: int, op: int, needle: Text)

  predicate NumOp(op: int, x: int, y: int) {
    match op
    case 0 => x == y
    case 1 => x != y
    case 2 => x < y
    case 3 => x <= y
    case 4 => x > y
    case _ => x >= y
  }

  /** A column out of range filters nothing; a text filter on numbers lets nothing pass. */
  ghost predicate Passes(cols: seq<Col>, t: Test, row: nat) {
    if t.col < 0 || t.col >= |cols| then true
    else if t.NumTest? then NumOp(t.op, cols[t.col].Num(row), t.operand)
    else
      var s := cols[t.col].Text(row);
      cols[t.col].IsText() && if t.op == 0 then s == t.needle else Occurs(s, t.needle)
  }

  ghost function Passing(cols: seq<Col>, t: Test): nat -> bool {
    (row: nat) => Passes(cols, t, row)
  }

  /** The rows a filter on numbers keeps, code by code. */
  lemma {:induction false} NumFilterKeeps(cols: seq<Col>, col: nat, x: int, view: seq<nat>, row: nat)
    requires col < |cols| && row in view
    ensures var n := cols[col].Num(row);
      && (row in Keep(Passing(cols, NumTest(col, 0, x)), view) <==> n == x)
      && (row in Keep(Passing(cols, NumTest(col, 1, x)), view) <==> n != x)
      && (row in Keep(Passing(cols, NumTest(col, 2, x)), view) <==> n < x)
      && (row in Keep(Passing(cols, NumTest(col, 3, x)), view) <==> n <= x)
      && (row in Keep(Passing(cols, NumTest(col, 4, x)), view) <==> n > x)
      && (forall op :: op < 0 || op > 4 ==> (row in Keep(Passing(cols, NumTest(col, op, x)), view) <==> n >= x))
  {
    forall op: int ensures row in Keep(Passing(cols, NumTest(col, op, x)), view) <==> NumOp(op, cols[col].Num(row), x) {
      KeepIn(Passing(cols, NumTest(col, op, x)), view);
    }
  }

  /** The same byte, or the same of the 26 letters. */
  predicate SameLetter(a: nat, b: nat) {
    a == b || (65 <= a <= 90 && b == a + 32) || (65 <= b <= 90 && a == b + 32)
  }

  lemma {:induction false} FoldedSame(a: Text, b: Text)
    requires |a| == |b|
    ensures Folded(a) == Folded(b) <==> forall i :: 0 <= i < |a| ==> SameLetter(a[i], b[i])
  {
    forall x: nat, y: nat ensures Lower(x) == Lower(y) <==> SameLetter(x, y) {
    }
    if forall i :: 0 <= i < |a| ==> SameLetter(a[i], b[i]) {
      assert forall i :: 0 <= i < |a| ==> Folded(a)[i] == Folded(b)[i];
    } else {
      var i :| 0 <= i < |a| && !SameLetter(a[i], b[i]);
      assert Folded(a)[i] != Folded(b)[i];
    }
  }

  /** The rows a filter on text keeps: those equal to the needle for code 0, and for any other code
      those that hold it somewhere, letter by letter. */
  lemma {:induction false} TextFilterKeeps(cols: seq<Col>, col: nat, op: int, needle: Text, view: seq<nat>, row: nat)
    requires col < |cols| && row in view && cols[col].IsText()
    ensures var t := cols[col].Text(row);
      row in Keep(Passing(cols, TextTest(col, op, needle)), view) <==>
        if op == 0 then t == needle else exists i: nat :: Holds(t, needle, i)
  {
    KeepIn(Passing(cols, TextTest(col, op, needle)), view);
    var t := cols[col].Text(row);
    forall i: nat ensures OccursAt(t, needle, i) <==> Holds(t, needle, i) {
      if i + |needle| <= |t| { FoldedSame(t[i..i + |needle|], needle); }
    }
  }

  ghost predicate Holds(t: Text, needle: Text, i: nat) {
    i + |needle| <= |t| && forall j :: 0 <= j < |needle| ==> SameLetter(t[i + j], needle[j])
  }

  // ---------------------------------------------------------------- the view

  function Upto(n: nat): (r: seq<nat>)
    ensures |r| == n && forall i :: 0 <= i < n ==> r[i] == i
  {
    if n == 0 then [] else Upto(n - 1) + [n - 1]
  }

  const MAX_KEYS := 64

  /** More than 64 keys are cut off. */
  function Capped(keys: seq<Key>): seq<Key> {
    if |keys| > MAX_KEYS then keys[..MAX_KEYS] else keys
  }

  class Table {
    var cols: seq<Col>
    var nrow: nat
    var idx: array<nat>
    var vlen: nat

    ghost predicate Valid()
      reads this, idx
    {
      && vlen <= nrow <= idx.Length
      && (forall k :: 0 <= k < vlen ==> idx[k] < nrow)
      && (forall j, k :: 0 <= j < k < vlen ==> idx[j] != idx[k])
    }

    ghost function View(): seq<nat>
      reads this, idx
      requires vlen <= idx.Length
    {
      idx[..vlen]
    }

    method ResetView()
      requires nrow <= idx.Length
      modifies idx, `vlen
      ensures Valid() && View() == Upto(nrow)
    {
      var i := 0;
      while i < nrow
        invariant i <= nrow <= idx.Length && forall k :: 0 <= k < i ==> idx[k] == k
      {
        idx[i] := i;
        i := i + 1;
      }
      vlen := nrow;
    }

    /** Sorting the view; `scratch` answers the request for a second buffer. */
    method SortKeys(keys: seq<Key>, scratch: nat -> bool)
      requires Valid()
      modifies idx
      ensures Valid() && View() == MergeSort.AfterSort(RowOrder(cols, Capped(keys)), old(View()), scratch(vlen))
      ensures scratch(vlen) || vlen < 2 ==> InOrder(cols, Capped(keys), View())
    {
      hide StableSorted, Consistent, InOrder, Sorted;
      ghost var before := View();
      var cmp := RowOrder(cols, Capped(keys));
      MergeSort.SortBuf(idx, vlen, cmp, scratch);
      RowOrderConsistent(cols, Capped(keys));
      MergeSort.SortedAnyway(cmp, before, scratch(vlen));
      SameRows(before, View(), nrow);
      ShownInOrder(cols, Capped(keys), before, scratch(vlen));
    }

    method Sort(col: int, dir: int, scratch: nat -> bool)
      requires Valid()
      modifies idx
      ensures Valid() && View() == MergeSort.AfterSort(RowOrder(cols, [Key(col, dir)]), old(View()), scratch(vlen))
      ensures scratch(vlen) || vlen < 2 ==> InOrder(cols, [Key(col, dir)], View())
    {
      SortKeys([Key(col, dir)], scratch);
    }

    /** Keep the passing rows of the view, moved down in place. */
    method Filter(t: Test)
      requires Valid()
      modifies idx, `vlen
      ensures Valid() && View() == Keep(Passing(cols, t), old(View()))
    {
      hide Keep, Passes;
      ghost var before := View();
      ghost var p := Passing(cols, t);
      if t.col < 0 || t.col >= |cols| {
        NoSuchColumn(cols, t, before);
        return;
      }
      var c := cols[t.col];
      if t.TextTest? && !c.IsText() {
        vlen := 0;
        TextOnNumbers(cols, t, before);
        return;
      }
      var w, k := 0, 0;
      while k < vlen
        invariant w <= k <= vlen == old(vlen) <= idx.Length
        invariant |Keep(p, before[..k])| == w && forall j :: 0 <= j < w ==> idx[j] == Keep(p, before[..k])[j]
        invariant forall j :: k <= j < vlen ==> idx[j] == before[j]
      {
        var row := idx[k];
        var hit := Hit(cols, t, row);
        KeepNext(p, before, k);
        if hit {
          idx[w] := row;
          w := w + 1;
        }
        k := k + 1;
      }
      vlen := w;
      assert before[..k] == before;
      KeepValid(p, before, View(), nrow);
    }
  }

  lemma {:induction false} NoSuchColumn(cols: seq<Col>, t: Test, s: seq<nat>)
    requires t.col < 0 || t.col >= |cols|
    ensures Keep(Passing(cols, t), s) == s
  {
    KeepAll(Passing(cols, t), s);
  }

  lemma {:induction false} TextOnNumbers(cols: seq<Col>, t: Test, s: seq<nat>)
    requires 0 <= t.col < |cols| && t.TextTest? && !cols[t.col].IsText()
    ensures Keep(Passing(cols, t), s) == []
  {
    KeepNone(Passing(cols, t), s);
  }

  /** One row asked by a filter whose column exists. */
  method Hit(cols: seq<Col>, t: Test, row: nat) returns (hit: bool)
    requires 0 <= t.col < |cols| && (t.TextTest? ==> cols[t.col].IsText())
    ensures hit == Passing(cols, t)(row)
  {
    var c := cols[t.col];
    if t.NumTest? {
      hit := NumOp(t.op, c.Num(row), t.operand);
    } else if t.op == 0 {
      hit := c.Text(row) == t.needle;
    } else {
      hit := Contains(c.Text(row), t.needle);
    }
  }

  lemma {:induction false} KeepNext<T>(p: T -> bool, s: seq<T>, k: nat)
    requires k < |s|
    ensures Keep(p, s[..k + 1]) == Keep(p, s[..k]) + if p(s[k]) then [s[k]] else []
  {
    assert s[..k + 1] == s[..k] + [s[k]];
    KeepAppend(p, s[..k], [s[k]]);
  }

  lemma {:induction false} KeepValid(p: nat -> bool, s: seq<nat>, r: seq<nat>, n: nat)
    requires Distinct(s) && (forall x :: x in s ==> x < n) && r == Keep(p, s)
    ensures Distinct(r) && forall k :: 0 <= k < |r| ==> r[k] < n
  {
    KeepDistinct(p, s);
    KeepIn(p, s);
    forall k | 0 <= k < |r| ensures r[k] < n { assert r[k] in r; }
  }

  lemma {:induction false} KeepAll<T>(p: T -> bool, s: seq<T>)
    requires forall x :: x in s ==> p(x)
    ensures Keep(p, s) == s
  {
    if s != [] { KeepAll(p, s[1..]); }
  }

  lemma {:induction false} KeepNone<T>(p: T -> bool, s: seq<T>)
    requires forall x :: x in s ==> !p(x)
    ensures Keep(p, s) == []
  {
    if s != [] {
      assert s[0] in s;
      KeepNone(p, s[1..]);
    }
  }

  lemma {:induction false} DistinctCount<T>(s: seq<T>)
    ensures Distinct(s) <==> forall x :: multiset(s)[x] <= 1
  {
    if s != [] {
      var t := s[1..];
      DistinctCount(t);
      assert s == [s[0]] + t && multiset(s) == multiset{s[0]} + multiset(t);
      if Distinct(s) {
        assert Distinct(t) by { forall i, j | 0 <= i < j < |t| ensures t[i] != t[j] { assert s[i + 1] != s[j + 1]; } }
        assert s[0] !in t by { assert forall i :: 0 <= i < |t| ==> t[i] == s[i + 1] && s[0] != s[i + 1]; }
      } else {
        var i, j :| 0 <= i < j < |s| && s[i] == s[j];
        if i > 0 {
          assert t[i - 1] == t[j - 1] && !Distinct(t);
          var x :| multiset(t)[x] > 1;
          assert multiset(s)[x] > 1;
        } else {
          assert t[j - 1] == s[0] && s[0] in t;
          assert multiset(s)[s[0]] > 1;
        }
      }
    }
  }

  lemma {:induction false} UptoDistinct(n: nat)
    ensures Distinct(Upto(n))
  {
  }

  lemma {:induction false} KeepDistinct<T(!new)>(p: T -> bool, s: seq<T>)
    requires Distinct(s)
    ensures Distinct(Keep(p, s))
  {
    DistinctCount(s);
    DistinctCount(Keep(p, s));
    forall x ensures multiset(Keep(p, s))[x] <= 1 { KeepCount(p, s, x); }
  }

  /** A rearrangement of distinct rows is one of distinct rows, all still in range. */
  lemma {:induction false} SameRows(a: seq<nat>, b: seq<nat>, n: nat)
    requires multiset(a) == multiset(b) && Distinct(a) && forall x :: x in a ==> x < n
    ensures Distinct(b) && |a| == |b| && forall k :: 0 <= k < |b| ==> b[k] < n
  {
    DistinctCount(a);
    DistinctCount(b);
    assert |multiset(a)| == |a| && |multiset(b)| == |b|;
    forall k | 0 <= k < |b| ensures b[k] < n { assert b[k] in multiset(a); assert b[k] in a; }
  }

  // ---------------------------------------------------------------- the algebra of views

  datatype Op = Reset | SortBy(keys: seq<Key>, granted: bool) | FilterBy(test: Test)

  /** What one call does to the view. */
  ghost function Apply(cols: seq<Col>, nrow: nat, op: Op, view: seq<nat>): seq<nat> {
    match op
    case Reset => Upto(nrow)
    case SortBy(keys, granted) => MergeSort.AfterSort(RowOrder(cols, Capped(keys)), view, granted)
    case FilterBy(test) => Keep(Passing(cols, test), view)
  }

  ghost function Run(cols: seq<Col>, nrow: nat, ops: seq<Op>): seq<nat> {
    if ops == [] then Upto(nrow) else Apply(cols, nrow, ops[|ops| - 1], Run(cols, nrow, ops[..|ops| - 1]))
  }

  /** The sort keys in force: the latest sort's first. */
  function KeysOf(ops: seq<Op>): seq<Key> {
    if ops == [] then [] else
    match ops[|ops| - 1]
    case Reset => []
    case SortBy(keys, granted) => (if granted then Capped(keys) else []) + KeysOf(ops[..|ops| - 1])
    case FilterBy(_) => KeysOf(ops[..|ops| - 1])
  }

  /** A row passes every filter since the last reset. */
  ghost predicate PassesAll(cols: seq<Col>, ops: seq<Op>, row: nat) {
    ops != [] ==>
      match ops[|ops| - 1]
      case Reset => true
      case SortBy(_, _) => PassesAll(cols, ops[..|ops| - 1], row)
      case FilterBy(test) => PassesAll(cols, ops[..|ops| - 1], row) && Passes(cols, test, row)
  }

  ghost function PassingAll(cols: seq<Col>, ops: seq<Op>): nat -> bool {
    (row: nat) => PassesAll(cols, ops, row)
  }

  /** Sorting by `k2` and then by `k1` is one sort by `k1` followed by `k2`. */
  lemma {:induction false} MultiKeyIsSuccessive(cols: seq<Col>, k1: seq<Key>, k2: seq<Key>, s: seq<nat>)
    ensures StableSorted(RowOrder(cols, k1), StableSorted(RowOrder(cols, k2), s))
        == StableSorted(RowOrder(cols, k1 + k2), s)
  {
    RowOrderConsistent(cols, k1);
    RowOrderConsistent(cols, k2);
    RowOrderConsistent(cols, k1 + k2);
    RowOrderLex(cols, k1, k2);
    SortByMinorThenMajor(RowOrder(cols, k1), RowOrder(cols, k2), RowOrder(cols, k1 + k2), s);
  }

  lemma {:induction false} SortByNothing(cols: seq<Col>, s: seq<nat>)
    ensures StableSorted(RowOrder(cols, []), s) == s
  {
    var cmp := RowOrder(cols, []);
    RowOrderConsistent(cols, []);
    StableSortedSorts(cmp, s);
    StableSortUnique(cmp, s, s, StableSorted(cmp, s));
  }

  /** Any run of sorts, filters and resets shows the rows passing the filters, sorted by the
      keys of all its sorts that had their buffer, the latest first: the calls' order matters in no
      other way. */
  lemma {:induction false} ViewNormalForm(cols: seq<Col>, nrow: nat, ops: seq<Op>)
    ensures Run(cols, nrow, ops) ==
            StableSorted(RowOrder(cols, KeysOf(ops)), Keep(PassingAll(cols, ops), Upto(nrow)))
    decreases |ops|
  {
    hide StableSorted;
    var all := PassingAll(cols, ops);
    if ops == [] || ops[|ops| - 1].Reset? {
      KeepAll(all, Upto(nrow));
      SortByNothing(cols, Upto(nrow));
    } else {
      var init := ops[..|ops| - 1];
      ViewNormalForm(cols, nrow, init);
      var was := PassingAll(cols, init);
      match ops[|ops| - 1]
      case SortBy(keys, granted) =>
        if granted {
          MultiKeyIsSuccessive(cols, Capped(keys), KeysOf(init), Keep(was, Upto(nrow)));
        } else {
          assert KeysOf(ops) == KeysOf(init);
        }
        KeepSame(was, all, Upto(nrow));
      case FilterBy(test) =>
        var p := Passing(cols, test);
        RowOrderConsistent(cols, KeysOf(init));
        FilterSortCommute(p, RowOrder(cols, KeysOf(init)), Keep(was, Upto(nrow)));
        FilterTwice(was, p, all, Upto(nrow));
    }
  }

  lemma {:induction false} KeepSame<T>(p: T -> bool, q: T -> bool, s: seq<T>)
    requires forall x :: x in s ==> p(x) == q(x)
    ensures Keep(p, s) == Keep(q, s)
  {
    if s != [] {
      assert s[0] in s;
      KeepSame(p, q, s[1..]);
    }
  }

  /** Whatever the calls, the view lists each passing row once and nothing else. */
  lemma {:induction false} ViewListsPassingRows(cols: seq<Col>, nrow: nat, ops: seq<Op>)
    ensures Distinct(Run(cols, nrow, ops))
    ensures forall row: nat :: row in Run(cols, nrow, ops) <==> row < nrow && PassesAll(cols, ops, row)
  {
    hide StableSorted, PassesAll, Consistent, Run, Distinct;
    UptoDistinct(nrow);
    var p := PassingAll(cols, ops);
    var kept := Keep(p, Upto(nrow));
    ViewNormalForm(cols, nrow, ops);
    RowOrderConsistent(cols, KeysOf(ops));
    StableSortedSorts(RowOrder(cols, KeysOf(ops)), kept);
    KeepDistinct(p, Upto(nrow));
    KeepIn(p, Upto(nrow));
    forall row: nat ensures row in Upto(nrow) <==> row < nrow {
      if row < nrow { assert Upto(nrow)[row] == row; }
    }
    SameRows(kept, Run(cols, nrow, ops), nrow);
    forall row: nat ensures row in Run(cols, nrow, ops) <==> row in kept {
      assert row in multiset(kept) <==> row in multiset(Run(cols, nrow, ops));
    }
  }
}

/** The slice of a pandas DataFrame that the selector and the mapper use: a
    number of rows and a set of named numeric columns, every column holding one
    value per row. Also the small searches over a column (numpy's argmin,
    pandas' idxmin, Python's min and list.index) that both components rely on. */
module DataFrames {

  datatype Option<T> = None | Some(value: T)

  datatype Result<T, E> = Ok(value: T) | Err(error: E)

  /** Column labels of the three tables: `X` is "x", `Y` is "y" and `Yn(n)` is
      "y" followed by `n` in decimal ("y1", ..., "y50"). */
  datatype Column = X | Y | Yn(n: nat)

  datatype Table = Table(rows: nat, columns: map<Column, seq<real>>) {

    /** A DataFrame is rectangular: every column has one cell per row. */
    predicate Valid() {
      forall c :: c in columns ==> |columns[c]| == rows
    }

    /** `DataFrame.empty`: true when either axis has length zero. */
    predicate Empty() {
      rows == 0 || |columns| == 0
    }
  }

  function Abs(r: real): (a: real)
    ensures a >= 0.0
    ensures a == r || a == -r
  {
    if r < 0.0 then -r else r
  }

  /** `k` is the first position of a minimum of `s`. */
  predicate IsFirstMin(s: seq<real>, k: nat) {
    k < |s| &&
    (forall j :: 0 <= j < |s| ==> s[k] <= s[j]) &&
    (forall j :: 0 <= j < k ==> s[j] > s[k])
  }

  lemma FirstMinUnique(s: seq<real>, a: nat, b: nat)
    requires IsFirstMin(s, a) && IsFirstMin(s, b)
    ensures a == b
  {
    assert s[a] == s[b];
  }


  /** numpy's `argmin` and pandas' `idxmin` on a default index: a left-to-right
      scan that moves only on a strictly smaller value. */
  function ArgMin(s: seq<real>): (k: nat)
    requires |s| > 0
    ensures IsFirstMin(s, k)
    decreases |s|
  {
    if |s| == 1 then 0
    else
      var k := ArgMin(s[..|s| - 1]);
      if s[|s| - 1] < s[k] then |s| - 1 else k
  }

  /** Python's `min` over a non-empty list. */
  function Min(s: seq<real>): (m: real)
    requires |s| > 0
    ensures m in s
    ensures forall j :: 0 <= j < |s| ==> m <= s[j]
    decreases |s|
  {
    if |s| == 1 then s[0]
    else
      var m := Min(s[..|s| - 1]);
      if s[|s| - 1] < m then s[|s| - 1] else m
  }

  /** Python's `list.index` and pandas' "first row whose value equals `v`". */
  function FirstIndex(s: seq<real>, v: real): (k: nat)
    requires v in s
    ensures k < |s| && s[k] == v
    ensures forall j :: 0 <= j < k ==> s[j] != v
  {
    if s[0] == v then 0 else 1 + FirstIndex(s[1..], v)
  }

  /** `list.index(min(list))` finds the first minimum. */
  lemma FirstIndexOfMin(s: seq<real>)
    requires |s| > 0
    ensures IsFirstMin(s, FirstIndex(s, Min(s)))
  {
  }

  /** Python's `list.index(min(list))` and numpy's `argmin` pick the same
      position. */
  lemma MinIndexIsArgMin(s: seq<real>)
    requires |s| > 0
    ensures FirstIndex(s, Min(s)) == ArgMin(s)
  {
    FirstIndexOfMin(s);
    FirstMinUnique(s, FirstIndex(s, Min(s)), ArgMin(s));
  }
}

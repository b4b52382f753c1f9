/**
 * Matrices as arrays of rows: construction, flattening in row order,
 * re-chunking a vector into square rows, and melting into one record per
 * cell.
 */
module Matrix {
  import opened Wrappers
  import opened Json

  /** The number of elements of lodash `range(n)`: it counts down for a negative `n`. */
  function RangeLength(n: int): nat {
    if n < 0 then -n else n
  }

  // ---------------------------------------------------------------------
  // newMatrix

  /** `newMatrix(rows, cols, init)`: `range(rows)` rows of `range(cols)` copies of `init`. */
  method NewMatrix<T>(rows: int, cols: int, init: T) returns (m: seq<seq<T>>)
    ensures |m| == RangeLength(rows)
    ensures forall i :: 0 <= i < |m| ==> |m[i]| == RangeLength(cols)
    ensures forall i, j :: 0 <= i < |m| && 0 <= j < |m[i]| ==> m[i][j] == init
  {
    m := [];
    var i := 0;
    while i < RangeLength(rows)
      invariant 0 <= i <= RangeLength(rows) && |m| == i
      invariant forall k :: 0 <= k < i ==> |m[k]| == RangeLength(cols)
      invariant forall k, j :: 0 <= k < i && 0 <= j < |m[k]| ==> m[k][j] == init
    {
      var row := [];
      var j := 0;
      while j < RangeLength(cols)
        invariant 0 <= j <= RangeLength(cols) && |row| == j
        invariant forall t :: 0 <= t < j ==> row[t] == init
      {
        row := row + [init];
        j := j + 1;
      }
      m := m + [row];
      i := i + 1;
    }
  }

  // ---------------------------------------------------------------------
  // matrixToVector

  /** The rows of `m` concatenated in order. */
  function Flatten<T>(m: seq<seq<T>>): seq<T>
    decreases |m|
  {
    if |m| == 0 then [] else Flatten(m[..|m| - 1]) + m[|m| - 1]
  }

  /** The total number of entries of `m`. */
  function SumLengths<T>(m: seq<seq<T>>): nat
    decreases |m|
  {
    if |m| == 0 then 0 else SumLengths(m[..|m| - 1]) + |m[|m| - 1]|
  }

  /** The flattened matrix has as many entries as all rows together. */
  lemma {:induction false} FlattenLength<T>(m: seq<seq<T>>)
    ensures |Flatten(m)| == SumLengths(m)
    decreases |m|
  {
    if |m| > 0 {
      FlattenLength(m[..|m| - 1]);
    }
  }

  /** Entry `j` of row `i` stands after all entries of the rows before it. */
  lemma {:induction false} FlattenIndex<T>(m: seq<seq<T>>, i: nat, j: nat)
    requires i < |m| && j < |m[i]|
    ensures SumLengths(m[..i]) + j < |Flatten(m)|
    ensures Flatten(m)[SumLengths(m[..i]) + j] == m[i][j]
    decreases |m|
  {
    var init := m[..|m| - 1];
    FlattenLength(m);
    FlattenLength(init);
    if i < |m| - 1 {
      FlattenIndex(init, i, j);
      assert init[..i] == m[..i];
    } else {
      assert m[..i] == init;
    }
  }

  /** In a matrix whose rows all have length `s`, the rows before `i` hold `i * s` entries. */
  lemma {:induction false} SumLengthsOfRegular<T>(m: seq<seq<T>>, s: nat, i: nat)
    requires i <= |m|
    requires forall k :: 0 <= k < |m| ==> |m[k]| == s
    ensures SumLengths(m[..i]) == i * s
    decreases i
  {
    if i > 0 {
      SumLengthsOfRegular(m, s, i - 1);
      assert m[..i][..i - 1] == m[..i - 1];
    }
  }

  /** `matrixToVector(M)`: each row is appended to the vector built so far. */
  method MatrixToVector<T>(m: seq<seq<T>>) returns (v: seq<T>)
    ensures v == Flatten(m)
  {
    v := [];
    var i := 0;
    while i < |m|
      invariant 0 <= i <= |m|
      invariant v == Flatten(m[..i])
    {
      assert m[..i + 1][..i] == m[..i];
      v := v + m[i];
      i := i + 1;
    }
    assert m[..i] == m;
  }

  // ---------------------------------------------------------------------
  // vectorToMatrix

  /** `v.slice(lo, hi)` for `0 <= lo <= hi`: both ends are cut off at the length of `v`. */
  function Slice<T>(v: seq<T>, lo: nat, hi: nat): (r: seq<T>)
    requires lo <= hi
    ensures hi <= |v| ==> r == v[lo..hi]
    ensures |v| <= lo ==> r == []
  {
    var l := if lo < |v| then lo else |v|;
    var h := if hi < |v| then hi else |v|;
    v[l..h]
  }

  /** `vectorToMatrix(v, s)`: row `i - 1` is the slice `[(i - 1) * s, i * s)` for `i = 1 .. s`. */
  method VectorToMatrix<T>(v: seq<T>, s: int) returns (n: seq<seq<T>>)
    ensures s <= 0 ==> n == []
    ensures s > 0 ==> |n| == s && forall i :: 0 <= i < s ==> n[i] == Slice(v, i * s, (i + 1) * s)
  {
    n := [];
    var i := 1;
    while i <= s
      invariant s > 0 ==> 1 <= i <= s + 1
      invariant |n| == if s > 0 then i - 1 else 0
      invariant forall k :: 0 <= k < |n| ==> n[k] == Slice(v, k * s, (k + 1) * s)
    {
      n := n + [Slice(v, (i - 1) * s, i * s)];
      i := i + 1;
    }
  }

  lemma MulBound(i: nat, s: nat)
    requires i < s
    ensures (i + 1) * s <= s * s
  {
  }

  /** Slice `i` of the flattened `s` by `s` matrix is row `i`. */
  lemma {:induction false} ChunkFlattenedSquare<T>(m: seq<seq<T>>, s: nat, i: nat)
    requires |m| == s && i < s
    requires forall k :: 0 <= k < s ==> |m[k]| == s
    ensures Slice(Flatten(m), i * s, (i + 1) * s) == m[i]
  {
    SumLengthsOfRegular(m, s, s);
    assert m[..s] == m;
    FlattenLength(m);
    MulBound(i, s);
    SumLengthsOfRegular(m, s, i);
    var row := Slice(Flatten(m), i * s, (i + 1) * s);
    assert |row| == s;
    forall j | 0 <= j < s
      ensures row[j] == m[i][j]
    {
      FlattenIndex(m, i, j);
    }
  }

  /**
   * Chunking the flattened `s` by `s` matrix into rows of `s` gives the matrix back:
   * `n` is any result `VectorToMatrix(Flatten(m), s)` may return.
   */
  lemma VectorToMatrixOfMatrixToVector<T>(m: seq<seq<T>>, s: nat, n: seq<seq<T>>)
    requires |m| == s
    requires forall k :: 0 <= k < s ==> |m[k]| == s
    requires s > 0 ==> |n| == s && forall i :: 0 <= i < s ==> n[i] == Slice(Flatten(m), i * s, (i + 1) * s)
    requires s == 0 ==> n == []
    ensures n == m
  {
    forall i | 0 <= i < s
      ensures n[i] == m[i]
    {
      ChunkFlattenedSquare(m, s, i);
    }
  }

  // ---------------------------------------------------------------------
  // melt

  /** One cell of a melted matrix; a name past the end of its list is `undefined` (None). */
  datatype MoltenCell<T> = MoltenCell(rowIndex: nat, colIndex: nat, rowName: Option<string>, colName: Option<string>, value: T)

  /** `names[k]`. */
  function NameAt(names: seq<string>, k: nat): (r: Option<string>)
    ensures k < |names| ==> r == Some(names[k])
    ensures k >= |names| ==> r == None
  {
    if k < |names| then Some(names[k]) else None
  }

  /** `n` copies of `name`: `range(n).map(() => name)`. */
  function Repeat(name: string, n: nat): (r: seq<string>)
    ensures |r| == n && forall k :: 0 <= k < n ==> r[k] == name
  {
    seq(n, k requires 0 <= k < n => name)
  }

  /** The cells of row `i`. */
  function MeltRow<T>(i: nat, row: seq<T>, rownames: seq<string>, colnames: seq<string>): seq<MoltenCell<T>> {
    seq(|row|, j requires 0 <= j < |row| => MoltenCell(i, j, NameAt(rownames, i), NameAt(colnames, j), row[j]))
  }

  /** The cells of all rows, row after row. */
  function Molten<T>(m: seq<seq<T>>, rownames: seq<string>, colnames: seq<string>): seq<MoltenCell<T>>
    decreases |m|
  {
    if |m| == 0 then []
    else Molten(m[..|m| - 1], rownames, colnames) + MeltRow(|m| - 1, m[|m| - 1], rownames, colnames)
  }

  /** The names used when the caller passes none: one per row, and one per entry of the first row. */
  function ColNames<T>(m: seq<seq<T>>, colnames: Option<seq<string>>): Result<seq<string>, Exception> {
    match colnames
    case Some(names) => Ok(names)
    case None => if |m| == 0 then Err(TypeError) else Ok(Repeat("col", |m[0]|))
  }

  function RowNames<T>(m: seq<seq<T>>, rownames: Option<seq<string>>): seq<string> {
    match rownames
    case Some(names) => names
    case None => Repeat("row", |m|)
  }

  /** `melt(matrix, rownames?, colnames?)`; the default column names read `matrix[0]`, which throws on an empty matrix. */
  method Melt<T>(m: seq<seq<T>>, rownames: Option<seq<string>>, colnames: Option<seq<string>>)
    returns (r: Result<seq<MoltenCell<T>>, Exception>)
    ensures r.Err? <==> colnames.None? && |m| == 0
    ensures r.Err? ==> r.error == TypeError
    ensures r.Ok? ==> r.value == Molten(m, RowNames(m, rownames), ColNames(m, colnames).value)
  {
    var rn := RowNames(m, rownames);
    var cn :- ColNames(m, colnames);
    var result := [];
    var i := 0;
    while i < |m|
      invariant 0 <= i <= |m|
      invariant result == Molten(m[..i], rn, cn)
    {
      assert m[..i + 1][..i] == m[..i];
      var row := m[i];
      var j := 0;
      while j < |row|
        invariant 0 <= j <= |row|
        invariant result == Molten(m[..i], rn, cn) + MeltRow(i, row[..j], rn, cn)
      {
        assert MeltRow(i, row[..j + 1], rn, cn) == MeltRow(i, row[..j], rn, cn) + [MoltenCell(i, j, NameAt(rn, i), NameAt(cn, j), row[j])];
        result := result + [MoltenCell(i, j, NameAt(rn, i), NameAt(cn, j), row[j])];
        j := j + 1;
      }
      assert row[..j] == row;
      i := i + 1;
    }
    assert m[..i] == m;
    return Ok(result);
  }

  /** One cell per entry. */
  lemma {:induction false} MoltenLength<T>(m: seq<seq<T>>, rownames: seq<string>, colnames: seq<string>)
    ensures |Molten(m, rownames, colnames)| == SumLengths(m)
    decreases |m|
  {
    if |m| > 0 {
      MoltenLength(m[..|m| - 1], rownames, colnames);
    }
  }

  /** Row-major order: entry `(i, j)` is melted at the offset of row `i` plus `j`, with its position and value. */
  lemma {:induction false} MoltenIndex<T>(m: seq<seq<T>>, rownames: seq<string>, colnames: seq<string>, i: nat, j: nat)
    requires i < |m| && j < |m[i]|
    ensures SumLengths(m[..i]) + j < |Molten(m, rownames, colnames)|
    ensures Molten(m, rownames, colnames)[SumLengths(m[..i]) + j] ==
      MoltenCell(i, j, NameAt(rownames, i), NameAt(colnames, j), m[i][j])
    decreases |m|
  {
    var init := m[..|m| - 1];
    MoltenLength(m, rownames, colnames);
    MoltenLength(init, rownames, colnames);
    if i < |m| - 1 {
      MoltenIndex(init, rownames, colnames, i, j);
      assert init[..i] == m[..i];
    } else {
      assert m[..i] == init;
    }
  }

  /** With the default names and no row longer than the first, every cell is named "row" and "col". */
  lemma {:induction false} DefaultNames<T>(m: seq<seq<T>>, k: nat)
    requires |m| > 0 && forall i :: 0 <= i < |m| ==> |m[i]| <= |m[0]|
    requires k < |Molten(m, RowNames(m, None), ColNames(m, None).value)|
    ensures Molten(m, RowNames(m, None), ColNames(m, None).value)[k].rowName == Some("row")
    ensures Molten(m, RowNames(m, None), ColNames(m, None).value)[k].colName == Some("col")
  {
    assert m[..|m|] == m;
    MoltenCellsInRange(m, RowNames(m, None), ColNames(m, None).value, |m|, k);
  }

  /** The default column names come from the first row, so a cell past its length has no column name. */
  lemma DefaultColNamePastFirstRow<T>(m: seq<seq<T>>, i: nat, j: nat)
    requires i < |m| && |m[0]| <= j < |m[i]|
    ensures SumLengths(m[..i]) + j < |Molten(m, RowNames(m, None), ColNames(m, None).value)|
    ensures Molten(m, RowNames(m, None), ColNames(m, None).value)[SumLengths(m[..i]) + j].colName == None
  {
    MoltenIndex(m, RowNames(m, None), ColNames(m, None).value, i, j);
  }

  /** Every cell of the first `n` rows carries a position inside the matrix. */
  lemma {:induction false} MoltenCellsInRange<T>(m: seq<seq<T>>, rownames: seq<string>, colnames: seq<string>, n: nat, k: nat)
    requires n <= |m| && k < |Molten(m[..n], rownames, colnames)|
    ensures var c := Molten(m[..n], rownames, colnames)[k];
      c.rowIndex < n && c.colIndex < |m[c.rowIndex]| &&
      c.rowName == NameAt(rownames, c.rowIndex) && c.colName == NameAt(colnames, c.colIndex) &&
      c.value == m[c.rowIndex][c.colIndex]
    decreases n
  {
    var prefix := Molten(m[..n][..n - 1], rownames, colnames);
    assert m[..n][..n - 1] == m[..n - 1];
    if k < |prefix| {
      MoltenCellsInRange(m, rownames, colnames, n - 1, k);
    }
  }
}

/** The column-major ("Fortran order") reshape of a flat word sequence into
    a matrix of one row per channel, and its inverse, the column-major
    flattening. Row c of the matrix is channel c; column s is sample s. */
module ColumnMajor {
  import Calibration

  /** Number of rows of the reshaped matrix: one per channel. */
  const Rows: nat := Calibration.NumberOfChannels

  /** `m` has one row per channel, each of length `cols`. */
  ghost predicate IsMatrix<T>(m: seq<seq<T>>, cols: nat) {
    |m| == Rows && forall c :: 0 <= c < Rows ==> |m[c]| == cols
  }

  /** The flat position that column-major order gives to cell (c, s). */
  function FlatIndex(c: nat, s: nat): (k: nat) {
    s * Rows + c
  }

  /** Column-major positions and cells of a matrix with `cols` columns are
      in one-to-one correspondence: every cell has a position below
      Rows * cols, and position k belongs to cell (k mod Rows, k div Rows)
      and to no other. */
  lemma FlatIndexBijection(cols: nat, k: nat)
    requires k < Rows * cols
    ensures k % Rows < Rows && k / Rows < cols
    ensures FlatIndex(k % Rows, k / Rows) == k
    ensures forall c: nat, s: nat :: c < Rows && FlatIndex(c, s) == k ==> c == k % Rows && s == k / Rows
    ensures forall c: nat, s: nat :: c < Rows && s < cols ==> FlatIndex(c, s) < Rows * cols
  {
  }

  /** Appends one column, one element per row. */
  function AppendColumn<T>(m: seq<seq<T>>, column: seq<T>): (r: seq<seq<T>>)
    requires |column| == |m|
  {
    seq(|m|, c requires 0 <= c < |m| => m[c] + [column[c]])
  }

  /** Fills a matrix with `cols` columns column by column from `flat`, the
      way numpy's reshape with order='F' does: each successive block of
      Rows words becomes the next column. */
  function Reshape<T>(flat: seq<T>, cols: nat): (m: seq<seq<T>>)
    requires |flat| == Rows * cols
    ensures IsMatrix(m, cols)
    ensures forall c, s :: 0 <= c < Rows && 0 <= s < cols ==> m[c][s] == flat[FlatIndex(c, s)]
    decreases cols
  {
    if cols == 0 then seq(Rows, _ => [])
    else
      var n := Rows * (cols - 1);
      AppendColumn(Reshape(flat[..n], cols - 1), flat[n..])
  }

  /** Flattens a matrix with `cols` columns in column-major order, as
      numpy's ravel with order='F' does: column 0 first, top to bottom. */
  function Interleave<T>(m: seq<seq<T>>, cols: nat): (flat: seq<T>)
    requires IsMatrix(m, cols)
    ensures |flat| == Rows * cols
    ensures forall c, s :: 0 <= c < Rows && 0 <= s < cols ==> flat[FlatIndex(c, s)] == m[c][s]
    decreases cols
  {
    if cols == 0 then []
    else
      var front := seq(Rows, c requires 0 <= c < Rows => m[c][..cols - 1]);
      var last := seq(Rows, c requires 0 <= c < Rows => m[c][cols - 1]);
      Interleave(front, cols - 1) + last
  }

  /** Reshaping a flattened matrix gives the matrix back. */
  lemma ReshapeInterleave<T>(m: seq<seq<T>>, cols: nat)
    requires IsMatrix(m, cols)
    ensures Reshape(Interleave(m, cols), cols) == m
  {
    var r := Reshape(Interleave(m, cols), cols);
    forall c | 0 <= c < Rows
      ensures r[c] == m[c]
    {
    }
  }

  /** Flattening a reshaped sequence gives the sequence back, so no word is
      lost or duplicated by the reshape. */
  lemma InterleaveReshape<T>(flat: seq<T>, cols: nat)
    requires |flat| == Rows * cols
    ensures Interleave(Reshape(flat, cols), cols) == flat
  {
    var f := Interleave(Reshape(flat, cols), cols);
    forall k | 0 <= k < |flat|
      ensures f[k] == flat[k]
    {
      FlatIndexBijection(cols, k);
    }
  }

  /** Word k of the input lands in cell (k mod Rows, k div Rows). */
  lemma ReshapeCellOf<T>(flat: seq<T>, cols: nat, k: nat)
    requires |flat| == Rows * cols && k < |flat|
    ensures k % Rows < Rows && k / Rows < cols
    ensures Reshape(flat, cols)[k % Rows][k / Rows] == flat[k]
  {
  }

  /** The number of cells of a matrix, summed row by row. */
  function CellCount<T>(m: seq<seq<T>>): (n: nat) {
    if m == [] then 0 else |m[0]| + CellCount(m[1..])
  }

  lemma {:induction false} CellCountUniform<T>(m: seq<seq<T>>, cols: nat)
    requires forall c :: 0 <= c < |m| ==> |m[c]| == cols
    ensures CellCount(m) == |m| * cols
  {
    if m != [] {
      CellCountUniform(m[1..], cols);
    }
  }

  /** The reshaped matrix has exactly as many cells as the input has words. */
  lemma ReshapeCellCount<T>(flat: seq<T>, cols: nat)
    requires |flat| == Rows * cols
    ensures CellCount(Reshape(flat, cols)) == |flat|
  {
    CellCountUniform(Reshape(flat, cols), cols);
  }
}

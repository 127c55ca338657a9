/** Row-major layout: how a rows-by-cols matrix is laid out in one flat buffer,
    with element (row, col) at offset row * cols + col. */
module Layout {

  /** The flat offset of element (row, col) in a matrix with `cols` columns. */
  function Offset(row: nat, col: nat, cols: nat): nat
  {
    row * cols + col
  }

  /** Multiplication by a natural number is monotone. */
  lemma MulMonotone(a: nat, b: nat, c: nat)
    requires a <= b
    ensures a * c <= b * c
  {
  }

  /** Every valid index pair lands inside the buffer. */
  lemma OffsetBound(row: nat, col: nat, rows: nat, cols: nat)
    requires row < rows && col < cols
    ensures Offset(row, col, cols) < rows * cols
  {
    MulMonotone(row + 1, rows, cols);
  }

  /** Distinct valid index pairs land on distinct offsets (and equal pairs on equal ones). */
  lemma OffsetInjective(r1: nat, c1: nat, r2: nat, c2: nat, cols: nat)
    requires c1 < cols && c2 < cols
    ensures Offset(r1, c1, cols) == Offset(r2, c2, cols) <==> r1 == r2 && c1 == c2
  {
    if r1 < r2 {
      MulMonotone(r1 + 1, r2, cols);
    } else if r2 < r1 {
      MulMonotone(r2 + 1, r1, cols);
    }
  }

  /** Every offset of the buffer is the offset of some valid index pair:
      together with OffsetBound and OffsetInjective, row-major addressing is a
      bijection between index pairs and buffer positions. */
  lemma OffsetOnto(k: nat, rows: nat, cols: nat)
    requires k < rows * cols
    ensures cols > 0 && k / cols < rows && k % cols < cols
    ensures Offset(k / cols, k % cols, cols) == k
  {
  }

  /** The matrix a row-major buffer stands for: `rows` rows of `cols` elements each. */
  function ToGrid<T>(flat: seq<T>, rows: nat, cols: nat): (g: seq<seq<T>>)
    requires |flat| == rows * cols
    ensures |g| == rows
    ensures forall i | 0 <= i < rows :: |g[i]| == cols
    ensures forall i, j | 0 <= i < rows && 0 <= j < cols ::
              Offset(i, j, cols) < |flat| && g[i][j] == flat[Offset(i, j, cols)]
    decreases rows
  {
    if rows == 0 then []
    else
      MulMonotone(1, rows, cols);
      var rest := ToGrid(flat[cols..], rows - 1, cols);
      PrependRow(flat, rows, cols, rest);
      [flat[..cols]] + rest
  }

  /** The step of ToGrid: the first `cols` elements of the buffer in front of
      the grid of the remaining rows form the grid of the whole buffer. */
  lemma PrependRow<T>(flat: seq<T>, rows: nat, cols: nat, rest: seq<seq<T>>)
    requires 0 < rows && |flat| == rows * cols && cols <= |flat|
    requires |rest| == rows - 1
    requires forall i | 0 <= i < rows - 1 :: |rest[i]| == cols
    requires forall i, j | 0 <= i < rows - 1 && 0 <= j < cols ::
               Offset(i, j, cols) < |flat| - cols && rest[i][j] == flat[cols..][Offset(i, j, cols)]
    ensures forall i, j | 0 <= i < rows && 0 <= j < cols ::
              Offset(i, j, cols) < |flat| && ([flat[..cols]] + rest)[i][j] == flat[Offset(i, j, cols)]
  {
  }

  /** The rows of a grid, concatenated in order. */
  function Flatten<T>(g: seq<seq<T>>): seq<T>
  {
    if g == [] then [] else g[0] + Flatten(g[1..])
  }

  /** Reading a buffer as a grid loses nothing: concatenating the rows gives the buffer back. */
  lemma {:induction false} FlattenToGrid<T>(flat: seq<T>, rows: nat, cols: nat)
    requires |flat| == rows * cols
    ensures Flatten(ToGrid(flat, rows, cols)) == flat
    decreases rows
  {
    if rows > 0 {
      MulMonotone(1, rows, cols);
      assert (rows - 1) * cols == rows * cols - cols;
      var tail := flat[cols..];
      var rest := ToGrid(tail, rows - 1, cols);
      FlattenToGrid(tail, rows - 1, cols);
      assert ToGrid(flat, rows, cols) == [flat[..cols]] + rest;
      assert ([flat[..cols]] + rest)[1..] == rest;
      assert flat == flat[..cols] + tail;
    }
  }

  /** A rectangular grid of `rows` rows of `cols` elements flattens to `rows * cols` elements. */
  lemma {:induction false} FlattenLength<T>(g: seq<seq<T>>, rows: nat, cols: nat)
    requires |g| == rows
    requires forall i | 0 <= i < rows :: |g[i]| == cols
    ensures |Flatten(g)| == rows * cols
    decreases rows
  {
    if rows > 0 {
      FlattenLength(g[1..], rows - 1, cols);
      assert |Flatten(g)| == cols + (rows - 1) * cols;
    }
  }

  /** Every rectangular grid is the reading of a row-major buffer, its row concatenation. */
  lemma {:induction false} ToGridFlatten<T>(g: seq<seq<T>>, rows: nat, cols: nat)
    requires |g| == rows
    requires forall i | 0 <= i < rows :: |g[i]| == cols
    ensures |Flatten(g)| == rows * cols && ToGrid(Flatten(g), rows, cols) == g
    decreases rows
  {
    FlattenLength(g, rows, cols);
    if rows > 0 {
      var tail := g[1..];
      FlattenLength(tail, rows - 1, cols);
      ToGridFlatten(tail, rows - 1, cols);
      var f := Flatten(g);
      assert f == g[0] + Flatten(tail);
      assert f[..cols] == g[0];
      assert f[cols..] == Flatten(tail);
      assert ToGrid(f, rows, cols) == [g[0]] + ToGrid(Flatten(tail), rows - 1, cols);
      assert g == [g[0]] + tail;
    }
  }

  /** Distinct buffers of the same shape read as distinct grids, so with
      ToGridFlatten the reading is a bijection between buffers and grids. */
  lemma ToGridInjective<T>(f1: seq<T>, f2: seq<T>, rows: nat, cols: nat)
    requires |f1| == rows * cols && |f2| == rows * cols
    ensures ToGrid(f1, rows, cols) == ToGrid(f2, rows, cols) <==> f1 == f2
  {
    FlattenToGrid(f1, rows, cols);
    FlattenToGrid(f2, rows, cols);
  }

  /** Overwriting the buffer at the offset of (row, col) changes exactly that
      element of the grid and nothing else. */
  lemma GridUpdate<T>(flat: seq<T>, rows: nat, cols: nat, row: nat, col: nat, v: T)
    requires |flat| == rows * cols && row < rows && col < cols
    ensures Offset(row, col, cols) < |flat| &&
            ToGrid(flat[Offset(row, col, cols) := v], rows, cols)
              == ToGrid(flat, rows, cols)[row := ToGrid(flat, rows, cols)[row][col := v]]
  {
    OffsetBound(row, col, rows, cols);
    var k := Offset(row, col, cols);
    var g := ToGrid(flat, rows, cols);
    var g' := ToGrid(flat[k := v], rows, cols);
    var h := g[row := g[row][col := v]];
    forall i | 0 <= i < rows
      ensures g'[i] == h[i]
    {
      forall j | 0 <= j < cols
        ensures g'[i][j] == h[i][j]
      {
        OffsetInjective(i, j, row, col, cols);
      }
    }
  }
}

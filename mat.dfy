/** The dense row-major matrix container `CorcoAlgebra::Mat<T>`. */
module CorcoAlgebra {
  import opened MatErrors
  import opened Layout

  /** `std::fill` over a whole buffer: every element becomes `v`. */
  method Fill<T>(a: array<T>, v: T)
    modifies a
    ensures forall k | 0 <= k < a.Length :: a[k] == v
  {
    var k := 0;
    while k < a.Length
      invariant 0 <= k <= a.Length
      invariant forall i | 0 <= i < k :: a[i] == v
    {
      a[k] := v;
      k := k + 1;
    }
  }

  /** A rows-by-cols matrix owning a buffer of rows * cols elements, element
      (row, col) stored at offset row * cols + col. `T(0)` because the buffer
      is default-initialised on allocation, as `new T[]` requires. */
  class Mat<T(0)> {
    var data: array<T>
    var numRows: nat
    var numCols: nat
    var size: nat

    /** The class invariant: positive dimensions, size their product, and a
        buffer of exactly that many elements. */
    ghost predicate Valid()
      reads this
    {
      numRows > 0 && numCols > 0 && size == numRows * numCols && data.Length == size
    }

    /** The matrix the buffer stands for, row by row. */
    ghost function Grid(): seq<seq<T>>
      reads this, data
      requires Valid()
    {
      ToGrid(data[..], numRows, numCols)
    }

    /** `Mat(Rows, Columns)` once its dimensions have been accepted (see
        NewMat): the buffer's contents are whatever allocation gives them. */
    constructor (rows: nat, cols: nat)
      requires rows > 0 && cols > 0
      ensures Valid() && fresh(data)
      ensures numRows == rows && numCols == cols && size == rows * cols
    {
      numRows, numCols, size := rows, cols, rows * cols;
      data := new T[rows * cols];
    }

    /** `Mat(Rows, Columns, DefaultValue)` once its dimensions have been
        accepted (see NewMatFilled): every element equals `value`. */
    constructor Filled(rows: nat, cols: nat, value: T)
      requires rows > 0 && cols > 0
      ensures Valid() && fresh(data)
      ensures numRows == rows && numCols == cols && size == rows * cols
      ensures forall i, j | 0 <= i < rows && 0 <= j < cols :: At(i, j) == Ok(value)
    {
      numRows, numCols, size := rows, cols, rows * cols;
      data := new T[rows * cols];
      new;
      Fill(data, value);
    }

    /** `rows()`: the number of rows of the matrix, never zero. */
    function Rows(): (r: nat)
      reads this, data
      requires Valid()
      ensures r > 0 && r == |Grid()|
    {
      numRows
    }

    /** `cols()`: the length of every row of the matrix, never zero. */
    function Cols(): (r: nat)
      reads this, data
      requires Valid()
      ensures r > 0
      ensures forall i | 0 <= i < |Grid()| :: |Grid()[i]| == r
    {
      numCols
    }

    /** `size()`: the number of elements, which is rows times columns and
        the length of the buffer. */
    function Size(): (r: nat)
      reads this, data
      requires Valid()
      ensures r == Rows() * Cols() && r == data.Length
    {
      size
    }

    /** The const overload of `at(Row, Column)`: the element at (row, col), or
        an out-of-range error for the row, which is checked first, and
        otherwise for the column. */
    function At(row: nat, col: nat): (r: Result<T>)
      reads this, data
      requires Valid()
      ensures r.Ok? <==> row < numRows && col < numCols
      ensures row >= numRows ==> r == Err(OutOfRange(RowIndexMessage))
      ensures row < numRows && col >= numCols ==> r == Err(OutOfRange(ColumnIndexMessage))
      ensures r.Ok? ==> row < |Grid()| && col < |Grid()[row]| && r.value == Grid()[row][col]
    {
      if row >= numRows then Err(OutOfRange(RowIndexMessage))
      else if col >= numCols then Err(OutOfRange(ColumnIndexMessage))
      else
        OffsetBound(row, col, numRows, numCols);
        Ok(data[Offset(row, col, numCols)])
    }

    /** The mutable overload of `at(Row, Column)`, read through the reference
        it returns: it performs the same checks and reads the same element as
        the const overload. */
    method Get(row: nat, col: nat) returns (r: Result<T>)
      requires Valid()
      ensures r == At(row, col)
    {
      if row >= numRows {
        return Err(OutOfRange(RowIndexMessage));
      } else if col >= numCols {
        return Err(OutOfRange(ColumnIndexMessage));
      }
      OffsetBound(row, col, numRows, numCols);
      r := Ok(data[Offset(row, col, numCols)]);
    }

    /** The mutable overload of `at(Row, Column)`, written through the
        reference it returns: on valid indices exactly element (row, col)
        becomes `v`; on invalid ones nothing changes. */
    method Set(row: nat, col: nat, v: T) returns (r: Outcome)
      requires Valid()
      modifies data
      ensures Valid()
      ensures numRows == old(numRows) && numCols == old(numCols) && size == old(size)
      ensures r.Pass? <==> row < numRows && col < numCols
      ensures row >= numRows ==> r == Fail(OutOfRange(RowIndexMessage))
      ensures row < numRows && col >= numCols ==> r == Fail(OutOfRange(ColumnIndexMessage))
      ensures r.Fail? ==> data[..] == old(data[..])
      ensures r.Pass? ==> Offset(row, col, numCols) < data.Length &&
                          data[..] == old(data[..])[Offset(row, col, numCols) := v]
      ensures r.Pass? ==> Grid() == old(Grid())[row := old(Grid())[row][col := v]]
      ensures r.Pass? ==> At(row, col) == Ok(v)
      ensures forall i, j | 0 <= i < numRows && 0 <= j < numCols && !(i == row && j == col) ::
                At(i, j) == old(At(i, j))
    {
      if row >= numRows {
        return Fail(OutOfRange(RowIndexMessage));
      } else if col >= numCols {
        return Fail(OutOfRange(ColumnIndexMessage));
      }
      OffsetBound(row, col, numRows, numCols);
      var k := Offset(row, col, numCols);
      GridUpdate(data[..], numRows, numCols, row, col, v);
      data[k] := v;
      assert data[..] == old(data[..])[k := v];
      r := Pass;
    }
  }

  /** `Mat(Rows, Columns)`: rejects a zero dimension with invalid_argument,
      and otherwise yields a fresh valid matrix of that shape. */
  method NewMat<T(0)>(rows: nat, cols: nat) returns (r: Result<Mat<T>>)
    ensures r.Err? <==> rows == 0 || cols == 0
    ensures r.Err? ==> r.error == InvalidArgument(DimensionsMessage)
    ensures r.Ok? ==> fresh(r.value) && fresh(r.value.data) && r.value.Valid()
    ensures r.Ok? ==> r.value.Rows() == rows && r.value.Cols() == cols && r.value.Size() == rows * cols
  {
    if rows == 0 || cols == 0 {
      return Err(InvalidArgument(DimensionsMessage));
    }
    var m := new Mat<T>(rows, cols);
    r := Ok(m);
  }

  /** `Mat(Rows, Columns, DefaultValue)`: the same validation, then every
      element of the new matrix equals `value`. */
  method NewMatFilled<T(0)>(rows: nat, cols: nat, value: T) returns (r: Result<Mat<T>>)
    ensures r.Err? <==> rows == 0 || cols == 0
    ensures r.Err? ==> r.error == InvalidArgument(DimensionsMessage)
    ensures r.Ok? ==> fresh(r.value) && fresh(r.value.data) && r.value.Valid()
    ensures r.Ok? ==> r.value.Rows() == rows && r.value.Cols() == cols && r.value.Size() == rows * cols
    ensures r.Ok? ==> forall i, j | 0 <= i < rows && 0 <= j < cols :: r.value.At(i, j) == Ok(value)
  {
    if rows == 0 || cols == 0 {
      return Err(InvalidArgument(DimensionsMessage));
    }
    var m := new Mat<T>.Filled(rows, cols, value);
    r := Ok(m);
  }

  /** 32-bit element types of the `imat` and `uimat` aliases. */
  newtype Int32 = x: int | -0x8000_0000 <= x < 0x8000_0000
  newtype UInt32 = x: int | 0 <= x < 0x1_0000_0000

  type IMat = Mat<Int32>
  type UIMat = Mat<UInt32>
}

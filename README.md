# Corcovado `Mat<T>` in Dafny

This project models `CorcoAlgebra::Mat<T>`, the dense fixed-shape matrix of the
Corcovado repository (`include/corcovado.h`), and proves its contracts.

A `Mat<T>` owns one heap buffer of `rows * cols` elements and stores element
`(row, col)` at flat offset `row * cols + col` (row-major order). The model has
the following parts:

- `MatErrors` (`errors.dfy`): the two exception kinds the container throws,
  `InvalidArgument` and `OutOfRange`, each with the source's message text.
  It also holds `Result`/`Outcome`, which the model returns in place of a throw.
- `Layout` (`layout.dfy`): row-major addressing as pure functions and lemmas.
  `Offset` is the flat index. `ToGrid` reads a flat buffer as the matrix it
  stands for, a sequence of rows. `Flatten` is its inverse. The lemmas prove
  that addressing is a bijection between valid index pairs and buffer
  positions, and that one buffer write changes exactly one matrix element.
- `CorcoAlgebra` (`mat.dfy`): the class `Mat<T>`. Its fields are the buffer
  (`array<T>`) and the three dimension fields of the source. `Valid()` is the
  class invariant: `rows > 0`, `cols > 0`, `size == rows * cols` and the buffer
  holds exactly `size` elements. `Grid()` is the abstract value of the matrix.
  The source's two throwing constructors are split in two:
  - factory methods `NewMat` and `NewMatFilled` model the `invalid_argument`
    check;
  - the class constructors build the matrix once the dimensions are accepted.

  The `std::fill` of the fill constructor is the loop `Fill`. The const `at`
  is the function `At`. The mutable `at`, which returns a reference, is
  modelled as two methods: `Get` reads through that reference and `Set`
  writes through it. The `imat`/`uimat` aliases are `IMat`/`UIMat` over
  32-bit newtypes.
- `MatUsage` (`usage.dfy`): client methods. They derive, from the contracts
  alone, the expectations of the repository's constructor test
  (`test/ mat-constructors-test.cpp`) and the out-of-range access of a filled
  2-by-2 matrix.

`include/corcovado.h` declares only the two constructors, the destructor, the
three getters and the two `at` overloads. It has no nested-list constructor, no
copy or move operations, no iterators and no `+`/`-`, so none of these is
modelled.

## Model

| member | source | states |
|---|---|---|
| CorcoAlgebra.NewMat | include/corcovado.h:37-44 | fails with invalid_argument and the source's message exactly when rows or columns is zero, producing no matrix; otherwise yields a fresh valid matrix with rows(), cols() equal to the arguments and size() equal to their product |
| CorcoAlgebra.NewMatFilled | include/corcovado.h:47-50 | the same validation as NewMat; on success every at(i, j) with i < rows, j < cols returns the fill value |
| CorcoAlgebra.Mat.constructor | include/corcovado.h:37-44 | with accepted dimensions, sets the dimension fields, sets size to their product and allocates a fresh buffer of exactly that length, so the class invariant holds |
| CorcoAlgebra.Mat.Filled | include/corcovado.h:47-50 | as the plain constructor, and every valid at(i, j) is Ok(value) |
| CorcoAlgebra.Fill | include/corcovado.h:49 | after the fill every element of the buffer equals the given value |
| CorcoAlgebra.Mat.Rows | include/corcovado.h:59-62 | rows() is positive and equals the number of rows of the abstract matrix; being a function, it changes no state |
| CorcoAlgebra.Mat.Cols | include/corcovado.h:64-68 | cols() is positive and every row of the abstract matrix has that length |
| CorcoAlgebra.Mat.Size | include/corcovado.h:70-74 | size() equals rows() * cols() and the buffer length |
| CorcoAlgebra.Mat.At | include/corcovado.h:91-104 | const at: the row is checked first, so Row >= rows() gives the row out_of_range error whatever the column; otherwise Column >= cols() gives the column error; otherwise it returns element (Row, Column) of the abstract matrix; it succeeds exactly when both indices are in range; being a function, it changes no state |
| CorcoAlgebra.Mat.Get | include/corcovado.h:76-89 | reading through the mutable at gives exactly what the const at gives, the same errors included |
| CorcoAlgebra.Mat.Set | include/corcovado.h:76-89 | writing through the mutable at fails the same way as at on bad indices and changes nothing then; on good indices only buffer offset Row*cols+Column changes, only element (Row, Column) of the matrix changes, every other at(i, j) is as before, and the dimensions and invariant are kept |
| Layout.OffsetBound | include/corcovado.h:87-88 | for Row < rows and Column < cols the offset Row*cols+Column is below rows*cols, so the buffer access is in bounds |
| Layout.OffsetInjective | include/corcovado.h:102-103 | for columns below cols, two index pairs have the same offset if and only if they are the same pair |
| Layout.OffsetOnto | include/corcovado.h:87 | every buffer position k < rows*cols is the offset of the valid pair (k / cols, k % cols), so no element is out of reach of at |
| Layout.ToGrid | include/corcovado.h:87 | the matrix read from a buffer of rows*cols elements has rows rows of cols elements each, and element (i, j) is buffer element i*cols+j |
| Layout.FlattenToGrid | include/corcovado.h:102-103 | concatenating the rows of the matrix read from a buffer gives back the buffer |
| Layout.ToGridFlatten | include/corcovado.h:102-103 | every rectangular rows-by-cols matrix is the reading of its row concatenation, which has rows*cols elements |
| Layout.ToGridInjective | include/corcovado.h:102-103 | two buffers of rows*cols elements read as the same matrix if and only if they are equal, so each matrix has exactly one row-major buffer |
| Layout.GridUpdate | include/corcovado.h:87-88 | writing buffer offset row*cols+col changes exactly element (row, col) of the matrix read from the buffer |

## Left out

- CorcoAlgebra.Mat.constructor: says nothing about the buffer's contents. `new T[m_Size]` default-initialises them, which depends on the element type and is indeterminate for built-in `int`, so the contents are left unspecified.
- CorcoAlgebra.NewMat: says nothing about the contents, for the same reason.
- Throwing constructors: a Dafny constructor cannot fail. The dimension check is therefore in NewMat/NewMatFilled, and the class constructors require already-accepted dimensions.
- `std::size_t` wrap-around of `Rows*Columns` (include/corcovado.h:37): dimensions and size are unbounded naturals. The model does not reproduce a product that overflows and yields a buffer smaller than `rows*cols`.
- Exception mechanics: throws are returned as `Err`/`Fail` values carrying the exception kind and message; unwinding is not modelled.
- The mutable `at` returns a `T&` that a caller may keep and use later. The model covers one read (Get) or one write (Set) through it, not a reference stored beyond the call.
- The destructor, the `std::unique_ptr` ownership and the buffer release (include/corcovado.h:18, 30, 43, 53-56): the buffer is a fresh Dafny array that nothing else aliases.
- The `fmat` and `dmat` aliases (include/corcovado.h:109-110): floating point is not modelled. `imat` and `uimat` assume a 32-bit `int`.
- `include/corcovado.h` declares no nested-list constructor, no copy or move operations, no iterators and no `+`/`-` (its class declaration, include/corcovado.h:9-34, lists every member), so the model has none of them.

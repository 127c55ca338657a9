/** A client of the matrix container: the expectations of the container's
    constructor tests, and the out-of-range access of a filled 2-by-2
    matrix, derived from the contracts alone. */
module MatUsage {
  import opened MatErrors
  import opened CorcoAlgebra

  method ConstructorExpectations()
  {
    var plain := NewMat<Int32>(3, 2);
    assert plain.Ok?;
    assert plain.value.Rows() == 3 && plain.value.Cols() == 2 && plain.value.Size() == 6;

    var filled := NewMatFilled<Int32>(3, 6, 10);
    assert filled.Ok?;
    var m := filled.value;
    assert m.Rows() == 3 && m.Cols() == 6 && m.Size() == 18;
    var x := m.Get(2, 5);
    assert x == Ok(10);

    var empty := NewMat<UInt32>(0, 4);
    assert empty == Err(InvalidArgument(DimensionsMessage));
  }

  method AccessExpectations()
  {
    var r := NewMatFilled<Int32>(2, 2, 0);
    assert r.Ok?;
    var m := r.value;
    var bad := m.Get(5, 0);
    assert bad == Err(OutOfRange(RowIndexMessage));
    var both := m.Get(5, 7);
    assert both == Err(OutOfRange(RowIndexMessage));
    var badCol := m.Get(1, 2);
    assert badCol == Err(OutOfRange(ColumnIndexMessage));
  }

  method WriteExpectations()
  {
    var r := NewMatFilled<Int32>(2, 2, 0);
    assert r.Ok?;
    var m := r.value;
    var s := m.Set(1, 0, 7);
    assert s == Pass;
    var written := m.Get(1, 0);
    assert written == Ok(7);
    var other := m.Get(0, 1);
    assert other == Ok(0);
    var rejected := m.Set(0, 2, 9);
    assert rejected == Fail(OutOfRange(ColumnIndexMessage));
    var still := m.Get(1, 0);
    assert still == Ok(7);
  }
}

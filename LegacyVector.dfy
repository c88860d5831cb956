/** The older vector module (pyos/engine/vector.py): the same arithmetic as
    pyos/engine/tools/vector.py, except that every result is a plain
    `Vector` (a `Point` differs only in how it prints) and a bad operand
    raises `ValueError` instead of `TypeError`. Equality, `dot` and indexing
    are the same functions as in `Vectors`. */
module LegacyVectors {
  import opened Outcomes
  import opened Vectors

  /** The legacy form of an outcome of the newer module. */
  function Legacy(r: Result<Vec>): (l: Result<Vec>)
    ensures l.Ok? <==> r.Ok?
    ensures l.Ok? ==> l.value == Vec(VectorKind, r.value.x, r.value.y)
    ensures l.Err? ==> l.error == (if r.error == TypeError then ValueError else r.error)
  {
    match r
    case Ok(v) => Ok(Vec(VectorKind, v.x, v.y))
    case Err(e) => Err(if e == TypeError then ValueError else e)
  }

  /** `a + o` */
  function Add(a: Vec, o: Operand): (r: Result<Vec>)
    ensures r.Err? <==> o.OtherArg?
    ensures r.Err? ==> r.error == ValueError
    ensures r.Ok? ==> r.value.kind == VectorKind
  {
    Legacy(Vectors.Add(a, o))
  }

  /** `a - o` */
  function Sub(a: Vec, o: Operand): (r: Result<Vec>)
    ensures r.Err? <==> o.OtherArg?
    ensures r.Err? ==> r.error == ValueError
    ensures r.Ok? ==> r.value.kind == VectorKind
  {
    Legacy(Vectors.Sub(a, o))
  }

  /** `a * o` */
  function Mul(a: Vec, o: Operand): (r: Result<Vec>)
    ensures r.Ok? <==> o.Num?
    ensures r.Err? ==> r.error == ValueError
    ensures r.Ok? ==> r.value == Vec(VectorKind, a.x * o.s, a.y * o.s)
  {
    Legacy(Vectors.Mul(a, o))
  }

  /** `o * a` with the vector on the right. */
  function RMul(o: Operand, a: Vec): (r: Result<Vec>)
    ensures r.Ok? <==> o.Num?
    ensures r.Err? ==> r.error == ValueError
    ensures r.Ok? ==> r.value == Vec(VectorKind, o.s * a.x, o.s * a.y)
  {
    Legacy(Vectors.RMul(o, a))
  }

  /** `a / o` */
  function TrueDiv(a: Vec, o: Operand): (r: Result<Vec>)
    ensures r.Ok? <==> o.Num? && o.s != 0.0
    ensures o.Num? && o.s == 0.0 ==> r == Err(ZeroDivisionError)
    ensures !o.Num? ==> r == Err(ValueError)
    ensures r.Ok? ==> r.value.kind == VectorKind && r.value.x * o.s == a.x && r.value.y * o.s == a.y
  {
    Legacy(Vectors.TrueDiv(a, o))
  }

  /** `a // o` */
  function FloorDiv(a: Vec, o: Operand): (r: Result<Vec>)
    ensures r.Ok? <==> o.Num? && o.s != 0.0
    ensures o.Num? && o.s == 0.0 ==> r == Err(ZeroDivisionError)
    ensures !o.Num? ==> r == Err(ValueError)
    ensures r.Ok? ==> r.value.kind == VectorKind
    ensures r.Ok? ==> r.value.x <= a.x / o.s < r.value.x + 1.0
    ensures r.Ok? ==> r.value.y <= a.y / o.s < r.value.y + 1.0
  {
    Legacy(Vectors.FloorDiv(a, o))
  }

  /** `a.asint()`: always a plain vector. */
  function AsInt(a: Vec): (r: Vec)
    ensures r.kind == VectorKind
    ensures r.x == Trunc(a.x) as real && r.y == Trunc(a.y) as real
  {
    Vec(VectorKind, Vectors.AsInt(a).x, Vectors.AsInt(a).y)
  }

  /** The two modules agree on every coordinate; only the result type and
      the exception raised for a bad operand differ. A point on the left
      makes a point in the newer module and a plain vector here. */
  lemma {:induction false} AgreesWithNewerModule(a: Vec, o: Operand)
    ensures Add(a, o).Ok? ==>
              Add(a, o).value.x == Vectors.Add(a, o).value.x && Add(a, o).value.y == Vectors.Add(a, o).value.y
    ensures Sub(a, o).Ok? ==>
              Sub(a, o).value.x == Vectors.Sub(a, o).value.x && Sub(a, o).value.y == Vectors.Sub(a, o).value.y
    ensures Mul(a, o).Ok? ==>
              Mul(a, o).value.x == Vectors.Mul(a, o).value.x && Mul(a, o).value.y == Vectors.Mul(a, o).value.y
    ensures RMul(o, a).Ok? ==>
              RMul(o, a).value.x == Vectors.RMul(o, a).value.x && RMul(o, a).value.y == Vectors.RMul(o, a).value.y
    ensures TrueDiv(a, o).Ok? ==>
              TrueDiv(a, o).value.x == Vectors.TrueDiv(a, o).value.x &&
              TrueDiv(a, o).value.y == Vectors.TrueDiv(a, o).value.y
    ensures FloorDiv(a, o).Ok? ==>
              FloorDiv(a, o).value.x == Vectors.FloorDiv(a, o).value.x &&
              FloorDiv(a, o).value.y == Vectors.FloorDiv(a, o).value.y
    ensures AsInt(a).x == Vectors.AsInt(a).x && AsInt(a).y == Vectors.AsInt(a).y
    ensures o.OtherArg? ==> Add(a, o) == Err(ValueError) && Vectors.Add(a, o) == Err(TypeError)
    ensures a.kind == PointKind && o.Num? ==>
              Vectors.Mul(a, o).value.kind == PointKind && Mul(a, o).value.kind == VectorKind
  {
  }

  /** Adding and then subtracting the same operand restores the coordinates
      as a plain vector. */
  lemma {:induction false} SubUndoesAdd(a: Vec, o: Operand)
    requires !o.OtherArg?
    ensures Add(a, o).Ok? && Sub(Add(a, o).value, o) == Ok(Vec(VectorKind, a.x, a.y))
  {
    Vectors.SubUndoesAdd(a, o);
  }
}

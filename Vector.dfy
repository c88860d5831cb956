/** Two dimensional vectors and points (pyos/engine/tools/vector.py).
    Arithmetic builds its result with the left operand's result type, so a
    `Point` on the left yields a `Point`. */
module Vectors {
  import opened Outcomes
  import Py

  /** The `__rtype__` a value builds its results with. */
  datatype Kind = VectorKind | PointKind

  /** The value of a `Vector` or `Point`: its result type and coordinates. */
  datatype Vec = Vec(kind: Kind, x: real, y: real)

  /** An operand of an arithmetic operator: an `int`/`float`, a `Vector`
      (or `Point`), or anything else. */
  datatype Operand = Num(s: real) | VecArg(v: Vec) | OtherArg

  /** `int(r)`: truncation toward zero. */
  function Trunc(r: real): (n: int)
    ensures r >= 0.0 ==> 0.0 <= n as real <= r < n as real + 1.0
    ensures r < 0.0 ==> n as real - 1.0 < r <= n as real <= 0.0
  {
    if r >= 0.0 then r.Floor else -((-r).Floor)
  }

  /** `a + o` */
  function Add(a: Vec, o: Operand): (r: Result<Vec>)
    ensures r.Err? <==> o.OtherArg?
    ensures r.Err? ==> r.error == TypeError
    ensures r.Ok? ==> r.value.kind == a.kind
    ensures o.Num? ==> r.value.x - a.x == o.s && r.value.y - a.y == o.s
    ensures o.VecArg? ==> r.value.x - a.x == o.v.x && r.value.y - a.y == o.v.y
  {
    match o
    case Num(s) => Ok(Vec(a.kind, a.x + s, a.y + s))
    case VecArg(w) => Ok(Vec(a.kind, a.x + w.x, a.y + w.y))
    case OtherArg => Err(TypeError)
  }

  /** `a - o` */
  function Sub(a: Vec, o: Operand): (r: Result<Vec>)
    ensures r.Err? <==> o.OtherArg?
    ensures r.Err? ==> r.error == TypeError
    ensures r.Ok? ==> r.value.kind == a.kind
    ensures o.Num? ==> a.x - r.value.x == o.s && a.y - r.value.y == o.s
    ensures o.VecArg? ==> a.x - r.value.x == o.v.x && a.y - r.value.y == o.v.y
  {
    match o
    case Num(s) => Ok(Vec(a.kind, a.x - s, a.y - s))
    case VecArg(w) => Ok(Vec(a.kind, a.x - w.x, a.y - w.y))
    case OtherArg => Err(TypeError)
  }

  /** `a * o`: only scaling by a number; vector by vector raises. */
  function Mul(a: Vec, o: Operand): (r: Result<Vec>)
    ensures r.Ok? <==> o.Num?
    ensures r.Err? ==> r.error == TypeError
    ensures r.Ok? ==> r.value == Vec(a.kind, a.x * o.s, a.y * o.s)
  {
    match o
    case Num(s) => Ok(Vec(a.kind, a.x * s, a.y * s))
    case _ => Err(TypeError)
  }

  /** `o * a` with the vector on the right: a number defers to `__rmul__`;
      a vector on the left raises in its own `__mul__`. */
  function RMul(o: Operand, a: Vec): (r: Result<Vec>)
    ensures r.Ok? <==> o.Num?
    ensures r.Err? ==> r.error == TypeError
    ensures r.Ok? ==> r.value == Vec(a.kind, o.s * a.x, o.s * a.y)
  {
    match o
    case Num(s) => Ok(Vec(a.kind, a.x * s, a.y * s))
    case _ => Err(TypeError)
  }

  /** `a / o` */
  function TrueDiv(a: Vec, o: Operand): (r: Result<Vec>)
    ensures r.Ok? <==> o.Num? && o.s != 0.0
    ensures o.Num? && o.s == 0.0 ==> r == Err(ZeroDivisionError)
    ensures !o.Num? ==> r == Err(TypeError)
    ensures r.Ok? ==> r.value.kind == a.kind && r.value.x * o.s == a.x && r.value.y * o.s == a.y
  {
    match o
    case Num(s) => if s == 0.0 then Err(ZeroDivisionError) else Ok(Vec(a.kind, a.x / s, a.y / s))
    case _ => Err(TypeError)
  }

  /** `a // o`: componentwise floor of the quotient. */
  function FloorDiv(a: Vec, o: Operand): (r: Result<Vec>)
    ensures r.Ok? <==> o.Num? && o.s != 0.0
    ensures o.Num? && o.s == 0.0 ==> r == Err(ZeroDivisionError)
    ensures !o.Num? ==> r == Err(TypeError)
    ensures r.Ok? ==> r.value.kind == a.kind
    ensures r.Ok? ==> r.value.x <= a.x / o.s < r.value.x + 1.0
    ensures r.Ok? ==> r.value.y <= a.y / o.s < r.value.y + 1.0
    ensures r.Ok? ==> r.value.x == r.value.x.Floor as real && r.value.y == r.value.y.Floor as real
  {
    match o
    case Num(s) =>
      if s == 0.0 then Err(ZeroDivisionError)
      else Ok(Vec(a.kind, (a.x / s).Floor as real, (a.y / s).Floor as real))
    case _ => Err(TypeError)
  }

  /** `a == o`: exact coordinate equality with another vector of either
      result type; never equal to a non-vector. */
  predicate Equal(a: Vec, o: Operand)
  {
    match o
    case VecArg(w) => a.x == w.x && a.y == w.y
    case _ => false
  }

  /** `a.dot(o)`: `None` for a non-vector. */
  function Dot(a: Vec, o: Operand): (r: Option<real>)
    ensures r.Some? <==> o.VecArg?
    ensures r.Some? ==> r.value == a.x * o.v.x + a.y * o.v.y
  {
    match o
    case VecArg(w) => Some(a.x * w.x + a.y * w.y)
    case _ => None
  }

  /** `a.asint()`: coordinates truncated toward zero, same result type. */
  function AsInt(a: Vec): (r: Vec)
    ensures r.kind == a.kind
    ensures r.x == Trunc(a.x) as real && r.y == Trunc(a.y) as real
  {
    Vec(a.kind, Trunc(a.x) as real, Trunc(a.y) as real)
  }

  /** `a[key]`: `0`/`'x'` and `1`/`'y'` (by Python equality, so `False` and
      `0.0` select x as well); any other key raises `IndexError`. */
  function Index(a: Vec, key: Py.Value): (r: Result<real>)
    ensures r.Err? ==> r.error == IndexError
    ensures (Py.EqualsInt(key, 0) || key == Py.Str("x")) ==> r == Ok(a.x)
    ensures (Py.EqualsInt(key, 1) || key == Py.Str("y")) ==> r == Ok(a.y)
    ensures r.Ok? ==> Py.EqualsInt(key, 0) || Py.EqualsInt(key, 1) || key == Py.Str("x") || key == Py.Str("y")
  {
    if Py.EqualsInt(key, 0) || key == Py.Str("x") then Ok(a.x)
    else if Py.EqualsInt(key, 1) || key == Py.Str("y") then Ok(a.y)
    else Err(IndexError)
  }

  /** Adding and then subtracting the same operand restores the vector. */
  lemma {:induction false} SubUndoesAdd(a: Vec, o: Operand)
    requires !o.OtherArg?
    ensures Add(a, o).Ok? && Sub(Add(a, o).value, o) == Ok(a)
  {
  }

  /** Equality ignores the result type: a point equals the vector with the
      same coordinates, and `==` is reflexive on vectors. */
  lemma {:induction false} EqualIgnoresKind(a: Vec, b: Vec)
    ensures Equal(a, VecArg(b)) <==> a.x == b.x && a.y == b.y
    ensures Equal(a, VecArg(a))
    ensures !Equal(a, Num(a.x))
  {
  }

  /** Multiplication by a number is the same from either side. */
  lemma {:induction false} ScalingCommutes(a: Vec, s: real)
    ensures Mul(a, Num(s)) == RMul(Num(s), a)
  {
  }

  /** The dot product is symmetric. */
  lemma {:induction false} DotSymmetric(a: Vec, b: Vec)
    ensures Dot(a, VecArg(b)) == Dot(b, VecArg(a))
  {
    var l, r := Dot(a, VecArg(b)), Dot(b, VecArg(a));
    assert l.value == a.x * b.x + a.y * b.y;
    assert r.value == b.x * a.x + b.y * a.y;
    assert a.x * b.x == b.x * a.x;
    assert a.y * b.y == b.y * a.y;
  }

  /** A vector's dot product with itself is never negative, and zero only
      for the zero vector (the case `normalize` rejects). */
  lemma {:induction false} DotSelf(a: Vec)
    ensures Dot(a, VecArg(a)).value >= 0.0
    ensures Dot(a, VecArg(a)).value == 0.0 <==> a.x == 0.0 && a.y == 0.0
  {
    if a.x != 0.0 {
      assert a.x * a.x > 0.0;
    }
    if a.y != 0.0 {
      assert a.y * a.y > 0.0;
    }
  }

  /** Truncation keeps the sign and drops less than one unit. */
  lemma {:induction false} AsIntMovesTowardZero(a: Vec)
    ensures var r := AsInt(a);
            (a.x >= 0.0 ==> 0.0 <= r.x <= a.x) && (a.x < 0.0 ==> a.x <= r.x <= 0.0) &&
            (a.y >= 0.0 ==> 0.0 <= r.y <= a.y) && (a.y < 0.0 ==> a.y <= r.y <= 0.0)
  {
  }

  /** A mutable vector: the coordinates behind the `x`/`y` properties and the
      cache behind `length`. The model caches the squared length `x*x + y*y`;
      taking its square root is not modelled. */
  class Vector {
    var x: real
    var y: real
    /** `__changed__`: the cached length is stale. */
    var changed: bool
    /** `__length__`, held squared. */
    var cache: real
    const kind: Kind
    /** The exception a setter raises for a non-number. */
    const badValue: Error

    /** A fresh cache matches the coordinates. */
    ghost predicate Valid()
      reads this
    {
      !changed ==> cache == x * x + y * y
    }

    function Value(): Vec
      reads this
    {
      Vec(kind, x, y)
    }

    /** `Vector(x, y)` or `Point(x, y)` of pyos/engine/tools/vector.py. */
    constructor (kind: Kind, x: real, y: real)
      ensures Valid() && Value() == Vec(kind, x, y) && changed
      ensures badValue == TypeError
    {
      this.x, this.y := x, y;
      this.kind := kind;
      changed := true;
      cache := 0.0;
      badValue := TypeError;
    }

    /** `Vector(x, y)` or `Point(x, y)` of the older pyos/engine/vector.py,
        whose results are always plain vectors and whose setters raise
        `ValueError`. */
    constructor Legacy(x: real, y: real)
      ensures Valid() && Value() == Vec(VectorKind, x, y) && changed
      ensures badValue == ValueError
    {
      this.x, this.y := x, y;
      kind := VectorKind;
      changed := true;
      cache := 0.0;
      badValue := ValueError;
    }

    /** The `x` setter: numbers only; marks the cached length stale. */
    method SetX(v: Py.Value) returns (s: Status)
      requires Valid()
      modifies this
      ensures Valid()
      ensures Py.IsNumber(v) ==> s == Done && x == Py.Num(v) && y == old(y) && changed
      ensures !Py.IsNumber(v) ==> s == Raised(badValue) && x == old(x) && y == old(y) && changed == old(changed)
      ensures cache == old(cache)
    {
      if Py.IsNumber(v) {
        x := Py.Num(v);
        changed := true;
        s := Done;
      } else {
        s := Raised(badValue);
      }
    }

    /** The `y` setter. */
    method SetY(v: Py.Value) returns (s: Status)
      requires Valid()
      modifies this
      ensures Valid()
      ensures Py.IsNumber(v) ==> s == Done && y == Py.Num(v) && x == old(x) && changed
      ensures !Py.IsNumber(v) ==> s == Raised(badValue) && x == old(x) && y == old(y) && changed == old(changed)
      ensures cache == old(cache)
    {
      if Py.IsNumber(v) {
        y := Py.Num(v);
        changed := true;
        s := Done;
      } else {
        s := Raised(badValue);
      }
    }

    /** The `length` property: recomputed only when stale, then fresh. */
    method SquaredLength() returns (l: real)
      requires Valid()
      modifies this`changed, this`cache
      ensures Valid() && !changed
      ensures l == x * x + y * y
      ensures !old(changed) ==> cache == old(cache)
    {
      if changed {
        cache := x * x + y * y;
        changed := false;
      }
      l := cache;
    }

    /** `normalize()`: raises `ValueError` for the zero vector; otherwise
        rescales in place (the new coordinates need a square root and are
        left unspecified), marks the cache stale and returns `True`. */
    method Normalize() returns (r: Result<bool>)
      requires Valid()
      modifies this
      ensures Valid()
      ensures old(x * x + y * y) == 0.0 ==> r == Err(ValueError) && x == old(x) && y == old(y) && !changed
      ensures old(x * x + y * y) != 0.0 ==> r == Ok(true) && changed
    {
      var l := SquaredLength();
      if l != 0.0 {
        changed := true;
        x := *;
        y := *;
        r := Ok(true);
      } else {
        r := Err(ValueError);
      }
    }

    /** `normalized()`: raises `ValueError` for the zero vector; otherwise a
        new plain vector (its coordinates are left unspecified) while this
        one keeps its coordinates and has a fresh cache. */
    method Normalized() returns (r: Result<Vec>)
      requires Valid()
      modifies this`changed, this`cache
      ensures Valid() && !changed
      ensures x * x + y * y == 0.0 ==> r == Err(ValueError)
      ensures x * x + y * y != 0.0 ==> r.Ok? && r.value.kind == VectorKind
    {
      var l := SquaredLength();
      if l != 0.0 {
        var nx: real := *;
        var ny: real := *;
        r := Ok(Vec(VectorKind, nx, ny));
      } else {
        r := Err(ValueError);
      }
    }
  }
}

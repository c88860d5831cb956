/** Axis aligned bounding boxes and the four comparison operators
    (`<`, `<=`, `>`, `>=`) that the quadtree uses as containment and
    overlap tests (pyos/engine/tools/aabb.py). */
module Aabb {
  import opened Outcomes
  import Py

  /** The 4-tuple an AABB is built from, kept exactly as passed: the corners
      are never reordered, so `x0 <= x1` is not guaranteed. */
  datatype Box = Box(x0: real, y0: real, x1: real, y1: real)

  /** The right-hand operand of a comparison: another AABB, a `Point`, a list
      or tuple (of numbers), or anything else. */
  datatype Operand =
    | BoxArg(box: Box)
    | PointArg(x: real, y: real)
    | SeqArg(elems: seq<real>)
    | OtherArg

  /** The four operators, in the order of the `test_type` codes 0..3. */
  datatype Test = Le | Lt | Gt | Ge

  /** A box whose first corner is its minimum corner. */
  predicate Normalized(b: Box) {
    b.x0 <= b.x1 && b.y0 <= b.y1
  }

  /** The point lies in the box, boundary included. */
  predicate Holds(b: Box, x: real, y: real) {
    b.x0 <= x <= b.x1 && b.y0 <= y <= b.y1
  }

  /** The point lies strictly inside the box. */
  predicate HoldsStrictly(b: Box, x: real, y: real) {
    b.x0 < x < b.x1 && b.y0 < y < b.y1
  }

  /** `t <= o` for boxes: `o` lies inside `t`, touching allowed. */
  predicate Encloses(t: Box, o: Box) {
    t.x0 <= o.x0 && t.y0 <= o.y0 && t.x1 >= o.x1 && t.y1 >= o.y1
  }

  /** `t < o` for boxes: `o` lies inside `t` without touching its border. */
  predicate EnclosesStrictly(t: Box, o: Box) {
    t.x0 < o.x0 && t.y0 < o.y0 && t.x1 > o.x1 && t.y1 > o.y1
  }

  /** The box against box test of `__test__`. The overlap tests (`>`, `>=`)
      only look at the other box's two stored corners, plus the case that
      `t` lies inside `o`. */
  predicate BoxTest(t: Box, o: Box, test: Test) {
    match test
    case Le => Encloses(t, o)
    case Lt => EnclosesStrictly(t, o)
    case Gt => HoldsStrictly(t, o.x0, o.y0) || HoldsStrictly(t, o.x1, o.y1) || EnclosesStrictly(o, t)
    case Ge => Holds(t, o.x0, o.y0) || Holds(t, o.x1, o.y1) || Encloses(o, t)
  }

  /** The box against point test: only `<` is strict. */
  predicate PointTest(t: Box, x: real, y: real, test: Test) {
    if test == Lt then HoldsStrictly(t, x, y) else Holds(t, x, y)
  }

  /** Operands `__test__` accepts without raising. */
  predicate Comparable(other: Operand) {
    other.BoxArg? || other.PointArg? || (other.SeqArg? && |other.elems| == 2)
  }

  /** `AABB.__test__(other, test_type)`. */
  function Compare(t: Box, other: Operand, test: Test): (r: Result<bool>)
    ensures r.Err? <==> !Comparable(other)
    ensures r.Err? ==> r.error == ValueError
    ensures other.BoxArg? ==> r == Ok(BoxTest(t, other.box, test))
    ensures other.PointArg? ==> r == Ok(PointTest(t, other.x, other.y, test))
    ensures other.SeqArg? && |other.elems| == 2 ==>
              r == Ok(PointTest(t, other.elems[0], other.elems[1], test))
  {
    match other
    case BoxArg(o) => Ok(BoxTest(t, o, test))
    case PointArg(x, y) => Ok(PointTest(t, x, y, test))
    case SeqArg(e) =>
      if |e| == 2 then Ok(PointTest(t, e[0], e[1], test)) else Err(ValueError)
    case OtherArg => Err(ValueError)
  }

  /** `t <= other` */
  function LessEqual(t: Box, other: Operand): (r: Result<bool>)
    ensures r.Ok? <==> Comparable(other)
    ensures other.BoxArg? ==> (r == Ok(true) <==> Encloses(t, other.box))
    ensures other.PointArg? ==> (r == Ok(true) <==> Holds(t, other.x, other.y))
  {
    Compare(t, other, Le)
  }

  /** `t < other` */
  function Less(t: Box, other: Operand): (r: Result<bool>)
    ensures r.Ok? <==> Comparable(other)
    ensures other.BoxArg? ==> (r == Ok(true) <==> EnclosesStrictly(t, other.box))
    ensures other.PointArg? ==> (r == Ok(true) <==> HoldsStrictly(t, other.x, other.y))
  {
    Compare(t, other, Lt)
  }

  /** `t > other` */
  function Greater(t: Box, other: Operand): (r: Result<bool>)
    ensures r.Ok? <==> Comparable(other)
    ensures other.BoxArg? ==>
              (r == Ok(true) <==>
                 HoldsStrictly(t, other.box.x0, other.box.y0) ||
                 HoldsStrictly(t, other.box.x1, other.box.y1) ||
                 EnclosesStrictly(other.box, t))
    ensures other.PointArg? ==> (r == Ok(true) <==> Holds(t, other.x, other.y))
  {
    Compare(t, other, Gt)
  }

  /** `t >= other` */
  function GreaterEqual(t: Box, other: Operand): (r: Result<bool>)
    ensures r.Ok? <==> Comparable(other)
    ensures other.BoxArg? ==>
              (r == Ok(true) <==>
                 Holds(t, other.box.x0, other.box.y0) ||
                 Holds(t, other.box.x1, other.box.y1) ||
                 Encloses(other.box, t))
    ensures other.PointArg? ==> (r == Ok(true) <==> Holds(t, other.x, other.y))
  {
    Compare(t, other, Ge)
  }

  /** `len(aabb)` */
  const Length: nat := 4

  /** `aabb[item]`: an `int` (or `bool`) in 0..3 selects a stored coordinate. */
  function Index(t: Box, item: Py.Value): (r: Result<real>)
    ensures r.Ok? <==> Py.IsInt(item) && 0 <= Py.IntOf(item) < Length
    ensures r.Err? ==> r.error == IndexError
    ensures r.Ok? && Py.IntOf(item) == 0 ==> r.value == t.x0
    ensures r.Ok? && Py.IntOf(item) == 1 ==> r.value == t.y0
    ensures r.Ok? && Py.IntOf(item) == 2 ==> r.value == t.x1
    ensures r.Ok? && Py.IntOf(item) == 3 ==> r.value == t.y1
  {
    if Py.IsInt(item) && -1 < Py.IntOf(item) < 4 then
      var i := Py.IntOf(item);
      Ok(if i == 0 then t.x0 else if i == 1 then t.y0 else if i == 2 then t.x1 else t.y1)
    else
      Err(IndexError)
  }

  /** For a normalized `o`, `t <= o` holds exactly when every point of `o`
      is a point of `t`. */
  lemma {:induction false} EnclosesIffPointwise(t: Box, o: Box)
    requires Normalized(o)
    ensures Encloses(t, o) <==> (forall x: real, y: real :: Holds(o, x, y) ==> Holds(t, x, y))
  {
    if forall x: real, y: real :: Holds(o, x, y) ==> Holds(t, x, y) {
      assert Holds(o, o.x0, o.y0);
      assert Holds(o, o.x1, o.y1);
    }
  }

  /** For a normalized `o`, `t < o` holds exactly when every point of `o`
      lies strictly inside `t`. */
  lemma {:induction false} EnclosesStrictlyIffPointwise(t: Box, o: Box)
    requires Normalized(o)
    ensures EnclosesStrictly(t, o) <==>
            (forall x: real, y: real :: Holds(o, x, y) ==> HoldsStrictly(t, x, y))
  {
    if forall x: real, y: real :: Holds(o, x, y) ==> HoldsStrictly(t, x, y) {
      assert Holds(o, o.x0, o.y0);
      assert Holds(o, o.x1, o.y1);
    }
  }

  /** Each strict test implies its inclusive partner, for every operand that
      does not raise; against boxes this needs the operand to be normalized. */
  lemma {:induction false} StrictImpliesInclusive(t: Box, other: Operand)
    requires other.BoxArg? ==> Normalized(other.box)
    ensures Less(t, other) == Ok(true) ==> LessEqual(t, other) == Ok(true)
    ensures Greater(t, other) == Ok(true) ==> GreaterEqual(t, other) == Ok(true)
    ensures Normalized(t) && Less(t, other) == Ok(true) ==> Greater(t, other) == Ok(true)
    ensures LessEqual(t, other) == Ok(true) ==> GreaterEqual(t, other) == Ok(true)
  {
  }

  /** For normalized boxes, `t >= o` implies that the two boxes share a point:
      the overlap test has no false positives. */
  lemma {:induction false} GreaterEqualSharesPoint(t: Box, o: Box)
    requires Normalized(t) && Normalized(o)
    requires BoxTest(t, o, Ge)
    ensures exists x: real, y: real :: Holds(t, x, y) && Holds(o, x, y)
  {
    if Holds(t, o.x0, o.y0) {
      assert Holds(o, o.x0, o.y0);
    } else if Holds(t, o.x1, o.y1) {
      assert Holds(o, o.x1, o.y1);
    } else {
      assert Holds(t, t.x0, t.y0) && Holds(o, t.x0, t.y0);
    }
  }

  /** It has false negatives: two boxes that cross like a plus sign share
      points, yet neither `>=` direction reports it. */
  lemma CrossingBoxesNotDetected()
    ensures var t, o := Box(0.0, 0.0, 3.0, 1.0), Box(1.0, -1.0, 2.0, 2.0);
            Holds(t, 1.5, 0.5) && Holds(o, 1.5, 0.5) &&
            !BoxTest(t, o, Ge) && !BoxTest(o, t, Ge)
  {
  }

  /** Because corners are stored as given, a box built from reversed corners
      holds no point at all, and therefore encloses no normalized box. */
  lemma {:induction false} ReversedBoxIsEmpty(t: Box, o: Box)
    requires t.x1 < t.x0
    requires Normalized(o)
    ensures forall x: real, y: real :: !Holds(t, x, y)
    ensures !Encloses(t, o)
  {
  }
}

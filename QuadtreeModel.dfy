/** The value-level meaning of the region quadtree of
    pyos/engine/tools/quadtree.py: a node as a datatype, and every operation
    of the `Quadtree` class as a function on nodes. The class in module
    `Quadtrees` is proved to follow these functions; the lemmas here state
    what the operations promise. */
module QuadtreeModel {
  import opened Outcomes
  import opened Aabb
  import Py
  import opened SeqFacts

  /** `Children` computes each midpoint as half the extent added to the low
      end. */
  function Mid(lo: real, hi: real): real {
    (hi - lo) / 2.0 + lo
  }

  /** The four child regions of `Children(box)`, in iteration order:
      0 = ul, 1 = ur, 2 = dl, 3 = dr. */
  function Quadrant(b: Box, i: nat): Box
    requires i < 4
  {
    var cx, cy := Mid(b.x0, b.x1), Mid(b.y0, b.y1);
    if i == 0 then Box(b.x0, b.y0, cx, cy)
    else if i == 1 then Box(cx, b.y0, b.x1, cy)
    else if i == 2 then Box(b.x0, cy, cx, b.y1)
    else Box(cx, cy, b.x1, b.y1)
  }

  /** The names `Children` accepts as keys besides the indices 0..3. */
  const Names: seq<string> := ["ul", "ur", "dl", "dr"]

  /** `Children(b)[item]`: an `int` (or `bool`) 0..3 or one of the four
      names; any other key raises `IndexError`. */
  function ChildAt(b: Box, item: Py.Value): (r: Result<Box>)
    ensures r.Ok? <==> (Py.IsInt(item) && 0 <= Py.IntOf(item) < 4) || (item.Str? && item.s in Names)
    ensures r.Err? ==> r.error == IndexError
    ensures forall k :: 0 <= k < 4 && ((Py.IsInt(item) && Py.IntOf(item) == k) || item == Py.Str(Names[k])) ==>
              r == Ok(Quadrant(b, k))
  {
    if Py.IsInt(item) || item.Str? then
      if (Py.IsInt(item) && Py.IntOf(item) == 0) || item == Py.Str("ul") then Ok(Quadrant(b, 0))
      else if (Py.IsInt(item) && Py.IntOf(item) == 1) || item == Py.Str("ur") then Ok(Quadrant(b, 1))
      else if (Py.IsInt(item) && Py.IntOf(item) == 2) || item == Py.Str("dl") then Ok(Quadrant(b, 2))
      else if (Py.IsInt(item) && Py.IntOf(item) == 3) || item == Py.Str("dr") then Ok(Quadrant(b, 3))
      else Err(IndexError)
    else Err(IndexError)
  }

  /** The quadrants of a normalized box are normalized and lie inside it. */
  lemma {:induction false} QuadrantsInside(b: Box, i: nat)
    requires Normalized(b) && i < 4
    ensures Normalized(Quadrant(b, i)) && Encloses(b, Quadrant(b, i))
  {
  }

  /** Together the quadrants cover the box: every point of it lies in one. */
  lemma {:induction false} QuadrantsCover(b: Box, x: real, y: real)
    requires Holds(b, x, y)
    ensures exists i :: 0 <= i < 4 && Holds(Quadrant(b, i), x, y)
  {
    var cx, cy := Mid(b.x0, b.x1), Mid(b.y0, b.y1);
    var i := if x <= cx then (if y <= cy then 0 else 2) else (if y <= cy then 1 else 3);
    assert Holds(Quadrant(b, i), x, y);
  }

  /** `box <= pos`, the region test of `add` and of `get_items` without
      overlap. A position that cannot be compared is never inside. */
  predicate Inside(b: Box, pos: Operand) {
    match pos
    case BoxArg(o) => Encloses(b, o)
    case PointArg(x, y) => Holds(b, x, y)
    case SeqArg(e) => |e| == 2 && Holds(b, e[0], e[1])
    case OtherArg => false
  }

  /** `box >= pos`, the region test of `get_items` with overlap. */
  predicate Overlaps(b: Box, pos: Operand) {
    match pos
    case BoxArg(o) => Holds(b, o.x0, o.y0) || Holds(b, o.x1, o.y1) || Encloses(o, b)
    case PointArg(x, y) => Holds(b, x, y)
    case SeqArg(e) => |e| == 2 && Holds(b, e[0], e[1])
    case OtherArg => false
  }

  /** The region test of `get_items(pos, overlap)`. */
  predicate Passes(b: Box, pos: Operand, overlap: bool) {
    if overlap then Overlaps(b, pos) else Inside(b, pos)
  }

  /** The two region tests are the AABB comparisons `<=` and `>=`. */
  lemma {:induction false} RegionTestsAreComparisons(b: Box, pos: Operand)
    ensures Inside(b, pos) <==> LessEqual(b, pos) == Ok(true)
    ensures Overlaps(b, pos) <==> GreaterEqual(b, pos) == Ok(true)
  {
  }

  /** One quadtree node: its region, its remaining nesting budget, the
      objects stored at this node, its child nodes (none or four) and the
      `child_objects` map from an object to the child it was sent to. */
  datatype Node<T> = Node(box: Box, maxLevel: nat, items: seq<T>, kids: seq<Node<T>>, childObjects: map<T, nat>)

  /** A freshly constructed `Quadtree(box, max_level)`. */
  function Leaf<T>(b: Box, level: nat): Node<T> {
    Node(b, level, [], [], map[])
  }

  /** The four children `__add_to_child__` creates on first need. */
  function Leaves<T>(b: Box, level: nat): (ks: seq<Node<T>>)
    ensures |ks| == 4
    ensures forall i :: 0 <= i < 4 ==> ks[i] == Leaf(Quadrant(b, i), level)
  {
    [Leaf(Quadrant(b, 0), level), Leaf(Quadrant(b, 1), level),
     Leaf(Quadrant(b, 2), level), Leaf(Quadrant(b, 3), level)]
  }

  /** The shape every reachable node has: no children or exactly four,
      children only when the budget allows them, child `i` covering
      quadrant `i` with one level less, and `child_objects` naming quadrants. */
  ghost predicate WF<T>(n: Node<T>)
    decreases n
  {
    (|n.kids| == 0 || (|n.kids| == 4 && n.maxLevel > 0)) &&
    (forall o :: o in n.childObjects ==> n.childObjects[o] < 4) &&
    (forall i :: 0 <= i < |n.kids| ==>
       n.kids[i].box == Quadrant(n.box, i) && n.kids[i].maxLevel == n.maxLevel - 1 && WF(n.kids[i]))
  }

  /** `item_count`: own items plus the children's counts. */
  function Count<T>(n: Node<T>): nat
    decreases n
  {
    |n.items| + CountAll(n.kids)
  }

  function CountAll<T>(ks: seq<Node<T>>): nat
    decreases ks
  {
    if ks == [] then 0 else CountAll(ks[..|ks| - 1]) + Count(ks[|ks| - 1])
  }

  /** Every stored object, in preorder: a node's items, then its children
      ul, ur, dl, dr. */
  function Items<T>(n: Node<T>): seq<T>
    decreases n
  {
    n.items + ItemsAll(n.kids)
  }

  function ItemsAll<T>(ks: seq<Node<T>>): seq<T>
    decreases ks
  {
    if ks == [] then [] else ItemsAll(ks[..|ks| - 1]) + Items(ks[|ks| - 1])
  }

  /** `get_items(pos, overlap)`: the items of every node that passes the
      region test, in preorder, with no test on the items themselves; a
      failing node hides its whole subtree. */
  function Query<T>(n: Node<T>, pos: Operand, overlap: bool): seq<T>
    decreases n
  {
    if Passes(n.box, pos, overlap) then n.items + QueryAll(n.kids, pos, overlap) else []
  }

  function QueryAll<T>(ks: seq<Node<T>>, pos: Operand, overlap: bool): seq<T>
    decreases ks
  {
    if ks == [] then [] else QueryAll(ks[..|ks| - 1], pos, overlap) + Query(ks[|ks| - 1], pos, overlap)
  }

  /** The loop of `add` over `Children`: the first quadrant from `i` on whose
      region holds `pos`, or 4 when there is none. */
  function FirstQuadrant(b: Box, pos: Operand, i: nat): (k: nat)
    requires i <= 4
    ensures i <= k <= 4
    ensures k < 4 ==> Inside(Quadrant(b, k), pos)
    ensures forall j :: i <= j < k ==> !Inside(Quadrant(b, j), pos)
    decreases 4 - i
  {
    if i == 4 then 4
    else if Inside(Quadrant(b, i), pos) then i
    else FirstQuadrant(b, pos, i + 1)
  }

  /** `add(obj, pos)`: the new node and the returned flag. */
  function Add<T(==)>(n: Node<T>, obj: T, pos: Operand): (r: (Node<T>, bool))
    requires WF(n)
    ensures r.0.box == n.box && r.0.maxLevel == n.maxLevel
    decreases n.maxLevel, 1
  {
    if !Inside(n.box, pos) then (n, false)
    else if n.maxLevel == 0 then (n.(items := n.items + [obj]), true)
    else
      var i := FirstQuadrant(n.box, pos, 0);
      if i == 4 then (n.(items := n.items + [obj]), true)
      else
        var (m, ok) := AddToChild(n, obj, pos, i);
        if ok then (m.(childObjects := m.childObjects[obj := i]), true) else (m, false)
  }

  /** The children a node has after `__add_to_child__` created them. */
  function Grown<T>(n: Node<T>): (ks: seq<Node<T>>)
    requires n.maxLevel > 0
  {
    if |n.kids| == 0 then Leaves(n.box, n.maxLevel - 1) else n.kids
  }

  /** `__add_to_child__(obj, pos, i)`: creates the four children when there
      are none, then adds to child `i`. */
  function AddToChild<T(==)>(n: Node<T>, obj: T, pos: Operand, i: nat): (r: (Node<T>, bool))
    requires WF(n) && n.maxLevel > 0 && i < 4
    ensures r.0.box == n.box && r.0.maxLevel == n.maxLevel && r.0.items == n.items
    ensures r.0.childObjects == n.childObjects
    decreases n.maxLevel, 0
  {
    var kids := Grown(n);
    var (k, ok) := Add(kids[i], obj, pos);
    (n.(kids := kids[i := k]), ok)
  }

  /** `items.index(obj)`: the first position holding `obj`. */
  function IndexOf<T(==)>(s: seq<T>, x: T): (k: nat)
    requires x in s
    ensures k < |s| && s[k] == x && x !in s[..k]
  {
    if s[0] == x then 0 else 1 + IndexOf(s[1..], x)
  }

  /** `items.pop(items.index(obj))` */
  function RemoveFirst<T(==)>(s: seq<T>, x: T): (t: seq<T>)
    requires x in s
    ensures multiset(s) == multiset(t) + multiset{x}
  {
    var k := IndexOf(s, x);
    assert s == s[..k] + [x] + s[k + 1..];
    s[..k] + s[k + 1..]
  }

  /** `__prune__`: a node whose children hold nothing drops them; otherwise
      every child is pruned in turn. */
  function Prune<T>(n: Node<T>): (m: Node<T>)
    ensures m.box == n.box && m.maxLevel == n.maxLevel && m.items == n.items
    ensures m.childObjects == n.childObjects
    decreases n, 1
  {
    if CountAll(n.kids) == 0 then n.(kids := []) else n.(kids := PruneAll(n.kids))
  }

  function PruneAll<T>(ks: seq<Node<T>>): (ms: seq<Node<T>>)
    ensures |ms| == |ks|
    ensures forall i :: 0 <= i < |ks| ==> ms[i] == Prune(ks[i])
    decreases ks, 0
  {
    seq(|ks|, i requires 0 <= i < |ks| => Prune(ks[i]))
  }

  /** `remove(obj)`: delete from this node's items, or else from the child
      recorded in `child_objects` followed by a prune. The recorded child may
      have been pruned away meanwhile, and the lookup then raises
      `IndexError`. */
  function Remove<T(==)>(n: Node<T>, obj: T): (r: Result<(Node<T>, bool)>)
    ensures r.Ok? ==> r.value.0.box == n.box && r.value.0.maxLevel == n.maxLevel
    ensures r.Ok? ==> r.value.0.childObjects == n.childObjects
    ensures r.Err? ==> r.error == IndexError
    decreases n
  {
    if obj in n.items then Ok((n.(items := RemoveFirst(n.items, obj)), true))
    else if obj in n.childObjects then
      var i := n.childObjects[obj];
      if i >= |n.kids| then Err(IndexError)
      else
        match Remove(n.kids[i], obj)
        case Err(e) => Err(e)
        case Ok((k, ok)) =>
          if ok then Ok((Prune(n.(kids := n.kids[i := k])), true))
          else Ok((n.(kids := n.kids[i := k]), false))
    else Ok((n, false))
  }

  /** What `quadtree[key]` accepts: a stored object, a 2-element tuple or
      list (two elements of any kind), a single position (an AABB, a `Point`,
      or a list or tuple of another length), or anything else. `hashable`
      tells whether Python can hash the key: lists, `Point`s and tuples
      holding them cannot, and the first dictionary lookup then raises. */
  datatype Key<T> =
    | Stored(obj: T)
    | Pair(first: Elem, second: Elem, hashable: bool)
    | Single(pos: Operand, hashable: bool)
    | OtherKey(hashable: bool)

  /** One element of a 2-element key. */
  datatype Elem = Number(r: real) | Flag(b: bool) | Place(pos: Operand) | Something

  /** `isinstance(e, (int, float))`: `bool` counts as `int`. */
  predicate IsNumeric(e: Elem) { e.Number? || e.Flag? }

  function NumericValue(e: Elem): real
    requires IsNumeric(e)
  {
    if e.Number? then e.r else if e.b then 1.0 else 0.0
  }

  /** `quadtree[key]` (`__getitem__`). A stored object is looked up along
      `child_objects` and answered with a one-element list; two numbers are a
      point query; a position and a `bool` are `get_items(pos, flag)`; a
      single position is a containment query. */
  function Lookup<T(==)>(n: Node<T>, key: Key<T>): (r: Result<seq<T>>)
    ensures r.Err? ==> r.error in {IndexError, ValueError, TypeError}
    ensures !key.Stored? && !key.hashable ==> r == Err(TypeError)
    ensures key.Stored? && r.Ok? ==> r.value == [key.obj]
    ensures key.OtherKey? && key.hashable ==> r == Err(IndexError)
    ensures key.Single? && key.hashable && Comparable(key.pos) ==> r == Ok(Query(n, key.pos, false))
    decreases n
  {
    match key
    case Stored(o) =>
      if o in n.childObjects then
        var i := n.childObjects[o];
        if i < |n.kids| then Lookup(n.kids[i], key) else Err(IndexError)
      else if o in n.items then Ok([o])
      else Err(IndexError)
    case Pair(a, b, hashable) =>
      if !hashable then Err(TypeError)
      else if IsNumeric(a) && IsNumeric(b) then
        Ok(Query(n, PointArg(NumericValue(a), NumericValue(b)), false))
      else if a.Place? && !a.pos.OtherArg? && b.Flag? then
        if Comparable(a.pos) then Ok(Query(n, a.pos, b.b)) else Err(ValueError)
      else Err(IndexError)
    case Single(pos, hashable) =>
      if !hashable then Err(TypeError)
      else if pos.OtherArg? then Err(IndexError)
      else if Comparable(pos) then Ok(Query(n, pos, false))
      else Err(ValueError)
    case OtherKey(hashable) => if hashable then Err(IndexError) else Err(TypeError)
  }

  /** One more child in the running sums of `item_count` and `get_items`. */
  lemma {:induction false} CountAllStep<T>(ks: seq<Node<T>>, k: nat)
    requires k < |ks|
    ensures CountAll(ks[..k + 1]) == CountAll(ks[..k]) + Count(ks[k])
  {
    assert ks[..k + 1][..k] == ks[..k];
  }

  lemma {:induction false} QueryAllStep<T>(front: seq<T>, ks: seq<Node<T>>, k: nat, pos: Operand, overlap: bool)
    requires k < |ks|
    ensures front + QueryAll(ks[..k + 1], pos, overlap) == (front + QueryAll(ks[..k], pos, overlap)) + Query(ks[k], pos, overlap)
  {
    assert ks[..k + 1][..k] == ks[..k];
  }

  // ---------------------------------------------------------------------
  // quadtree_from_pairs

  function Min3(a: real, b: real, c: real): real {
    if a <= b && a <= c then a else if b <= c then b else c
  }

  function Max3(a: real, b: real, c: real): real {
    if a >= b && a >= c then a else if b >= c then b else c
  }

  /** One step of the bounds loop: the running extremes widened by both
      corners of `b`. `None` stands for the starting values plus and minus
      infinity. */
  function Widen(acc: Option<Box>, b: Box): (r: Box)
    ensures r.x0 <= b.x0 && r.x0 <= b.x1 && r.y0 <= b.y0 && r.y0 <= b.y1
    ensures r.x1 >= b.x0 && r.x1 >= b.x1 && r.y1 >= b.y0 && r.y1 >= b.y1
    ensures acc.Some? ==> r.x0 <= acc.value.x0 && r.y0 <= acc.value.y0 && r.x1 >= acc.value.x1 && r.y1 >= acc.value.y1
  {
    match acc
    case None =>
      Box(Min3(b.x0, b.x1, b.x0), Min3(b.y0, b.y1, b.y0), Max3(b.x0, b.x1, b.x0), Max3(b.y0, b.y1, b.y0))
    case Some(a) =>
      Box(Min3(b.x0, b.x1, a.x0), Min3(b.y0, b.y1, a.y0), Max3(b.x0, b.x1, a.x1), Max3(b.y0, b.y1, a.y1))
  }

  /** The extremes over the first `k` pairs' boxes, `None` for no pairs. */
  function Bounds<T>(pairs: seq<(Box, T)>): Option<Box>
  {
    if pairs == [] then None else Some(Widen(Bounds(pairs[..|pairs| - 1]), pairs[|pairs| - 1].0))
  }

  /** The bounds enclose every pair's box and are normalized. */
  lemma {:induction false} BoundsEncloseAll<T>(pairs: seq<(Box, T)>)
    requires pairs != []
    ensures Normalized(Bounds(pairs).value)
    ensures forall k :: 0 <= k < |pairs| ==> Encloses(Bounds(pairs).value, pairs[k].0)
  {
    var last := |pairs| - 1;
    if last > 0 {
      BoundsEncloseAll(pairs[..last]);
      assert forall k :: 0 <= k < last ==> pairs[..last][k] == pairs[k];
    }
  }

  /** The area `quadtree_from_pairs` tests against zero. */
  function Area(b: Box): real {
    (b.x1 - b.x0) * (b.y1 - b.y0)
  }

  /** Adding every pair in order: `q.add(obj, aabb)` for each `(aabb, obj)`. */
  function AddAll<T(==)>(n: Node<T>, pairs: seq<(Box, T)>): (m: Node<T>)
    requires WF(n)
    ensures WF(m) && m.box == n.box && m.maxLevel == n.maxLevel
  {
    if pairs == [] then n
    else
      var prev := AddAll(n, pairs[..|pairs| - 1]);
      AddKeepsWF(prev, pairs[|pairs| - 1].1, BoxArg(pairs[|pairs| - 1].0));
      Add(prev, pairs[|pairs| - 1].1, BoxArg(pairs[|pairs| - 1].0)).0
  }

  /** `quadtree_from_pairs` as evidently intended: `None` for no pairs or a
      zero-area hull, otherwise a tree over the hull holding every pair. */
  function FromPairs<T(==)>(pairs: seq<(Box, T)>, maxLevel: nat): Option<Node<T>>
  {
    if pairs == [] then None
    else if Area(Bounds(pairs).value) == 0.0 then None
    else Some(AddAll(Leaf(Bounds(pairs).value, maxLevel), pairs))
  }

  /** `quadtree_from_pairs` as written: the first statement after the empty
      check unpacks the single float `inf` into two names, which raises
      `TypeError` for every non-empty list. */
  function FromPairsAsWritten<T>(pairs: seq<(Box, T)>): (r: Result<Option<Node<T>>>)
    ensures pairs == [] <==> r == Ok(None)
  {
    if pairs == [] then Ok(None) else Err(TypeError)
  }

  /** Every pair fits the hull, so the intended tree stores all of them. */
  lemma {:induction false} FromPairsStoresAll<T>(pairs: seq<(Box, T)>, maxLevel: nat)
    requires FromPairs(pairs, maxLevel).Some?
    ensures FromPairs(pairs, maxLevel).value.box == Bounds(pairs).value
    ensures Count(FromPairs(pairs, maxLevel).value) == |pairs|
  {
    var hull := Bounds(pairs).value;
    BoundsEncloseAll(pairs);
    AddAllCounts(Leaf(hull, maxLevel), pairs);
  }

  lemma {:induction false} AddAllCounts<T>(n: Node<T>, pairs: seq<(Box, T)>)
    requires WF(n)
    requires forall k :: 0 <= k < |pairs| ==> Encloses(n.box, pairs[k].0)
    ensures Count(AddAll(n, pairs)) == Count(n) + |pairs|
  {
    if pairs != [] {
      var last := |pairs| - 1;
      var prev := AddAll(n, pairs[..last]);
      assert forall k :: 0 <= k < last ==> pairs[..last][k] == pairs[k];
      AddAllCounts(n, pairs[..last]);
      AddRaisesCount(prev, pairs[last].1, BoxArg(pairs[last].0));
    }
  }

  /** The defect on the pairs of the repository's own test: the intended
      tree covers (-1.1, -1.1, 1.9, 1.9) and holds all four pairs, while the
      code as written raises. */
  lemma FromPairsOnTestData()
    ensures var pairs: seq<(Box, int)> := [(Box(0.0, 0.0, 1.0, 1.0), 0), (Box(0.1, 0.1, 1.9, 1.9), 1),
                          (Box(-1.1, -1.1, 0.0, 0.0), 2), (Box(-0.5, -0.5, 0.5, 0.5), 3)];
            FromPairsAsWritten(pairs) == Err(TypeError) &&
            FromPairs(pairs, 16).Some? &&
            FromPairs(pairs, 16).value.box == Box(-1.1, -1.1, 1.9, 1.9) &&
            Count(FromPairs(pairs, 16).value) == 4
  {
    var pairs: seq<(Box, int)> := [(Box(0.0, 0.0, 1.0, 1.0), 0), (Box(0.1, 0.1, 1.9, 1.9), 1),
                  (Box(-1.1, -1.1, 0.0, 0.0), 2), (Box(-0.5, -0.5, 0.5, 0.5), 3)];
    assert |pairs[..1][..0]| == 0;
    assert pairs[..2][..1] == pairs[..1];
    assert pairs[..3][..2] == pairs[..2];
    assert pairs[..4] == pairs;
    assert Bounds(pairs[..1]) == Some(Box(0.0, 0.0, 1.0, 1.0));
    assert Bounds(pairs[..2]) == Some(Box(0.0, 0.0, 1.9, 1.9));
    assert Bounds(pairs[..3]) == Some(Box(-1.1, -1.1, 1.9, 1.9));
    assert Bounds(pairs) == Some(Box(-1.1, -1.1, 1.9, 1.9));
    FromPairsStoresAll(pairs, 16);
  }

  // ---------------------------------------------------------------------
  // Counting and listing

  /** `item_count` is the number of stored objects. */
  lemma {:induction false} CountIsSize<T>(n: Node<T>)
    ensures Count(n) == |Items(n)|
    decreases n, 1
  {
    CountAllIsSize(n.kids);
  }

  lemma {:induction false} CountAllIsSize<T>(ks: seq<Node<T>>)
    ensures CountAll(ks) == |ItemsAll(ks)|
    decreases ks, 0
  {
    if ks != [] {
      CountAllIsSize(ks[..|ks| - 1]);
      CountIsSize(ks[|ks| - 1]);
    }
  }

  /** Listing two runs of children one after the other lists their objects
      one after the other. */
  lemma {:induction false} ItemsAllConcat<T>(a: seq<Node<T>>, b: seq<Node<T>>)
    ensures ItemsAll(a + b) == ItemsAll(a) + ItemsAll(b)
    decreases b
  {
    if b == [] {
      AppendEmpty(a);
    } else {
      var front, last := b[..|b| - 1], b[|b| - 1];
      FrontOfAppend(a, b);
      assert ItemsAll(a + b) == ItemsAll(a + front) + Items(last);
      assert ItemsAll(b) == ItemsAll(front) + Items(last);
      ItemsAllConcat(a, front);
      AppendAssoc(ItemsAll(a), ItemsAll(front), Items(last));
    }
  }

  /** One more child in the running list of objects. */
  lemma {:induction false} ItemsAllStep<T>(ks: seq<Node<T>>, k: nat)
    requires k < |ks|
    ensures ItemsAll(ks[..k + 1]) == ItemsAll(ks[..k]) + Items(ks[k])
  {
    TakeOfTake(ks, k);
  }

  /** The children's objects are those before child `i`, then child `i`'s,
      then those after it. */
  lemma ItemsAllAround<T>(ks: seq<Node<T>>, i: nat)
    requires i < |ks|
    ensures ItemsAll(ks) == ItemsAll(ks[..i]) + Items(ks[i]) + ItemsAll(ks[i + 1..])
  {
    ItemsAllConcat(ks[..i + 1], ks[i + 1..]);
    ItemsAllStep(ks, i);
    TakeDrop(ks, i + 1);
  }

  /** Giving one child one more object gives the children together that one
      more object. */
  lemma ItemsAllGrowOne<T>(ks: seq<Node<T>>, i: nat, k: Node<T>, x: T)
    requires i < |ks|
    requires multiset(Items(k)) == multiset(Items(ks[i])) + multiset{x}
    ensures multiset(ItemsAll(ks[i := k])) == multiset(ItemsAll(ks)) + multiset{x}
  {
    var us := ks[i := k];
    ItemsAllAround(ks, i);
    ItemsAllAround(us, i);
    assert us[..i] == ks[..i] && us[i + 1..] == ks[i + 1..] && us[i] == k;
  }

  /** Children that store nothing and have no children list nothing. */
  lemma {:induction false} ItemsAllOfEmpty<T>(ks: seq<Node<T>>)
    requires forall i :: 0 <= i < |ks| ==> ks[i].items == [] && ks[i].kids == []
    ensures ItemsAll(ks) == []
    decreases ks
  {
    if ks != [] {
      ItemsAllOfEmpty(ks[..|ks| - 1]);
      assert Items(ks[|ks| - 1]) == [];
    }
  }

  /** A query returns only stored objects, each at most as often as it is
      stored. */
  lemma {:induction false} QueryWithinItems<T>(n: Node<T>, pos: Operand, overlap: bool)
    ensures multiset(Query(n, pos, overlap)) <= multiset(Items(n))
    decreases n, 1
  {
    QueryAllWithinItems(n.kids, pos, overlap);
  }

  lemma {:induction false} QueryAllWithinItems<T>(ks: seq<Node<T>>, pos: Operand, overlap: bool)
    ensures multiset(QueryAll(ks, pos, overlap)) <= multiset(ItemsAll(ks))
    decreases ks, 0
  {
    if ks != [] {
      QueryAllWithinItems(ks[..|ks| - 1], pos, overlap);
      QueryWithinItems(ks[|ks| - 1], pos, overlap);
    }
  }

  /** No per-item filtering: when every node passes the region test, a query
      returns exactly the preorder listing of all objects. */
  lemma {:induction false} QueryOfEnclosingRegion<T>(n: Node<T>, pos: Operand, overlap: bool)
    requires AllPass(n, pos, overlap)
    ensures Query(n, pos, overlap) == Items(n)
    decreases n, 1
  {
    QueryAllOfEnclosingRegion(n.kids, pos, overlap);
  }

  lemma {:induction false} QueryAllOfEnclosingRegion<T>(ks: seq<Node<T>>, pos: Operand, overlap: bool)
    requires forall i :: 0 <= i < |ks| ==> AllPass(ks[i], pos, overlap)
    ensures QueryAll(ks, pos, overlap) == ItemsAll(ks)
    decreases ks, 0
  {
    if ks != [] {
      QueryAllOfEnclosingRegion(ks[..|ks| - 1], pos, overlap);
      QueryOfEnclosingRegion(ks[|ks| - 1], pos, overlap);
    }
  }

  /** Every node of the subtree passes the region test. */
  ghost predicate AllPass<T>(n: Node<T>, pos: Operand, overlap: bool)
    decreases n
  {
    Passes(n.box, pos, overlap) && forall i :: 0 <= i < |n.kids| ==> AllPass(n.kids[i], pos, overlap)
  }

  // ---------------------------------------------------------------------
  // add

  /** The children after growing are well formed, one level down. */
  lemma {:induction false} GrownWF<T>(n: Node<T>)
    requires WF(n) && n.maxLevel > 0
    ensures |Grown(n)| == 4
    ensures forall j :: 0 <= j < 4 ==>
      Grown(n)[j].box == Quadrant(n.box, j) && Grown(n)[j].maxLevel == n.maxLevel - 1 && WF(Grown(n)[j])
  {
  }

  /** A node with four well-formed children in their quadrants is well formed. */
  lemma {:induction false} WFWithKids<T>(n: Node<T>, ks: seq<Node<T>>)
    requires WF(n) && n.maxLevel > 0 && |ks| == 4
    requires forall j :: 0 <= j < 4 ==>
      ks[j].box == Quadrant(n.box, j) && ks[j].maxLevel == n.maxLevel - 1 && WF(ks[j])
    ensures WF(n.(kids := ks))
  {
  }

  /** `add` keeps the node well formed. */
  lemma {:induction false} AddKeepsWF<T>(n: Node<T>, obj: T, pos: Operand)
    requires WF(n)
    ensures WF(Add(n, obj, pos).0)
    decreases n.maxLevel, 1
  {
    if !Inside(n.box, pos) {
    } else if n.maxLevel == 0 {
      assert Add(n, obj, pos).0 == n.(items := n.items + [obj]);
    } else {
      var i := FirstQuadrant(n.box, pos, 0);
      if i == 4 {
        assert Add(n, obj, pos).0 == n.(items := n.items + [obj]);
      } else {
        var (m, ok) := AddToChild(n, obj, pos, i);
        AddToChildKeepsWF(n, obj, pos, i);
        if ok {
          assert Add(n, obj, pos).0 == m.(childObjects := m.childObjects[obj := i]);
          RecordKeepsWF(m, obj, i);
        }
      }
    }
  }

  /** Recording a quadrant in `child_objects` keeps a node well formed. */
  lemma {:induction false} RecordKeepsWF<T>(n: Node<T>, obj: T, i: nat)
    requires WF(n) && i < 4
    ensures WF(n.(childObjects := n.childObjects[obj := i]))
  {
  }

  lemma {:induction false} AddToChildKeepsWF<T>(n: Node<T>, obj: T, pos: Operand, i: nat)
    requires WF(n) && n.maxLevel > 0 && i < 4
    ensures WF(AddToChild(n, obj, pos, i).0)
    decreases n.maxLevel, 0
  {
    var kids := Grown(n);
    GrownWF(n);
    AddKeepsWF(kids[i], obj, pos);
    WFWithKids(n, kids[i := Add(kids[i], obj, pos).0]);
  }

  /** `add` succeeds exactly when the node's own region holds `pos`: once
      inside, the object always finds a place, since a child is chosen only
      when its region holds `pos` as well. */
  lemma {:induction false} AddAcceptsIffInside<T>(n: Node<T>, obj: T, pos: Operand)
    requires WF(n)
    ensures Add(n, obj, pos).1 <==> Inside(n.box, pos)
    decreases n.maxLevel
  {
    if Inside(n.box, pos) && n.maxLevel > 0 {
      var i := FirstQuadrant(n.box, pos, 0);
      if i < 4 {
        GrownWF(n);
        AddAcceptsIffInside(Grown(n)[i], obj, pos);
      }
    }
  }

  /** A successful `add` stores exactly one more copy of `obj` and keeps all
      other objects; a failed one changes nothing. */
  lemma {:induction false} AddStoresOnce<T>(n: Node<T>, obj: T, pos: Operand)
    requires WF(n)
    ensures Add(n, obj, pos).1 ==> multiset(Items(Add(n, obj, pos).0)) == multiset(Items(n)) + multiset{obj}
    ensures !Add(n, obj, pos).1 ==> Add(n, obj, pos).0 == n
    decreases n.maxLevel, 1
  {
    var m := Add(n, obj, pos).0;
    if !Inside(n.box, pos) {
    } else if n.maxLevel == 0 || FirstQuadrant(n.box, pos, 0) == 4 {
      assert m == n.(items := n.items + [obj]);
      assert Items(m) == n.items + [obj] + ItemsAll(n.kids);
    } else {
      var i := FirstQuadrant(n.box, pos, 0);
      AddToChildStoresOnce(n, obj, pos, i);
      var c := AddToChild(n, obj, pos, i).0;
      assert m == c.(childObjects := c.childObjects[obj := i]);
      assert Items(m) == Items(c);
    }
  }

  /** Each successful `add` raises `item_count` by one. */
  lemma {:induction false} AddRaisesCount<T>(n: Node<T>, obj: T, pos: Operand)
    requires WF(n) && Inside(n.box, pos)
    ensures Count(Add(n, obj, pos).0) == Count(n) + 1
  {
    var m := Add(n, obj, pos).0;
    AddAcceptsIffInside(n, obj, pos);
    AddStoresOnce(n, obj, pos);
    assert |multiset(Items(m))| == |multiset(Items(n))| + 1;
    CountIsSize(n);
    CountIsSize(m);
  }

  lemma {:induction false} AddToChildStoresOnce<T>(n: Node<T>, obj: T, pos: Operand, i: nat)
    requires WF(n) && n.maxLevel > 0 && i < 4 && Inside(Quadrant(n.box, i), pos)
    ensures AddToChild(n, obj, pos, i).1
    ensures multiset(Items(AddToChild(n, obj, pos, i).0)) == multiset(Items(n)) + multiset{obj}
    decreases n.maxLevel, 0
  {
    var kids := Grown(n);
    GrownWF(n);
    var k := Add(kids[i], obj, pos).0;
    assert AddToChild(n, obj, pos, i).0 == n.(kids := kids[i := k]);
    assert AddToChild(n, obj, pos, i).1 == Add(kids[i], obj, pos).1;
    assert multiset(ItemsAll(kids)) == multiset(ItemsAll(n.kids)) by {
      if |n.kids| == 0 {
        ItemsAllOfEmpty(kids);
      }
    }
    AddAcceptsIffInside(kids[i], obj, pos);
    AddStoresOnce(kids[i], obj, pos);
    NodeGrowsOne(n, kids, i, k, obj);
  }

  /** Giving a node new children, one of which holds one more object, gives
      the node one more object. */
  lemma {:induction false} NodeGrowsOne<T>(n: Node<T>, kids: seq<Node<T>>, i: nat, k: Node<T>, obj: T)
    requires i < |kids|
    requires multiset(ItemsAll(kids)) == multiset(ItemsAll(n.kids))
    requires multiset(Items(k)) == multiset(Items(kids[i])) + multiset{obj}
    ensures multiset(Items(n.(kids := kids[i := k]))) == multiset(Items(n)) + multiset{obj}
  {
    ItemsAllGrowOne(kids, i, k, obj);
  }

  /** An object added at `pos` is found again by the containment query for
      the same `pos`: every node on its way down holds `pos`. */
  lemma {:induction false} AddedIsFound<T>(n: Node<T>, obj: T, pos: Operand)
    requires WF(n) && Inside(n.box, pos)
    ensures obj in Query(Add(n, obj, pos).0, pos, false)
    decreases n.maxLevel
  {
    if n.maxLevel > 0 {
      var i := FirstQuadrant(n.box, pos, 0);
      if i < 4 {
        var kids := Grown(n);
        GrownWF(n);
        var k := Add(kids[i], obj, pos).0;
        assert obj in Query(k, pos, false) && Add(kids[i], obj, pos).1 by {
          AddedIsFound(kids[i], obj, pos);
          AddAcceptsIffInside(kids[i], obj, pos);
        }
        QueryAllHasChild(kids[i := k], i, obj, pos, false);
        var m := Add(n, obj, pos).0;
        assert AddToChild(n, obj, pos, i).0 == n.(kids := kids[i := k]);
        assert m.kids == kids[i := k] && m.box == n.box;
        assert Query(m, pos, false) == m.items + QueryAll(m.kids, pos, false);
      }
    }
  }

  lemma {:induction false} QueryAllHasChild<T>(ks: seq<Node<T>>, i: nat, x: T, pos: Operand, overlap: bool)
    requires i < |ks| && x in Query(ks[i], pos, overlap)
    ensures x in QueryAll(ks, pos, overlap)
    decreases ks
  {
    if i < |ks| - 1 {
      QueryAllHasChild(ks[..|ks| - 1], i, x, pos, overlap);
    }
  }

  // ---------------------------------------------------------------------
  // __prune__ and remove

  /** Pruning never loses an object: the preorder listing is unchanged. */
  lemma {:induction false} PruneKeepsItems<T>(n: Node<T>)
    ensures Items(Prune(n)) == Items(n)
    decreases n, 1
  {
    if CountAll(n.kids) == 0 {
      CountAllIsSize(n.kids);
    } else {
      PruneAllKeepsItems(n.kids);
    }
  }

  lemma {:induction false} PruneAllKeepsItems<T>(ks: seq<Node<T>>)
    ensures ItemsAll(PruneAll(ks)) == ItemsAll(ks)
    decreases ks, 0
  {
    if ks != [] {
      var last := |ks| - 1;
      assert PruneAll(ks)[..last] == PruneAll(ks[..last]);
      PruneAllKeepsItems(ks[..last]);
      PruneKeepsItems(ks[last]);
    }
  }

  /** Pruning keeps the node well formed. */
  lemma {:induction false} PruneKeepsWF<T>(n: Node<T>)
    requires WF(n)
    ensures WF(Prune(n))
    decreases n
  {
    if CountAll(n.kids) != 0 {
      forall i | 0 <= i < |n.kids|
        ensures WF(Prune(n.kids[i]))
      {
        PruneKeepsWF(n.kids[i]);
      }
    }
  }

  /** `remove` deletes exactly one copy of an object that it reports
      removed, and changes nothing when it reports failure. */
  lemma {:induction false} RemoveDeletesOnce<T>(n: Node<T>, obj: T)
    requires WF(n)
    ensures var r := Remove(n, obj);
            (r.Ok? && r.value.1 ==> multiset(Items(n)) == multiset(Items(r.value.0)) + multiset{obj}) &&
            (r.Ok? && !r.value.1 ==> r.value.0 == n)
    decreases n, 1
  {
    if obj in n.items {
      assert Remove(n, obj) == Ok((n.(items := RemoveFirst(n.items, obj)), true));
    } else if obj in n.childObjects && n.childObjects[obj] < |n.kids| {
      RemoveFromChildDeletesOnce(n, obj, n.childObjects[obj]);
    } else {
      assert Remove(n, obj) == Ok((n, false)) || Remove(n, obj) == Err(IndexError);
    }
  }

  lemma {:induction false} RemoveFromChildDeletesOnce<T>(n: Node<T>, obj: T, i: nat)
    requires WF(n) && obj !in n.items && obj in n.childObjects && n.childObjects[obj] == i < |n.kids|
    ensures var r := Remove(n, obj);
            (r.Ok? && r.value.1 ==> multiset(Items(n)) == multiset(Items(r.value.0)) + multiset{obj}) &&
            (r.Ok? && !r.value.1 ==> r.value.0 == n)
    decreases n, 0
  {
    var c := Remove(n.kids[i], obj);
    if c.Ok? {
      var k := c.value.0;
      if c.value.1 {
        assert Remove(n, obj) == Ok((Prune(n.(kids := n.kids[i := k])), true));
        assert multiset(Items(n.kids[i])) == multiset(Items(k)) + multiset{obj} by {
          RemoveDeletesOnce(n.kids[i], obj);
        }
        assert multiset(ItemsAll(n.kids)) == multiset(ItemsAll(n.kids[i := k])) + multiset{obj} by {
          ItemsAllGrowOne(n.kids[i := k], i, n.kids[i], obj);
          UpdateBack(n.kids, i, k);
        }
        PruneKeepsItems(n.(kids := n.kids[i := k]));
      } else {
        assert Remove(n, obj) == Ok((n.(kids := n.kids[i := k]), false));
        assert k == n.kids[i] by {
          RemoveDeletesOnce(n.kids[i], obj);
        }
        UpdateBack(n.kids, i, k);
      }
    }
  }

  /** Hence a reported removal lowers `item_count` by one. */
  lemma {:induction false} RemoveLowersCount<T>(n: Node<T>, obj: T)
    requires WF(n)
    requires Remove(n, obj).Ok? && Remove(n, obj).value.1
    ensures obj in Items(n)
    ensures Count(Remove(n, obj).value.0) == Count(n) - 1
  {
    var m := Remove(n, obj).value.0;
    RemoveDeletesOnce(n, obj);
    assert obj in multiset(Items(n));
    assert |multiset(Items(n))| == |multiset(Items(m))| + 1;
    CountIsSize(n);
    CountIsSize(m);
  }

  /** `remove` keeps the node well formed. */
  lemma {:induction false} RemoveKeepsWF<T>(n: Node<T>, obj: T)
    requires WF(n)
    ensures Remove(n, obj).Ok? ==> WF(Remove(n, obj).value.0)
    decreases n
  {
    if obj !in n.items && obj in n.childObjects {
      var i := n.childObjects[obj];
      if i < |n.kids| {
        RemoveKeepsWF(n.kids[i], obj);
        var c := Remove(n.kids[i], obj);
        if c.Ok? {
          var m := n.(kids := n.kids[i := c.value.0]);
          assert WF(m);
          PruneKeepsWF(m);
        }
      }
    }
  }

  /** The tree of the scenario below once 7 is added at (0.25, 0.25): the
      four children exist and the first one holds 7. */
  function ScenarioAdded(): Node<int> {
    var b := Box(0.0, 0.0, 1.0, 1.0);
    Node(b, 1, [], Leaves<int>(b, 0)[0 := Node(Quadrant(b, 0), 0, [7], [], map[])], map[7 := 0])
  }

  /** The same tree after the removal and the prune that follows it. */
  function ScenarioPruned(): Node<int> {
    Node(Box(0.0, 0.0, 1.0, 1.0), 1, [], [], map[7 := 0])
  }

  lemma ScenarioAdd()
    ensures Add(Leaf<int>(Box(0.0, 0.0, 1.0, 1.0), 1), 7, PointArg(0.25, 0.25)) == (ScenarioAdded(), true)
  {
    var root := Leaf<int>(Box(0.0, 0.0, 1.0, 1.0), 1);
    var pos := PointArg(0.25, 0.25);
    assert Inside(Quadrant(root.box, 0), pos);
    assert FirstQuadrant(root.box, pos, 0) == 0;
    var kids := Grown(root);
    assert kids[0] == Leaf(Quadrant(root.box, 0), 0);
    var k := Add(kids[0], 7, pos);
    assert k.1;
    assert k.0.items == [7];
    assert k.0.kids == [];
    assert k.0.childObjects == map[];
    assert k.0.box == Quadrant(root.box, 0) && k.0.maxLevel == 0;
  }

  lemma ScenarioRemove()
    ensures Remove(ScenarioAdded(), 7) == Ok((ScenarioPruned(), true))
  {
    var added := ScenarioAdded();
    var k := added.kids[0];
    assert Remove(k, 7) == Ok((k.(items := []), true));
    var ks := added.kids[0 := k.(items := [])];
    assert forall j :: 0 <= j < |ks| ==> ks[j].items == [] && ks[j].kids == [];
    ItemsAllOfEmpty(ks);
    CountAllIsSize(ks);
    assert Prune(added.(kids := ks)) == ScenarioPruned();
  }

  /** `remove` does not forget the child it sent an object to: after a
      removal empties the children and the prune drops them, removing the
      same object again raises `IndexError` instead of returning `False`. */
  lemma RemoveAfterPruneRaises()
    ensures var root := Leaf<int>(Box(0.0, 0.0, 1.0, 1.0), 1);
            var added := Add(root, 7, PointArg(0.25, 0.25));
            added.1 &&
            Remove(added.0, 7).Ok? && Remove(added.0, 7).value.1 &&
            Remove(Remove(added.0, 7).value.0, 7) == Err(IndexError)
  {
    ScenarioAdd();
    ScenarioRemove();
  }
}

/** The `Quadtree` class of pyos/engine/tools/quadtree.py as an object graph:
    each node owns its list of items, its (zero or four) child nodes and its
    `child_objects` dictionary, and every method updates them in place. Each
    method is proved to follow the function of the same name in module
    `QuadtreeModel`, applied to the node's abstract value `Tree()`. */
module Quadtrees {
  import opened Outcomes
  import opened Aabb
  import opened QuadtreeModel

  class Quadtree<T(==)> {
    const box: Box
    const maxLevel: nat
    var items: seq<T>
    var childNodes: seq<Quadtree<T>>
    var childObjects: map<T, nat>
    /** The children's subtrees as values. */
    ghost var Kids: seq<Node<T>>
    ghost var Repr: set<object>

    /** The subtree rooted here as a value. */
    ghost function Tree(): (n: Node<T>)
      reads this`items, this`Kids, this`childObjects
    {
      Node(box, maxLevel, items, Kids, childObjects)
    }

    /** `child_objects` names quadrants, and the children are linked. */
    ghost predicate Valid()
      reads this, Repr
      decreases Repr, 2
    {
      this in Repr &&
      (forall o :: o in childObjects ==> childObjects[o] < 4) &&
      Linked()
    }

    /** The node has no children or four, each a valid subtree that covers
        its quadrant with one level less, whose value is the matching entry
        of `Kids`, and whose footprint lies inside this node's footprint and
        apart from its siblings'. Reads none of `items`, `childObjects`. */
    ghost predicate Linked()
      reads this`childNodes, this`Kids, this`Repr, Repr - {this}
      decreases Repr, 1
    {
      this in Repr && |Kids| == |childNodes| &&
      (|childNodes| == 0 || (|childNodes| == 4 && maxLevel > 0)) &&
      (forall i :: 0 <= i < |childNodes| ==> Owns(i) && childNodes[i].Valid()) &&
      (forall i, j :: 0 <= i < j < |childNodes| ==> childNodes[i].Repr !! childNodes[j].Repr)
    }

    /** Child `i` lies inside this node's footprint, covers quadrant `i`
        with one level less, and its value is `Kids[i]`. */
    ghost predicate Owns(i: nat)
      requires i < |childNodes| <= 4 && |Kids| == |childNodes|
      reads this`childNodes, this`Kids, this`Repr, Repr - {this}
    {
      childNodes[i] in Repr && childNodes[i] != this &&
      childNodes[i].Repr <= Repr && this !in childNodes[i].Repr &&
      childNodes[i].box == Quadrant(box, i) && childNodes[i].maxLevel == maxLevel - 1 &&
      childNodes[i].Tree() == Kids[i]
    }

    /** What `Valid()` says about child `k`, for a `k` not known to be a
        particular quadrant. */
    lemma ChildIsValid(k: nat)
      requires Valid() && k < |childNodes|
      ensures |childNodes| == 4 && |Kids| == 4 && Owns(k) && childNodes[k].Valid()
    {
    }

    /** `Valid()` spelled out child by child, for quantifier instantiation
        on `childNodes[j]`. */
    lemma Children()
      requires Valid()
      ensures |Kids| == |childNodes|
      ensures forall j :: 0 <= j < |childNodes| ==>
        childNodes[j] in Repr && childNodes[j] != this && this !in childNodes[j].Repr &&
        childNodes[j].Repr <= Repr && childNodes[j].Valid() && childNodes[j].Tree() == Kids[j]
      ensures forall i, j :: 0 <= i < |childNodes| && 0 <= j < |childNodes| && i != j ==>
        childNodes[i].Repr !! childNodes[j].Repr
    {
      forall j | 0 <= j < |childNodes|
        ensures childNodes[j] in Repr && childNodes[j] != this && this !in childNodes[j].Repr &&
          childNodes[j].Repr <= Repr && childNodes[j].Valid() && childNodes[j].Tree() == Kids[j]
      {
        ChildIsValid(j);
      }
    }

    /** A node none of whose footprint changed keeps its validity and value. */
    static twostate lemma Untouched(c: Quadtree<T>)
      requires old(c.Valid()) && unchanged(old(c.Repr))
      ensures c.Valid() && c.Repr == old(c.Repr) && c.Tree() == old(c.Tree())
    {
    }

    /** `Quadtree(box, max_level)`: a node with no items and no children. */
    constructor (box: Box, maxLevel: nat)
      ensures Valid() && fresh(Repr)
      ensures this.box == box && this.maxLevel == maxLevel
      ensures Tree() == Leaf(box, maxLevel)
    {
      this.box := box;
      this.maxLevel := maxLevel;
      items := [];
      childNodes := [];
      childObjects := map[];
      Kids := [];
      Repr := {this};
    }

    /** `item_count`: the number of objects in the subtree. */
    method ItemCount() returns (count: nat)
      requires Valid()
      ensures count == Count(Tree())
      decreases maxLevel
    {
      count := |items|;
      for k := 0 to |childNodes|
        invariant count == |items| + CountAll(Kids[..k])
      {
        ChildIsValid(k);
        var c := childNodes[k].ItemCount();
        CountAllStep(Kids, k);
        count := count + c;
      }
      assert Kids[..|childNodes|] == Kids;
    }

    /** `get_items(pos, overlap)`: the objects of every node passing the
        region test. The comparison raises `ValueError` for a position that
        is neither a box nor a point. */
    method GetItems(pos: Operand, overlap: bool) returns (r: Result<seq<T>>)
      requires Valid()
      ensures !Comparable(pos) ==> r == Err(ValueError)
      ensures Comparable(pos) ==> r == Ok(Query(Tree(), pos, overlap))
      decreases maxLevel, 1
    {
      var test := if overlap then GreaterEqual(box, pos) else LessEqual(box, pos);
      RegionTestsAreComparisons(box, pos);
      if test.Err? {
        return Err(test.error);
      }
      if !test.value {
        return Ok([]);
      }
      var found := Collect(pos, overlap);
      return Ok(found);
    }

    /** The body both branches of `get_items` share: a copy of this node's
        items followed by each child's answer. */
    method Collect(pos: Operand, overlap: bool) returns (found: seq<T>)
      requires Valid() && Comparable(pos)
      ensures found == items + QueryAll(Kids, pos, overlap)
      decreases maxLevel, 0
    {
      found := items;
      for k := 0 to |childNodes|
        invariant found == items + QueryAll(Kids[..k], pos, overlap)
      {
        ChildIsValid(k);
        var c := childNodes[k].GetItems(pos, overlap);
        QueryAllStep(items, Kids, k, pos, overlap);
        found := found + c.value;
      }
      assert Kids[..|childNodes|] == Kids;
    }

    /** `add(obj, pos)`: the object goes to the first quadrant that holds
        `pos`, and stays here when there is none or no level is left. */
    method Add(obj: T, pos: Operand) returns (r: Result<bool>)
      requires Valid() && WF(Tree())
      modifies Repr
      ensures Valid() && fresh(Repr - old(Repr))
      ensures !Comparable(pos) ==> r == Err(ValueError) && Tree() == old(Tree())
      ensures Comparable(pos) ==>
        r == Ok(QuadtreeModel.Add(old(Tree()), obj, pos).1) &&
        Tree() == QuadtreeModel.Add(old(Tree()), obj, pos).0
      decreases maxLevel, 4
    {
      var test := LessEqual(box, pos);
      RegionTestsAreComparisons(box, pos);
      if test.Err? {
        return Err(test.error);
      }
      if !test.value {
        return Ok(false);
      }
      var res := Place(obj, pos);
      return Ok(res);
    }

    /** The body of `add` once `pos` lies in this node's region. */
    method Place(obj: T, pos: Operand) returns (res: bool)
      requires Valid() && WF(Tree()) && Comparable(pos) && Inside(box, pos)
      modifies Repr
      ensures Valid() && fresh(Repr - old(Repr))
      ensures Tree() == QuadtreeModel.Add(old(Tree()), obj, pos).0
      ensures res == QuadtreeModel.Add(old(Tree()), obj, pos).1
      decreases maxLevel, 3
    {
      var i := 4;
      if maxLevel > 0 {
        i := FirstFit(pos);
      }
      if i == 4 {
        Append(obj);
        return true;
      }
      res := PlaceInChild(obj, pos, i);
    }

    /** The branch of `add` that hands the object to child `i` and, when the
        child takes it, records `i` in `child_objects`. */
    method PlaceInChild(obj: T, pos: Operand, i: nat) returns (res: bool)
      requires Valid() && WF(Tree()) && maxLevel > 0 && i < 4 && Comparable(pos)
      modifies Repr
      ensures Valid() && fresh(Repr - old(Repr))
      ensures res == QuadtreeModel.AddToChild(old(Tree()), obj, pos, i).1
      ensures var m := QuadtreeModel.AddToChild(old(Tree()), obj, pos, i).0;
              Tree() == if res then m.(childObjects := m.childObjects[obj := i]) else m
      decreases maxLevel, 2
    {
      res := AddToChild(obj, pos, i);
      if res {
        Record(obj, i);
      }
    }

    /** `items.append(obj)` */
    method Append(obj: T)
      requires Valid()
      modifies this`items
      ensures Valid() && items == old(items) + [obj]
    {
      items := items + [obj];
    }

    /** `child_objects[obj] = i` */
    method Record(obj: T, i: nat)
      requires Valid() && i < 4
      modifies this`childObjects
      ensures Valid() && childObjects == old(childObjects)[obj := i]
    {
      childObjects := childObjects[obj := i];
    }

    /** The loop of `add` over `children`: the index of the first quadrant
        whose region holds `pos`, or 4 when there is none. */
    method FirstFit(pos: Operand) returns (i: nat)
      requires Comparable(pos)
      ensures i == FirstQuadrant(box, pos, 0)
    {
      i := 0;
      while i < 4
        invariant i <= 4 && FirstQuadrant(box, pos, i) == FirstQuadrant(box, pos, 0)
      {
        var fits := LessEqual(Quadrant(box, i), pos);
        RegionTestsAreComparisons(Quadrant(box, i), pos);
        if fits == Ok(true) {
          return;
        }
        i := i + 1;
      }
    }

    /** `__add_to_child__(obj, pos, i)`: creates the four children on first
        use, then adds to child `i`. */
    method AddToChild(obj: T, pos: Operand, i: nat) returns (res: bool)
      requires Valid() && WF(Tree()) && maxLevel > 0 && i < 4 && Comparable(pos)
      modifies Repr
      ensures Valid() && fresh(Repr - old(Repr))
      ensures Tree() == QuadtreeModel.AddToChild(old(Tree()), obj, pos, i).0
      ensures res == QuadtreeModel.AddToChild(old(Tree()), obj, pos, i).1
      decreases maxLevel, 1
    {
      GrownWF(Tree());
      if |childNodes| == 0 {
        CreateChildren();
        res := AddToGrownChild(obj, pos, i);
      } else {
        res := AddToGrownChild(obj, pos, i);
      }
    }

    /** The second half of `__add_to_child__`: `child_nodes[i].add(obj, pos)`
        once the four children exist. */
    method AddToGrownChild(obj: T, pos: Operand, i: nat) returns (res: bool)
      requires Valid() && |childNodes| == |Kids| == 4 && i < 4 && Comparable(pos)
      requires WF(Kids[i])
      modifies Repr
      ensures Valid() && fresh(Repr - old(Repr))
      ensures items == old(items) && childObjects == old(childObjects)
      ensures |Kids| == 4
      ensures Kids == old(Kids)[i := QuadtreeModel.Add(old(Kids)[i], obj, pos).0]
      ensures res == QuadtreeModel.Add(old(Kids)[i], obj, pos).1
      decreases maxLevel, 0
    {
      Children();
      var c := childNodes[i];
      var r := c.Add(obj, pos);
      res := r.value;
      Kids := Kids[i := c.Tree()];
      Repr := Repr + c.Repr;
      assert Owns(i) && c.Valid();
      forall j | 0 <= j < 4 && j != i
        ensures childNodes[j].Valid() && childNodes[j].Repr == old(childNodes[j].Repr)
        ensures childNodes[j].Tree() == Kids[j]
      {
        Untouched(childNodes[j]);
      }
    }

    /** The first half of `__add_to_child__`: one new leaf per quadrant. */
    method CreateChildren()
      requires Valid() && |childNodes| == 0 && maxLevel > 0
      modifies this`childNodes, this`Kids, this`Repr
      ensures Valid() && fresh(Repr - old(Repr))
      ensures items == old(items) && childObjects == old(childObjects)
      ensures Kids == Leaves(box, maxLevel - 1)
    {
      var created := NewLeaves();
      childNodes := created;
      Kids := Leaves(box, maxLevel - 1);
      Repr := Repr + created[0].Repr + created[1].Repr + created[2].Repr + created[3].Repr;
      forall i | 0 <= i < 4
        ensures Owns(i) && childNodes[i].Valid()
      {
        assert childNodes[i].Repr <= Repr;
      }
    }

    /** The loop of `__add_to_child__` over `children`: a fresh leaf with
        one level less for each quadrant, in order. */
    method NewLeaves() returns (created: seq<Quadtree<T>>)
      requires maxLevel > 0
      ensures |created| == 4
      ensures forall j :: 0 <= j < 4 ==>
        fresh(created[j].Repr) && created[j].Valid() &&
        created[j].box == Quadrant(box, j) && created[j].maxLevel == maxLevel - 1 &&
        created[j].Tree() == Leaf(Quadrant(box, j), maxLevel - 1)
      ensures forall j, l :: 0 <= j < l < 4 ==> created[j].Repr !! created[l].Repr
    {
      created := [];
      for k := 0 to 4
        invariant |created| == k
        invariant forall j :: 0 <= j < k ==>
          fresh(created[j].Repr) && created[j].Valid() &&
          created[j].box == Quadrant(box, j) && created[j].maxLevel == maxLevel - 1 &&
          created[j].Tree() == Leaf(Quadrant(box, j), maxLevel - 1)
        invariant forall j, l :: 0 <= j < l < k ==> created[j].Repr !! created[l].Repr
      {
        var q := new Quadtree(Quadrant(box, k), maxLevel - 1);
        created := created + [q];
      }
    }

    /** `__prune__`: drops the children when none of them holds anything,
        and otherwise prunes each in turn. */
    method Prune()
      requires Valid()
      modifies Repr
      ensures Valid() && Repr == old(Repr)
      ensures Tree() == QuadtreeModel.Prune(old(Tree()))
      decreases maxLevel, 1
    {
      var total := 0;
      for k := 0 to |childNodes|
        modifies {}
        invariant total == CountAll(Kids[..k])
      {
        ChildIsValid(k);
        var c := childNodes[k].ItemCount();
        CountAllStep(Kids, k);
        total := total + c;
      }
      assert Kids[..|childNodes|] == Kids;
      if total == 0 {
        childNodes := [];
        Kids := [];
        return;
      }
      assert |childNodes| == 4;
      ghost var kids := Kids;
      for k := 0 to 4
        invariant Valid() && Repr == old(Repr) && childNodes == old(childNodes)
        invariant items == old(items) && childObjects == old(childObjects)
        invariant |Kids| == 4
        invariant forall j :: 0 <= j < k ==> Kids[j] == QuadtreeModel.Prune(kids[j])
        invariant forall j :: k <= j < 4 ==> Kids[j] == kids[j]
      {
        PruneChild(k);
      }
      assert Kids == PruneAll(kids);
    }

    /** One turn of the loop in `__prune__`: prunes child `k` and leaves
        the others alone. */
    method PruneChild(k: nat)
      requires Valid() && k < |childNodes| && |Kids| == |childNodes|
      modifies Repr
      ensures Valid() && Repr == old(Repr) && childNodes == old(childNodes)
      ensures items == old(items) && childObjects == old(childObjects)
      ensures Kids == old(Kids)[k := QuadtreeModel.Prune(old(Kids)[k])]
      decreases maxLevel, 0
    {
      Children();
      childNodes[k].Prune();
      Kids := Kids[k := childNodes[k].Tree()];
      forall j | 0 <= j < |childNodes| && j != k
        ensures childNodes[j].Valid() && childNodes[j].Repr == old(childNodes[j].Repr)
        ensures childNodes[j].Tree() == Kids[j]
      {
        Untouched(childNodes[j]);
      }
    }

    /** `remove(obj)`: deletes the first occurrence from this node's items,
        or from the child recorded for it and then prunes. */
    method Remove(obj: T) returns (r: Result<bool>)
      requires Valid()
      modifies Repr
      ensures Valid() && Repr == old(Repr)
      ensures QuadtreeModel.Remove(old(Tree()), obj).Err? ==>
        r == Err(IndexError) && Tree() == old(Tree())
      ensures QuadtreeModel.Remove(old(Tree()), obj).Ok? ==>
        r == Ok(QuadtreeModel.Remove(old(Tree()), obj).value.1) &&
        Tree() == QuadtreeModel.Remove(old(Tree()), obj).value.0
      decreases maxLevel, 1
    {
      if obj in items {
        var k := IndexOf(items, obj);
        items := items[..k] + items[k + 1..];
        return Ok(true);
      }
      if obj in childObjects {
        var i := childObjects[obj];
        if i >= |childNodes| {
          return Err(IndexError);
        }
        ChildIsValid(i);
        var c := RemoveFromChild(obj, i);
        if c.Err? {
          return c;
        }
        if c.value {
          Prune();
          return Ok(true);
        }
        return Ok(false);
      }
      return Ok(false);
    }

    /** `child_nodes[i].remove(obj)` inside `remove`: the child's value is
        replaced by what removal leaves, or kept when the removal fails. */
    method RemoveFromChild(obj: T, i: nat) returns (c: Result<bool>)
      requires Valid() && i < |childNodes| == |Kids|
      modifies Repr
      ensures Valid() && Repr == old(Repr) && childNodes == old(childNodes)
      ensures items == old(items) && childObjects == old(childObjects)
      ensures QuadtreeModel.Remove(old(Kids)[i], obj).Err? ==>
        c == Err(IndexError) && Kids == old(Kids)
      ensures QuadtreeModel.Remove(old(Kids)[i], obj).Ok? ==>
        c == Ok(QuadtreeModel.Remove(old(Kids)[i], obj).value.1) &&
        Kids == old(Kids)[i := QuadtreeModel.Remove(old(Kids)[i], obj).value.0]
      decreases maxLevel, 0
    {
      Children();
      c := childNodes[i].Remove(obj);
      Kids := Kids[i := childNodes[i].Tree()];
      forall j | 0 <= j < |childNodes| && j != i
        ensures childNodes[j].Valid() && childNodes[j].Repr == old(childNodes[j].Repr)
        ensures childNodes[j].Tree() == Kids[j]
      {
        Untouched(childNodes[j]);
      }
    }

    /** `quadtree[key]` (`__getitem__`). */
    method Lookup(key: Key<T>) returns (r: Result<seq<T>>)
      requires Valid()
      ensures r == QuadtreeModel.Lookup(Tree(), key)
      decreases maxLevel
    {
      match key
      case Stored(o) =>
        if o in childObjects {
          var i := childObjects[o];
          if i < |childNodes| {
            r := childNodes[i].Lookup(key);
          } else {
            r := Err(IndexError);
          }
        } else if o in items {
          r := Ok([o]);
        } else {
          r := Err(IndexError);
        }
      case Pair(a, b, hashable) =>
        if !hashable {
          r := Err(TypeError);
        } else if IsNumeric(a) && IsNumeric(b) {
          r := GetItems(PointArg(NumericValue(a), NumericValue(b)), false);
        } else if a.Place? && !a.pos.OtherArg? && b.Flag? {
          r := GetItems(a.pos, b.b);
        } else {
          r := Err(IndexError);
        }
      case Single(pos, hashable) =>
        if !hashable {
          r := Err(TypeError);
        } else if pos.OtherArg? {
          r := Err(IndexError);
        } else {
          r := GetItems(pos, false);
        }
      case OtherKey(hashable) =>
        r := if hashable then Err(IndexError) else Err(TypeError);
    }
  }

  /** The first loop of `quadtree_from_pairs`: the running minimum of the
      left and top edges and maximum of the right and bottom edges. */
  method BoundsOf<T>(pairs: seq<(Box, T)>) returns (bounds: Option<Box>)
    ensures bounds == Bounds(pairs)
  {
    bounds := None;
    for k := 0 to |pairs|
      invariant bounds == Bounds(pairs[..k])
    {
      assert pairs[..k + 1][..k] == pairs[..k];
      bounds := Some(Widen(bounds, pairs[k].0));
    }
    assert pairs[..|pairs|] == pairs;
  }

  /** `quadtree_from_pairs(pairs, max_level)` as evidently intended: the
      running extremes over every box, `None` for no pairs or a zero area,
      otherwise a tree over those extremes holding every pair. */
  method FromPairs<T(==)>(pairs: seq<(Box, T)>, maxLevel: nat) returns (q: Option<Quadtree<T>>)
    ensures QuadtreeModel.FromPairs(pairs, maxLevel).None? <==> q.None?
    ensures q.Some? ==>
      fresh(q.value.Repr) && q.value.Valid() && WF(q.value.Tree()) &&
      q.value.Tree() == QuadtreeModel.FromPairs(pairs, maxLevel).value
  {
    if pairs == [] {
      return None;
    }
    var bounds := BoundsOf(pairs);
    if Area(bounds.value) == 0.0 {
      return None;
    }
    var tree := new Quadtree(bounds.value, maxLevel);
    BoundsEncloseAll(pairs);
    for k := 0 to |pairs|
      invariant tree.Valid() && WF(tree.Tree()) && fresh(tree.Repr)
      invariant tree.box == bounds.value && tree.maxLevel == maxLevel
      invariant tree.Tree() == AddAll(Leaf(bounds.value, maxLevel), pairs[..k])
    {
      assert pairs[..k + 1][..k] == pairs[..k];
      AddKeepsWF(tree.Tree(), pairs[k].1, BoxArg(pairs[k].0));
      var added := tree.Add(pairs[k].1, BoxArg(pairs[k].0));
    }
    assert pairs[..|pairs|] == pairs;
    return Some(tree);
  }
}

/** The scene graph's `NodePath` (pyos/engine/scene/nodepath.py). Node paths
    form a tree through `parent` and `children` references; each keeps its
    own angle, scale and depth, the accumulated (relative) ones, and a
    `dirty` flag that marks what `traverse` has to recompute. The node paths
    of a scene are numbered; `nodes` holds what structure changes and the
    setters write, `flags` what the `dirty` setter and `traverse` write. The
    shared `Quadtree` object is named by a handle. */
module NodePaths {
  import opened Outcomes
  import opened Py
  import opened SeqFacts

  /** A node path, by its number in the scene. */
  type Id = nat

  /** The `center` anchor: one of the three layout constants, or any other
      value. */
  datatype Anchor = Center | TopLeft | BottomRight | Unlisted

  /** A node path's own values and its place in the graph. `tree` is the
      handle of the quadtree it refers to. */
  datatype Node = Node(
    center: Anchor, visible: bool, angle: real, scale: real, depth: int,
    isRoot: bool, parent: Option<Id>, children: seq<Id>, tree: nat)

  /** The relative (accumulated from the root) angle, scale and depth. */
  datatype Rel = Rel(angle: real, scale: real, depth: int)

  /** What traversal recomputes. */
  datatype Flags = Flags(rel: Rel, dirty: bool)

  /** Every number in `s` names a node. */
  ghost predicate Within(ns: seq<Node>, s: seq<Id>) {
    forall k | 0 <= k < |s| :: s[k] < |ns|
  }

  /** Parents exist, and every node that is not a root has one. */
  ghost predicate ParentsOk(ns: seq<Node>) {
    forall i | 0 <= i < |ns| ::
      (ns[i].parent.Some? ==> ns[i].parent.value < |ns|) && (!ns[i].isRoot ==> ns[i].parent.Some?)
  }

  /** Children exist and are not roots. */
  ghost predicate KidsOk(ns: seq<Node>) {
    forall i, j | 0 <= i < |ns| && 0 <= j < |ns[i].children| ::
      ns[i].children[j] < |ns| && !ns[ns[i].children[j]].isRoot
  }

  ghost predicate WF(ns: seq<Node>) {
    ParentsOk(ns) && KidsOk(ns)
  }

  /** Every child names its parent. */
  ghost predicate BackLinked(ns: seq<Node>)
    requires KidsOk(ns)
  {
    forall i, j | 0 <= i < |ns| && 0 <= j < |ns[i].children| :: ns[ns[i].children[j]].parent == Some(i)
  }

  /** No child is listed twice. */
  ghost predicate KidsDistinct(ns: seq<Node>) {
    forall i, a, b | 0 <= i < |ns| && 0 <= a < b < |ns[i].children| :: ns[i].children[a] != ns[i].children[b]
  }

  /** What the node path methods keep. */
  ghost predicate Linked(ns: seq<Node>) {
    WF(ns) && BackLinked(ns) && KidsDistinct(ns)
  }

  // ---------------------------------------------------------------------
  // The way up: `dirty` propagation

  /** `c` is the path from `c[0]` up through parents to a root. */
  ghost predicate Chain(ns: seq<Node>, c: seq<Id>) {
    |c| >= 1 && Within(ns, c) &&
    ns[c[|c| - 1]].isRoot &&
    forall k | 0 <= k < |c| - 1 :: !ns[c[k]].isRoot && ns[c[k]].parent == Some(c[k + 1])
  }

  /** The nodes the recursion of the `dirty` setter visits from `id`, up to
      and including the root, or `None` when it does not reach a root within
      `fuel` steps. */
  function Up(ns: seq<Node>, id: Id, fuel: nat): (r: Option<seq<Id>>)
    requires ParentsOk(ns) && id < |ns|
    ensures r.Some? ==> Chain(ns, r.value) && r.value[0] == id && |r.value| <= fuel + 1
    decreases fuel
  {
    if ns[id].isRoot then Some([id])
    else if fuel == 0 then None
    else match Up(ns, ns[id].parent.value, fuel - 1)
      case None => None
      case Some(c) => Some([id] + c)
  }

  /** The path to the root is determined by its start. */
  lemma {:induction false} ChainsAgree(ns: seq<Node>, c: seq<Id>, d: seq<Id>)
    requires Chain(ns, c) && Chain(ns, d) && c[0] == d[0]
    ensures c == d
  {
    if ns[c[0]].isRoot {
      assert |c| == 1 && |d| == 1;
      assert c == [c[0]] && d == [d[0]];
    } else {
      assert |c| > 1 && |d| > 1;
      assert Chain(ns, c[1..]) && Chain(ns, d[1..]);
      ChainsAgree(ns, c[1..], d[1..]);
      assert c == [c[0]] + c[1..] && d == [d[0]] + d[1..];
    }
  }

  /** A path to the root visits no node twice. */
  lemma ChainDistinct(ns: seq<Node>, c: seq<Id>)
    requires Chain(ns, c)
    ensures forall a, b :: 0 <= a < b < |c| ==> c[a] != c[b]
  {
    forall a, b | 0 <= a < b < |c|
      ensures c[a] != c[b]
    {
      assert Chain(ns, c[a..]) && Chain(ns, c[b..]);
      assert c[a..] != c[b..] by {
        assert |c[a..]| != |c[b..]|;
      }
      if c[a] == c[b] {
        ChainsAgree(ns, c[a..], c[b..]);
      }
    }
  }

  /** A sequence of distinct numbers below `n` has at most `n` elements. */
  lemma {:induction false} DistinctBelow(c: seq<nat>, n: nat)
    requires forall k | 0 <= k < |c| :: c[k] < n
    requires forall a, b :: 0 <= a < b < |c| ==> c[a] != c[b]
    ensures |c| <= n
    decreases |c|
  {
    if c != [] {
      var x := c[0];
      assert x < n;
      // the other elements, with those above `x` moved down by one
      var d: seq<nat> := seq(|c| - 1, k requires 0 <= k < |c| - 1 => if c[k + 1] > x then c[k + 1] - 1 else c[k + 1]);
      forall a | 0 <= a < |d|
        ensures d[a] < n - 1
      {
        assert c[a + 1] != c[0];
      }
      forall a, b | 0 <= a < b < |d|
        ensures d[a] != d[b]
      {
        assert c[a + 1] != c[b + 1] && c[a + 1] != c[0] && c[b + 1] != c[0];
      }
      DistinctBelow(d, n - 1);
    }
  }

  /** The setter's recursion finds any path to the root that is short
      enough for the fuel. */
  lemma {:induction false} UpFinds(ns: seq<Node>, c: seq<Id>, fuel: nat)
    requires ParentsOk(ns) && Chain(ns, c) && |c| <= fuel + 1
    ensures Up(ns, c[0], fuel) == Some(c)
  {
    if |c| > 1 {
      assert Chain(ns, c[1..]);
      UpFinds(ns, c[1..], fuel - 1);
      assert c == [c[0]] + c[1..];
    } else {
      assert c == [c[0]];
    }
  }

  /** A budget of one step per node is enough: if the recursion reaches a
      root with any budget, it reaches the same root with `|ns|` steps. */
  lemma UpSufficientFuel(ns: seq<Node>, id: Id, fuel: nat)
    requires ParentsOk(ns) && id < |ns|
    requires Up(ns, id, fuel).Some?
    ensures Up(ns, id, |ns|) == Up(ns, id, fuel)
  {
    var c := Up(ns, id, fuel).value;
    ChainDistinct(ns, c);
    DistinctBelow(c, |ns|);
    UpFinds(ns, c, |ns|);
  }

  /** `fs` with every node on `c` marked dirty. */
  function MarkDirty(fs: seq<Flags>, c: seq<Id>): (r: seq<Flags>)
    ensures |r| == |fs|
  {
    seq(|fs|, i requires 0 <= i < |fs| => if i in c then fs[i].(dirty := true) else fs[i])
  }

  /** The outcome of the `dirty` setter and the flags it leaves behind. */
  datatype Marked = Marked(status: Status, flags: seq<Flags>)

  /** The `dirty` setter. A non-bool raises `TypeError`. `False` clears this
      node only. `True` first sets the parent's flag the same way, up to the
      root, and then this node's; when the parent references never reach a
      root the recursion fails with `RecursionError` before any flag is
      set. */
  function DirtyStep(ns: seq<Node>, fs: seq<Flags>, id: Id, v: Value): Marked
    requires ParentsOk(ns) && |fs| == |ns| && id < |ns|
  {
    if !IsBool(v) then Marked(Raised(TypeError), fs)
    else if !v.b then Marked(Done, fs[id := fs[id].(dirty := false)])
    else match Up(ns, id, |ns|)
      case None => Marked(Raised(RecursionError), fs)
      case Some(c) => Marked(Done, MarkDirty(fs, c))
  }

  /** Setting `dirty` to `True` marks exactly the node and its ancestors up
      to the root, and changes nothing else. */
  lemma DirtyMarksAncestors(ns: seq<Node>, fs: seq<Flags>, id: Id, c: seq<Id>)
    requires ParentsOk(ns) && |fs| == |ns| && id < |ns|
    requires Chain(ns, c) && c[0] == id
    ensures DirtyStep(ns, fs, id, Bool(true)).status == Done
    ensures forall i | 0 <= i < |fs| ::
      DirtyStep(ns, fs, id, Bool(true)).flags[i] == fs[i].(dirty := fs[i].dirty || i in c)
  {
    ChainDistinct(ns, c);
    DistinctBelow(c, |ns|);
    UpFinds(ns, c, |ns|);
  }

  /** Setting `True` fails exactly when no path leads from the node to a
      root, that is when the setter's recursion never ends; then nothing
      changes. */
  lemma DirtyRecursion(ns: seq<Node>, fs: seq<Flags>, id: Id)
    requires ParentsOk(ns) && |fs| == |ns| && id < |ns|
    ensures DirtyStep(ns, fs, id, Bool(true)).status == Raised(RecursionError) <==>
      !exists c :: Chain(ns, c) && c[0] == id
    ensures DirtyStep(ns, fs, id, Bool(true)).status == Raised(RecursionError) ==>
      DirtyStep(ns, fs, id, Bool(true)).flags == fs
  {
    if exists c :: Chain(ns, c) && c[0] == id {
      var c :| Chain(ns, c) && c[0] == id;
      DirtyMarksAncestors(ns, fs, id, c);
    }
  }

  /** Setting `False` clears this node's flag only, and anything but a bool
      is refused with nothing changed. */
  lemma DirtyFalseLocal(ns: seq<Node>, fs: seq<Flags>, id: Id, v: Value)
    requires ParentsOk(ns) && |fs| == |ns| && id < |ns|
    ensures v == Bool(false) ==> DirtyStep(ns, fs, id, v) == Marked(Done, fs[id := fs[id].(dirty := false)])
    ensures !v.Bool? <==> DirtyStep(ns, fs, id, v).status == Raised(TypeError)
    ensures !v.Bool? ==> DirtyStep(ns, fs, id, v).flags == fs
  {
  }

  // ---------------------------------------------------------------------
  // Relative values

  /** `update_relative`: a root takes its own values; any other node adds
      its angle and depth to its parent's relative ones and multiplies its
      scale into the parent's relative scale. */
  function Relative(ns: seq<Node>, fs: seq<Flags>, id: Id): Rel
    requires ParentsOk(ns) && |fs| == |ns| && id < |ns|
  {
    if ns[id].isRoot then Rel(ns[id].angle, ns[id].scale, ns[id].depth)
    else
      var p := fs[ns[id].parent.value].rel;
      Rel(p.angle + ns[id].angle, p.scale * ns[id].scale, p.depth + ns[id].depth)
  }

  /** Node `i`'s relative values are up to date. */
  ghost predicate Fresh(ns: seq<Node>, fs: seq<Flags>, i: Id)
    requires ParentsOk(ns) && |fs| == |ns| && i < |ns|
  {
    fs[i].rel == Relative(ns, fs, i)
  }

  function SumAngle(ns: seq<Node>, c: seq<Id>): real
    requires Within(ns, c)
  {
    if c == [] then 0.0 else ns[c[0]].angle + SumAngle(ns, c[1..])
  }

  function ProdScale(ns: seq<Node>, c: seq<Id>): real
    requires Within(ns, c)
  {
    if c == [] then 1.0 else ProdScale(ns, c[1..]) * ns[c[0]].scale
  }

  function SumDepth(ns: seq<Node>, c: seq<Id>): int
    requires Within(ns, c)
  {
    if c == [] then 0 else ns[c[0]].depth + SumDepth(ns, c[1..])
  }

  /** When every node on the way to the root is up to date, a node's
      relative angle and depth are the sums, and its relative scale the
      product, of the own values along that way. */
  lemma {:induction false} RelAlongChain(ns: seq<Node>, fs: seq<Flags>, c: seq<Id>)
    requires ParentsOk(ns) && |fs| == |ns| && Chain(ns, c)
    requires forall k | 0 <= k < |c| :: Fresh(ns, fs, c[k])
    ensures fs[c[0]].rel == Rel(SumAngle(ns, c), ProdScale(ns, c), SumDepth(ns, c))
  {
    var t := c[1..];
    assert forall k | 0 <= k < |t| :: t[k] == c[k + 1];
    if |c| > 1 {
      assert Chain(ns, t);
      RelAlongChain(ns, fs, t);
    } else {
      assert t == [];
    }
  }

  // ---------------------------------------------------------------------
  // Traversal

  /** A walk's outcome (the visited nodes, in order) and the flags after it. */
  datatype Walk = Walk(status: Result<seq<Id>>, flags: seq<Flags>)

  /** `fs` after `traverse` updated node `id` and cleared its flag. */
  function Touch(ns: seq<Node>, fs: seq<Flags>, id: Id): (r: seq<Flags>)
    requires ParentsOk(ns) && |fs| == |ns| && id < |ns|
    ensures |r| == |fs|
  {
    fs[id := Flags(Relative(ns, fs, id), false)]
  }

  /** The body of `traverse` below the root check: update the relative
      values, clear `dirty`, list this node and then, if it is visible, its
      children's lists in order. Each nested call spends one unit of `fuel`;
      running out is Python's `RecursionError`. */
  function Visit(ns: seq<Node>, fs: seq<Flags>, id: Id, fuel: nat): (w: Walk)
    requires WF(ns) && |fs| == |ns| && id < |ns|
    ensures |w.flags| == |fs|
    decreases fuel, 0
  {
    if fuel == 0 then Walk(Err(RecursionError), fs)
    else
      var fs1 := Touch(ns, fs, id);
      if !ns[id].visible then Walk(Ok([id]), fs1)
      else VisitAll(ns, fs1, ns[id].children, fuel - 1, [id])
  }

  /** The loop of `traverse` over the children `kids`, appending each
      child's list to `acc`. */
  function VisitAll(ns: seq<Node>, fs: seq<Flags>, kids: seq<Id>, fuel: nat, acc: seq<Id>): (w: Walk)
    requires WF(ns) && |fs| == |ns| && Within(ns, kids)
    ensures |w.flags| == |fs|
    decreases fuel, 1, |kids|
  {
    if kids == [] then Walk(Ok(acc), fs)
    else
      var w := Visit(ns, fs, kids[0], fuel);
      if w.status.Err? then w
      else VisitAll(ns, w.flags, kids[1..], fuel, acc + w.status.value)
  }

  /** A walk sets no dirty flag. */
  lemma {:induction false} VisitSetsNone(ns: seq<Node>, fs: seq<Flags>, id: Id, fuel: nat)
    requires WF(ns) && |fs| == |ns| && id < |ns|
    ensures forall i | 0 <= i < |fs| :: Visit(ns, fs, id, fuel).flags[i].dirty ==> fs[i].dirty
    decreases fuel, 0
  {
    if fuel > 0 && ns[id].visible {
      VisitAllSetsNone(ns, Touch(ns, fs, id), ns[id].children, fuel - 1, [id]);
    }
  }

  lemma {:induction false} VisitAllSetsNone(ns: seq<Node>, fs: seq<Flags>, kids: seq<Id>, fuel: nat, acc: seq<Id>)
    requires WF(ns) && |fs| == |ns| && Within(ns, kids)
    ensures forall i | 0 <= i < |fs| :: VisitAll(ns, fs, kids, fuel, acc).flags[i].dirty ==> fs[i].dirty
    decreases fuel, 1, |kids|
  {
    if kids != [] {
      var w := Visit(ns, fs, kids[0], fuel);
      VisitSetsNone(ns, fs, kids[0], fuel);
      if w.status.Ok? {
        VisitAllSetsNone(ns, w.flags, kids[1..], fuel, acc + w.status.value);
      }
    }
  }

  /** Going from `fs` to `gs`, every node on `t` ends clean and no node
      off `t` changes. */
  ghost predicate ClearedOn(fs: seq<Flags>, gs: seq<Flags>, t: seq<Id>) {
    |gs| == |fs| &&
    (forall j | 0 <= j < |t| :: t[j] < |fs| && !gs[t[j]].dirty) &&
    (forall i | 0 <= i < |fs| && i !in t :: gs[i] == fs[i])
  }

  lemma ClearedOnThen(fs: seq<Flags>, gs: seq<Flags>, hs: seq<Flags>, t: seq<Id>, u: seq<Id>)
    requires ClearedOn(fs, gs, t) && ClearedOn(gs, hs, u)
    ensures ClearedOn(fs, hs, t + u)
  {
    forall j | 0 <= j < |t|
      ensures !hs[t[j]].dirty
    {
      if t[j] !in u {
        assert hs[t[j]] == gs[t[j]];
      }
    }
    forall j | |t| <= j < |t + u|
      ensures (t + u)[j] < |fs| && !hs[(t + u)[j]].dirty
    {
      assert (t + u)[j] == u[j - |t|];
    }
  }

  /** A completed walk lists, after `acc`, exactly the nodes it leaves
      clean: each of them ends clean and no other node changes. */
  lemma {:induction false} VisitClears(ns: seq<Node>, fs: seq<Flags>, id: Id, fuel: nat)
    requires WF(ns) && |fs| == |ns| && id < |ns|
    ensures Visit(ns, fs, id, fuel).status.Ok? ==>
      ClearedOn(fs, Visit(ns, fs, id, fuel).flags, Visit(ns, fs, id, fuel).status.value)
    decreases fuel, 0
  {
    if fuel > 0 {
      var fs1 := Touch(ns, fs, id);
      assert ClearedOn(fs, fs1, [id]);
      if ns[id].visible {
        VisitAllClears(ns, fs1, ns[id].children, fuel - 1, [id]);
        var w := VisitAll(ns, fs1, ns[id].children, fuel - 1, [id]);
        if w.status.Ok? {
          var s := w.status.value;
          ClearedOnThen(fs, fs1, w.flags, [id], s[1..]);
          assert s == [id] + s[1..];
        }
      }
    }
  }

  lemma {:induction false} VisitAllClears(ns: seq<Node>, fs: seq<Flags>, kids: seq<Id>, fuel: nat, acc: seq<Id>)
    requires WF(ns) && |fs| == |ns| && Within(ns, kids)
    ensures VisitAll(ns, fs, kids, fuel, acc).status.Ok? ==>
      var s := VisitAll(ns, fs, kids, fuel, acc).status.value;
      |s| >= |acc| && s[..|acc|] == acc && ClearedOn(fs, VisitAll(ns, fs, kids, fuel, acc).flags, s[|acc|..])
    decreases fuel, 1, |kids|
  {
    if kids == [] {
      assert acc[|acc|..] == [];
    } else {
      var w := Visit(ns, fs, kids[0], fuel);
      VisitClears(ns, fs, kids[0], fuel);
      if w.status.Ok? {
        var t := w.status.value;
        var acc' := acc + t;
        VisitAllClears(ns, w.flags, kids[1..], fuel, acc');
        var r := VisitAll(ns, w.flags, kids[1..], fuel, acc');
        if r.status.Ok? {
          var s := r.status.value;
          PrefixOfExtended(s, acc, t);
          assert s[|acc|..] == t + s[|acc'|..] by {
            assert s == acc' + s[|acc'|..];
          }
          ClearedOnThen(fs, w.flags, r.flags, t, s[|acc'|..]);
        }
      }
    }
  }

  /** Every node of `s` after the first has a visible parent listed before
      it. */
  ghost predicate ParentFirst(ns: seq<Node>, s: seq<Id>)
    requires ParentsOk(ns) && Within(ns, s)
  {
    forall j | 0 < j < |s| ::
      ns[s[j]].parent.Some? && ns[s[j]].parent.value in s[..j] && ns[ns[s[j]].parent.value].visible
  }

  /** `traverse` lists in preorder: the node itself first, and every later
      node after its parent, which is visible. A hidden node lists only
      itself. */
  lemma {:induction false} VisitPreorder(ns: seq<Node>, fs: seq<Flags>, id: Id, fuel: nat)
    requires Linked(ns) && |fs| == |ns| && id < |ns|
    ensures Visit(ns, fs, id, fuel).status.Ok? ==>
      var s := Visit(ns, fs, id, fuel).status.value;
      |s| >= 1 && s[0] == id && Within(ns, s) && ParentFirst(ns, s) &&
      (!ns[id].visible ==> s == [id])
    decreases fuel, 0
  {
    if fuel > 0 && ns[id].visible {
      VisitAllPreorder(ns, Touch(ns, fs, id), ns[id].children, fuel - 1, [id]);
    }
  }

  /** Appending a preorder list whose head has a visible parent already
      listed keeps a list in preorder. */
  lemma ParentFirstAppend(ns: seq<Node>, acc: seq<Id>, t: seq<Id>)
    requires ParentsOk(ns) && Within(ns, acc) && Within(ns, t) && |t| >= 1
    requires ParentFirst(ns, acc) && ParentFirst(ns, t)
    requires ns[t[0]].parent.Some? && ns[t[0]].parent.value in acc && ns[ns[t[0]].parent.value].visible
    ensures Within(ns, acc + t) && ParentFirst(ns, acc + t)
  {
    var s := acc + t;
    forall j | 0 < j < |s|
      ensures ns[s[j]].parent.Some? && ns[s[j]].parent.value in s[..j] && ns[ns[s[j]].parent.value].visible
    {
      if j < |acc| {
        assert s[..j] == acc[..j];
      } else if j == |acc| {
        assert s[..j] == acc;
      } else {
        var j' := j - |acc|;
        assert s[j] == t[j'];
        assert s[..j] == acc + t[..j'];
      }
    }
  }

  lemma {:induction false} VisitAllPreorder(ns: seq<Node>, fs: seq<Flags>, kids: seq<Id>, fuel: nat, acc: seq<Id>)
    requires Linked(ns) && |fs| == |ns| && Within(ns, kids) && Within(ns, acc)
    requires ParentFirst(ns, acc)
    requires forall k | 0 <= k < |kids| ::
      ns[kids[k]].parent.Some? && ns[kids[k]].parent.value in acc && ns[ns[kids[k]].parent.value].visible
    ensures VisitAll(ns, fs, kids, fuel, acc).status.Ok? ==>
      var s := VisitAll(ns, fs, kids, fuel, acc).status.value;
      |s| >= |acc| && s[..|acc|] == acc && Within(ns, s) && ParentFirst(ns, s)
    decreases fuel, 1, |kids|
  {
    if kids == [] {
      assert acc[..|acc|] == acc;
    } else {
      var w := Visit(ns, fs, kids[0], fuel);
      VisitPreorder(ns, fs, kids[0], fuel);
      if w.status.Ok? {
        var t := w.status.value;
        ParentFirstAppend(ns, acc, t);
        var acc' := acc + t;
        assert forall k | 0 <= k < |kids| - 1 :: kids[1..][k] == kids[k + 1];
        VisitAllPreorder(ns, w.flags, kids[1..], fuel, acc');
        var r := VisitAll(ns, w.flags, kids[1..], fuel, acc');
        if r.status.Ok? {
          PrefixOfExtended(r.status.value, acc, t);
        }
      }
    }
  }

  /** What `traverse` returns: `False` for a clean root, the list of
      visited nodes for a node that is not a root, or, for a root, the list
      it hands to `quadtree_from_pairs`. */
  datatype Traversal = Clean | Listed(pairs: seq<Id>) | Rebuilt(pairs: seq<Id>) | Failed(error: Error)

  datatype Traversed = Traversed(outcome: Traversal, flags: seq<Flags>)

  /** `traverse()`, the recursion limit being one nested call per node. */
  function TraverseStep(ns: seq<Node>, fs: seq<Flags>, id: Id): Traversed
    requires WF(ns) && |fs| == |ns| && id < |ns|
  {
    if ns[id].isRoot && !fs[id].dirty then Traversed(Clean, fs)
    else
      var w := Visit(ns, fs, id, |ns|);
      if w.status.Err? then Traversed(Failed(w.status.error), w.flags)
      else if ns[id].isRoot then Traversed(Rebuilt(w.status.value), w.flags)
      else Traversed(Listed(w.status.value), w.flags)
  }

  /** A clean root is left alone and reports `False`; every other call
      walks. */
  lemma TraverseCleanRoot(ns: seq<Node>, fs: seq<Flags>, id: Id)
    requires WF(ns) && |fs| == |ns| && id < |ns|
    ensures TraverseStep(ns, fs, id).outcome == Clean <==> ns[id].isRoot && !fs[id].dirty
    ensures TraverseStep(ns, fs, id).outcome == Clean ==> TraverseStep(ns, fs, id).flags == fs
  {
  }

  /** A completed traversal lists the node first and every other node
      after its visible parent; every listed node ends clean, no other node
      changes, and a root's list goes to the quadtree. Even a traversal that
      fails sets no dirty flag. */
  lemma TraverseMeaning(ns: seq<Node>, fs: seq<Flags>, id: Id)
    requires Linked(ns) && |fs| == |ns| && id < |ns|
    ensures var t := TraverseStep(ns, fs, id);
      |t.flags| == |fs| && forall i | 0 <= i < |fs| :: t.flags[i].dirty ==> fs[i].dirty
    ensures var t := TraverseStep(ns, fs, id);
      (t.outcome.Listed? || t.outcome.Rebuilt?) ==>
        var s := t.outcome.pairs;
        |s| >= 1 && s[0] == id && Within(ns, s) && ParentFirst(ns, s) &&
        (!ns[id].visible ==> s == [id]) &&
        (t.outcome.Rebuilt? <==> ns[id].isRoot) &&
        ClearedOn(fs, t.flags, s)
  {
    VisitPreorder(ns, fs, id, |ns|);
    VisitClears(ns, fs, id, |ns|);
    VisitSetsNone(ns, fs, id, |ns|);
  }

  // ---------------------------------------------------------------------
  // Structure changes

  /** `old_parent.remove(self)`, the first step of `reparent_to`. */
  function Detach(ns: seq<Node>, id: Id): (r: seq<Node>)
    requires ParentsOk(ns) && id < |ns|
    ensures |r| == |ns|
    ensures forall i | 0 <= i < |ns| ::
      r[i].parent == ns[i].parent && r[i].isRoot == ns[i].isRoot && r[i].tree == ns[i].tree
  {
    match ns[id].parent
    case None => ns
    case Some(p) => ns[p := ns[p].(children := RemoveFirst<Id>(ns[p].children, id))]
  }

  /** Setting the new parent and appending to its children. */
  function Relink(ns: seq<Node>, id: Id, q: Id): (r: seq<Node>)
    requires id < |ns| && q < |ns|
    ensures |r| == |ns|
    ensures forall i | 0 <= i < |ns| ::
      r[i].parent == (if i == id then Some(q) else ns[i].parent) &&
      r[i].isRoot == ns[i].isRoot && r[i].tree == ns[i].tree
  {
    var r1 := ns[id := ns[id].(parent := Some(q))];
    r1[q := r1[q].(children := r1[q].children + [id])]
  }

  /** The outcome of `reparent_to` and the nodes after it. */
  datatype Reparented = Reparented(status: Result<bool>, nodes: seq<Node>)

  /** The end of `reparent_to` once the `quadtree` setter has reached the
      root `top`: that root takes node `q`'s quadtree, and node `id` stops
      being a root. */
  function Settle(ms: seq<Node>, id: Id, q: Id, top: Id): (r: seq<Node>)
    requires id < |ms| && q < |ms| && top < |ms|
    ensures |r| == |ms|
  {
    var r1 := ms[top := ms[top].(tree := ms[q].tree)];
    r1[id := r1[id].(isRoot := false)]
  }

  /** Settling changes only the root's quadtree and the node's root
      status. */
  lemma SettleChanges(ms: seq<Node>, id: Id, q: Id, top: Id)
    requires id < |ms| && q < |ms| && top < |ms|
    ensures var r := Settle(ms, id, q, top);
      forall i | 0 <= i < |ms| ::
        r[i].children == ms[i].children && r[i].parent == ms[i].parent && SameOwn(r[i], ms[i]) &&
        r[i].isRoot == (ms[i].isRoot && i != id) &&
        r[i].tree == (if i == top then ms[q].tree else ms[i].tree)
  {
  }

  /** `reparent_to(new_parent)`; `None` stands for an argument that is not
      a `NodePath`, which is refused with `False`. The node leaves its old
      parent's children and joins the new parent's; then the `quadtree`
      setter hands the new parent's quadtree up to the root above the node
      (the node itself, while it is still a root), which fails with
      `RecursionError` when the new parent lies below the node; only then
      does the node stop being a root. */
  function ReparentStep(ns: seq<Node>, id: Id, np: Option<Id>): Reparented
    requires ParentsOk(ns) && id < |ns| && (np.Some? ==> np.value < |ns|)
  {
    match np
    case None => Reparented(Ok(false), ns)
    case Some(q) =>
      var ms := Relink(Detach(ns, id), id, q);
      match Up(ms, id, |ms|)
      case None => Reparented(Err(RecursionError), ms)
      case Some(c) => Reparented(Ok(true), Settle(ms, id, q, c[|c| - 1]))
  }

  /** The node keeps its own values: anchor, visibility, angle, scale and
      depth. */
  ghost predicate SameOwn(m: Node, n: Node) {
    m.center == n.center && m.visible == n.visible && m.angle == n.angle &&
    m.scale == n.scale && m.depth == n.depth
  }

  /** The children lists after node `id` has moved from wherever it was to
      the end of node `q`'s. */
  ghost predicate Moved(ns: seq<Node>, ms: seq<Node>, id: Id, q: Id)
    requires |ms| == |ns|
  {
    forall i | 0 <= i < |ns| ::
      ms[i].children == RemoveFirst<Id>(ns[i].children, id) + (if i == q then [id] else [])
  }

  /** Moving a node, which is no root afterwards, to the end of another's
      children keeps the graph linked. */
  lemma MovedLinked(ns: seq<Node>, ms: seq<Node>, id: Id, q: Id)
    requires Linked(ns) && id < |ns| && q < |ns| && |ms| == |ns| && Moved(ns, ms, id, q)
    requires forall i | 0 <= i < |ns| ::
      ms[i].parent == (if i == id then Some(q) else ns[i].parent) &&
      ms[i].isRoot == (ns[i].isRoot && i != id)
    ensures Linked(ms)
  {
    forall i | 0 <= i < |ns|
      ensures ListOk(ms, i)
    {
      MovedListLinked(ns, ms, id, q, i);
    }
    LinkedOfLists(ms);
  }

  /** One children list of a graph: its members exist, are not roots, name
      the list's owner, and none is listed twice. */
  ghost predicate ListOk(ns: seq<Node>, i: Id)
    requires i < |ns|
  {
    var l := ns[i].children;
    (forall j | 0 <= j < |l| :: l[j] < |ns| && !ns[l[j]].isRoot && ns[l[j]].parent == Some(i)) &&
    (forall a, b | 0 <= a < b < |l| :: l[a] != l[b])
  }

  /** A graph whose parents exist and whose every children list is in order
      is linked. */
  lemma LinkedOfLists(ns: seq<Node>)
    requires ParentsOk(ns) && forall i | 0 <= i < |ns| :: ListOk(ns, i)
    ensures Linked(ns)
  {
    forall i, j | 0 <= i < |ns| && 0 <= j < |ns[i].children|
      ensures ns[i].children[j] < |ns| && !ns[ns[i].children[j]].isRoot
      ensures ns[ns[i].children[j]].parent == Some(i)
    {
      assert ListOk(ns, i);
    }
    forall i, a, b | 0 <= i < |ns| && 0 <= a < b < |ns[i].children|
      ensures ns[i].children[a] != ns[i].children[b]
    {
      assert ListOk(ns, i);
    }
  }

  /** One children list of `MovedLinked`. */
  lemma MovedListLinked(ns: seq<Node>, ms: seq<Node>, id: Id, q: Id, i: Id)
    requires Linked(ns) && id < |ns| && q < |ns| && |ms| == |ns| && Moved(ns, ms, id, q) && i < |ns|
    requires forall i | 0 <= i < |ns| ::
      ms[i].parent == (if i == id then Some(q) else ns[i].parent) &&
      ms[i].isRoot == (ns[i].isRoot && i != id)
    ensures ListOk(ms, i)
  {
    var k := ns[i].children;
    assert forall x | x in k :: x < |ns| && !ns[x].isRoot && ns[x].parent == Some(i) by {
      forall x | x in k
        ensures x < |ns| && !ns[x].isRoot && ns[x].parent == Some(i)
      {
        var j :| 0 <= j < |k| && k[j] == x;
      }
    }
    MovedListOk(ns, ms, id, q, i);
    MovedListDistinct(ns[i].children, ms[i].children, id, if i == q then [id] else []);
  }

  /** One children list of `MovedLinked`: its members exist, are not
      roots and name the list's owner. */
  lemma MovedListOk(ns: seq<Node>, ms: seq<Node>, id: Id, q: Id, i: Id)
    requires id < |ns| && q < |ns| && i < |ns| && |ms| == |ns|
    requires forall x | x in ns[i].children :: x < |ns| && !ns[x].isRoot && ns[x].parent == Some(i)
    requires forall a, b | 0 <= a < b < |ns[i].children| :: ns[i].children[a] != ns[i].children[b]
    requires ms[i].children == RemoveFirst<Id>(ns[i].children, id) + (if i == q then [id] else [])
    requires forall i | 0 <= i < |ns| ::
      ms[i].parent == (if i == id then Some(q) else ns[i].parent) &&
      ms[i].isRoot == (ns[i].isRoot && i != id)
    ensures forall x | x in ms[i].children :: x < |ms| && !ms[x].isRoot && ms[x].parent == Some(i)
  {
    RemoveFirstDistinct<Id>(ns[i].children, id);
  }

  /** One children list of `MovedLinked`: no member is listed twice. */
  lemma MovedListDistinct(k: seq<Id>, l: seq<Id>, id: Id, last: seq<Id>)
    requires forall a, b | 0 <= a < b < |k| :: k[a] != k[b]
    requires last == [] || last == [id]
    requires l == RemoveFirst<Id>(k, id) + last
    ensures forall a, b | 0 <= a < b < |l| :: l[a] != l[b]
  {
    var r := RemoveFirst<Id>(k, id);
    RemoveFirstDistinct<Id>(k, id);
    forall a, b | 0 <= a < b < |l|
      ensures l[a] != l[b]
    {
      if b < |r| {
        assert l[a] == r[a] && l[b] == r[b];
      } else {
        assert l[a] == r[a] && l[a] in r;
      }
    }
  }

  /** Detaching and relinking moves the node between children lists and
      changes nothing else but its parent. */
  lemma RelinkMoves(ns: seq<Node>, id: Id, q: Id)
    requires Linked(ns) && id < |ns| && q < |ns|
    ensures var ms := Relink(Detach(ns, id), id, q);
      |ms| == |ns| && Moved(ns, ms, id, q) &&
      forall i | 0 <= i < |ns| ::
        SameOwn(ms[i], ns[i]) && ms[i].parent == (if i == id then Some(q) else ns[i].parent) &&
        ms[i].isRoot == ns[i].isRoot && ms[i].tree == ns[i].tree
  {
    var ms := Relink(Detach(ns, id), id, q);
    forall i | 0 <= i < |ns|
      ensures ms[i].children == RemoveFirst<Id>(ns[i].children, id) + (if i == q then [id] else [])
      ensures SameOwn(ms[i], ns[i])
    {
      if ns[id].parent != Some(i) {
        var k := ns[i].children;
        assert id !in k by {
          forall j | 0 <= j < |k|
            ensures k[j] != id
          {
            assert ns[k[j]].parent == Some(i);
          }
        }
      }
    }
  }

  /** `reparent_to` a node path: the node moves to the end of the new
      parent's children and out of every other list, names the new parent,
      and is no longer a root; no other node's parent, root status or own
      values change, and the graph stays linked. The only failure is
      `RecursionError`. */
  lemma ReparentMoves(ns: seq<Node>, id: Id, q: Id)
    requires Linked(ns) && id < |ns| && q < |ns|
    ensures var r := ReparentStep(ns, id, Some(q));
      (r.status == Ok(true) || r.status == Err(RecursionError)) &&
      |r.nodes| == |ns| && Linked(r.nodes) && Moved(ns, r.nodes, id, q) &&
      forall i | 0 <= i < |ns| ::
        SameOwn(r.nodes[i], ns[i]) &&
        r.nodes[i].parent == (if i == id then Some(q) else ns[i].parent) &&
        r.nodes[i].isRoot == (ns[i].isRoot && i != id)
  {
    var ms := Relink(Detach(ns, id), id, q);
    RelinkMoves(ns, id, q);
    match Up(ms, id, |ms|)
    case None =>
      assert !ms[id].isRoot;
      MovedLinked(ns, ms, id, q);
    case Some(c) =>
      SettledMoves(ns, id, q, c[|c| - 1]);
  }

  /** The success case of `ReparentMoves`: settling at the root `top`. */
  lemma SettledMoves(ns: seq<Node>, id: Id, q: Id, top: Id)
    requires Linked(ns) && id < |ns| && q < |ns| && top < |ns|
    ensures var r := Settle(Relink(Detach(ns, id), id, q), id, q, top);
      |r| == |ns| && Linked(r) && Moved(ns, r, id, q) &&
      forall i | 0 <= i < |ns| ::
        SameOwn(r[i], ns[i]) &&
        r[i].parent == (if i == id then Some(q) else ns[i].parent) &&
        r[i].isRoot == (ns[i].isRoot && i != id)
  {
    var ms := Relink(Detach(ns, id), id, q);
    RelinkMoves(ns, id, q);
    var r := Settle(ms, id, q, top);
    SettleChanges(ms, id, q, top);
    forall i | 0 <= i < |ns|
      ensures r[i].children == RemoveFirst<Id>(ns[i].children, id) + (if i == q then [id] else [])
      ensures SameOwn(r[i], ns[i]) && r[i].parent == (if i == id then Some(q) else ns[i].parent)
      ensures r[i].isRoot == (ns[i].isRoot && i != id)
    {
      assert r[i].children == ms[i].children && SameOwn(ms[i], ns[i]);
    }
    MovedLinked(ns, r, id, q);
  }

  /** Reparenting keeps the graph linked. */
  lemma ReparentLinked(ns: seq<Node>, id: Id, q: Id)
    requires Linked(ns) && id < |ns| && q < |ns|
    ensures Linked(ReparentStep(ns, id, Some(q)).nodes)
  {
    ReparentMoves(ns, id, q);
  }

  /** Reparenting a root: it takes the new parent's quadtree itself, and no
      other node's quadtree changes. */
  lemma ReparentRoot(ns: seq<Node>, id: Id, q: Id)
    requires ParentsOk(ns) && id < |ns| && q < |ns| && ns[id].isRoot
    ensures var r := ReparentStep(ns, id, Some(q));
      r.status == Ok(true) && |r.nodes| == |ns| &&
      forall i | 0 <= i < |ns| :: r.nodes[i].tree == (if i == id then ns[q].tree else ns[i].tree)
  {
    SettleChanges(Relink(Detach(ns, id), id, q), id, q, id);
  }

  /** Reparenting a node that is not a root under a node whose way up to
      its root `c` avoids it: the call succeeds, that root takes the new
      parent's quadtree, and no other node's quadtree changes. */
  lemma ReparentUnder(ns: seq<Node>, id: Id, q: Id, c: seq<Id>)
    requires ParentsOk(ns) && id < |ns| && q < |ns| && !ns[id].isRoot
    requires Chain(ns, c) && c[0] == q && id !in c
    ensures var r := ReparentStep(ns, id, Some(q));
      r.status == Ok(true) && |r.nodes| == |ns| &&
      forall i | 0 <= i < |ns| :: r.nodes[i].tree == (if i == c[|c| - 1] then ns[q].tree else ns[i].tree)
  {
    var ms := Relink(Detach(ns, id), id, q);
    var d := [id] + c;
    RelinkChain(ns, id, q, c);
    ChainDistinct(ms, d);
    DistinctBelow(d, |ms|);
    UpFinds(ms, d, |ms|);
    SettleChanges(ms, id, q, c[|c| - 1]);
  }

  /** After relinking, the node followed by a way up from the new parent
      that avoids it is a way up from the node. */
  lemma RelinkChain(ns: seq<Node>, id: Id, q: Id, c: seq<Id>)
    requires ParentsOk(ns) && id < |ns| && q < |ns| && !ns[id].isRoot
    requires Chain(ns, c) && c[0] == q && id !in c
    ensures Chain(Relink(Detach(ns, id), id, q), [id] + c)
  {
    var ms := Relink(Detach(ns, id), id, q);
    var d := [id] + c;
    forall k | 0 <= k < |d| - 1
      ensures !ms[d[k]].isRoot && ms[d[k]].parent == Some(d[k + 1])
    {
      if k > 0 {
        assert d[k] == c[k - 1] && d[k + 1] == c[k];
      }
    }
  }

  /** On the way up from the relinked node, the part above it is a way up
      in the original graph from the new parent that avoids the node. */
  lemma RelinkedChain(ns: seq<Node>, id: Id, q: Id, d: seq<Id>)
    requires ParentsOk(ns) && id < |ns| && q < |ns| && !ns[id].isRoot
    requires Chain(Relink(Detach(ns, id), id, q), d) && d[0] == id
    ensures Chain(ns, d[1..]) && d[1] == q && id !in d[1..]
  {
    var ms := Relink(Detach(ns, id), id, q);
    ChainDistinct(ms, d);
    var c := d[1..];
    assert |d| > 1;
    forall k | 0 <= k < |c|
      ensures c[k] == d[k + 1] && c[k] != id
    {
      assert d[k + 1] != d[0];
    }
  }

  /** `reparent_to` refuses anything but a node path with `False`, and
      fails exactly when the node is not a root and every way up from the
      new parent passes through it (the new parent lies below it, or is
      the node itself). */
  lemma ReparentFails(ns: seq<Node>, id: Id, q: Id)
    requires ParentsOk(ns) && id < |ns| && q < |ns|
    ensures ReparentStep(ns, id, None) == Reparented(Ok(false), ns)
    ensures ReparentStep(ns, id, Some(q)).status == Err(RecursionError) <==>
      !ns[id].isRoot && !exists c :: Chain(ns, c) && c[0] == q && id !in c
  {
    var ms := Relink(Detach(ns, id), id, q);
    if ns[id].isRoot {
      ReparentRoot(ns, id, q);
    } else if exists c :: Chain(ns, c) && c[0] == q && id !in c {
      var c :| Chain(ns, c) && c[0] == q && id !in c;
      ReparentUnder(ns, id, q, c);
    } else {
      match Up(ms, id, |ms|)
      case None =>
      case Some(d) =>
        RelinkedChain(ns, id, q, d);
        assert false;
    }
  }

  /** The nodes and flags after a structure change. */
  datatype Graph = Graph(nodes: seq<Node>, flags: seq<Flags>)

  /** `attach_new_node_path`: the constructor with `parent=self` makes a
      node path that is no root, names this node as its parent, shares its
      quadtree, starts dirty with relative values taken from the parent's
      (its `update_relative`), and has no children; then it is appended to
      this node's children. The anchor is stored without a check. */
  function AttachStep(ns: seq<Node>, fs: seq<Flags>, p: Id, center: Anchor, visible: bool,
                      angle: real, scale: real, depth: int): Graph
    requires p < |ns| && |fs| == |ns|
  {
    var n := Node(center, visible, angle, scale, depth, false, Some(p), [], ns[p].tree);
    var pr := fs[p].rel;
    var ns1 := ns + [n];
    Graph(ns1[p := ns1[p].(children := ns1[p].children + [|ns|])],
          fs + [Flags(Rel(pr.angle + angle, pr.scale * scale, pr.depth + depth), true)])
  }

  /** The new node path is the last node: a dirty child of `p` with the
      given values, up to date, in `p`'s quadtree, listed last among `p`'s
      children; nothing else changes, and the graph stays linked. */
  lemma AttachMeaning(ns: seq<Node>, fs: seq<Flags>, p: Id, center: Anchor, visible: bool,
                      angle: real, scale: real, depth: int)
    requires Linked(ns) && p < |ns| && |fs| == |ns|
    ensures var r := AttachStep(ns, fs, p, center, visible, angle, scale, depth); var id := |ns|;
      |r.nodes| == |r.flags| == |ns| + 1 && Linked(r.nodes) &&
      r.nodes[id] == Node(center, visible, angle, scale, depth, false, Some(p), [], ns[p].tree) &&
      r.flags[id].dirty && Fresh(r.nodes, r.flags, id) &&
      r.nodes[p].children == ns[p].children + [id] &&
      (forall i | 0 <= i < |ns| && i != p :: r.nodes[i] == ns[i]) &&
      r.nodes[p] == ns[p].(children := ns[p].children + [id]) &&
      r.flags[..|ns|] == fs
  {
    var r := AttachStep(ns, fs, p, center, visible, angle, scale, depth);
    var ms := r.nodes;
    forall i, j | 0 <= i < |ms| && 0 <= j < |ms[i].children|
      ensures ms[i].children[j] < |ms| && !ms[ms[i].children[j]].isRoot && ms[ms[i].children[j]].parent == Some(i)
    {
      if i != p || j < |ns[p].children| {
        assert ms[i].children[j] == ns[i].children[j];
      }
    }
    forall i, a, b | 0 <= i < |ms| && 0 <= a < b < |ms[i].children|
      ensures ms[i].children[a] != ms[i].children[b]
    {
      if i == p && b == |ns[p].children| {
        assert ms[i].children[a] == ns[i].children[a] < |ns|;
      }
    }
  }

  /** `remove(np)`: the first occurrence of the node path among this node's
      children is taken out; one that is not a child is ignored. The removed
      node keeps naming this node as its parent. */
  function RemoveStep(ns: seq<Node>, p: Id, child: Id): (r: seq<Node>)
    requires p < |ns|
    ensures |r| == |ns|
  {
    ns[p := ns[p].(children := RemoveFirst<Id>(ns[p].children, child))]
  }

  /** After `remove`, the node path is no longer a child; the other
      children stay, nothing else changes, and a node path that was not a
      child changes nothing. */
  lemma RemoveMeaning(ns: seq<Node>, p: Id, child: Id)
    requires KidsDistinct(ns) && p < |ns|
    ensures var r := RemoveStep(ns, p, child);
      child !in r[p].children &&
      (forall x :: x in r[p].children <==> x in ns[p].children && x != child) &&
      (child !in ns[p].children ==> r == ns) &&
      (forall i | 0 <= i < |ns| && i != p :: r[i] == ns[i])
  {
    RemoveFirstDistinct<Id>(ns[p].children, child);
  }

  /** `remove` keeps the graph linked. */
  lemma RemoveKeepsLinked(ns: seq<Node>, p: Id, child: Id)
    requires Linked(ns) && p < |ns|
    ensures Linked(RemoveStep(ns, p, child))
  {
    var r := RemoveStep(ns, p, child);
    forall i | 0 <= i < |r|
      ensures ListOk(r, i)
    {
      if i == p {
        RemoveListOk(ns, p, child);
      } else {
        var l := r[i].children;
        assert l == ns[i].children;
        forall j | 0 <= j < |l|
          ensures l[j] < |r| && !r[l[j]].isRoot && r[l[j]].parent == Some(i)
        {
          assert r[l[j]].isRoot == ns[l[j]].isRoot && r[l[j]].parent == ns[l[j]].parent;
        }
      }
    }
    LinkedOfLists(r);
  }

  /** The list `remove` shortens stays in order. */
  lemma RemoveListOk(ns: seq<Node>, p: Id, child: Id)
    requires Linked(ns) && p < |ns|
    ensures ListOk(RemoveStep(ns, p, child), p)
  {
    var k := ns[p].children;
    RemoveFirstDistinct<Id>(k, child);
    var r := RemoveStep(ns, p, child);
    var l := r[p].children;
    assert l == RemoveFirst<Id>(k, child);
    assert forall x | x in k :: x < |ns| && !ns[x].isRoot && ns[x].parent == Some(p) by {
      forall x | x in k
        ensures x < |ns| && !ns[x].isRoot && ns[x].parent == Some(p)
      {
        var j :| 0 <= j < |k| && k[j] == x;
      }
    }
    forall j | 0 <= j < |l|
      ensures l[j] < |r| && !r[l[j]].isRoot && r[l[j]].parent == Some(p)
    {
      assert l[j] in l && l[j] in k;
      assert r[l[j]].isRoot == ns[l[j]].isRoot && r[l[j]].parent == ns[l[j]].parent;
    }
  }

  /** `fs` marked along `[id] + c` is `fs` marked along `c` and then at
      `id`. */
  lemma MarkDirtyCons(fs: seq<Flags>, id: Id, c: seq<Id>)
    requires id < |fs|
    ensures MarkDirty(fs, [id] + c) == MarkDirty(fs, c)[id := MarkDirty(fs, c)[id].(dirty := true)]
  {
  }

  /** Changing a node's own values keeps the graph linked. */
  lemma OwnChangeKeepsLinked(ns: seq<Node>, id: Id, n: Node)
    requires Linked(ns) && id < |ns|
    requires n.parent == ns[id].parent && n.isRoot == ns[id].isRoot && n.children == ns[id].children
    ensures Linked(ns[id := n])
  {
    var ms := ns[id := n];
    assert forall i | 0 <= i < |ns| ::
      ms[i].parent == ns[i].parent && ms[i].isRoot == ns[i].isRoot && ms[i].children == ns[i].children;
  }

  /** The node paths of one scene graph, numbered in order of creation. */
  class SceneGraph {
    var nodes: seq<Node>
    var flags: seq<Flags>
    /** How many quadtrees exist; the next one made gets this handle. */
    var trees: nat

    ghost predicate Valid()
      reads this
    {
      Linked(nodes) && |flags| == |nodes|
    }

    constructor()
      ensures Valid() && nodes == [] && flags == [] && trees == 0
    {
      nodes, flags, trees := [], [], 0;
    }

    /** `NodePath(...)` without a parent: a root with a new quadtree of its
        own, dirty, whose relative values are its own ones. */
    method NewRoot(center: Anchor, visible: bool, angle: real, scale: real, depth: int) returns (id: Id)
      requires Valid()
      modifies this
      ensures Valid() && id == |old(nodes)|
      ensures nodes == old(nodes) + [Node(center, visible, angle, scale, depth, true, None, [], old(trees))]
      ensures flags == old(flags) + [Flags(Rel(angle, scale, depth), true)] && Fresh(nodes, flags, id)
      ensures trees == old(trees) + 1
    {
      id := |nodes|;
      nodes := nodes + [Node(center, visible, angle, scale, depth, true, None, [], trees)];
      flags := flags + [Flags(Rel(angle, scale, depth), true)];
      trees := trees + 1;
    }

    /** `attach_new_node_path` on node `p`. */
    method Attach(p: Id, center: Anchor, visible: bool, angle: real, scale: real, depth: int) returns (id: Id)
      requires Valid() && p < |nodes|
      modifies this
      ensures Valid() && id == |old(nodes)| && trees == old(trees)
      ensures Graph(nodes, flags) == AttachStep(old(nodes), old(flags), p, center, visible, angle, scale, depth)
    {
      AttachMeaning(nodes, flags, p, center, visible, angle, scale, depth);
      id := |nodes|;
      var pr := flags[p].rel;
      nodes := nodes + [Node(center, visible, angle, scale, depth, false, Some(p), [], nodes[p].tree)];
      flags := flags + [Flags(Rel(pr.angle + angle, pr.scale * scale, pr.depth + depth), true)];
      nodes := nodes[p := nodes[p].(children := nodes[p].children + [id])];
      ghost var g := AttachStep(old(nodes), old(flags), p, center, visible, angle, scale, depth);
      assert g.flags[|old(flags)|] == flags[|old(flags)|];
      assert g.flags == flags;
      assert g.nodes == nodes;
    }

    /** Setting `dirty` on node `id`. */
    method SetDirty(id: Id, v: Value) returns (st: Status)
      requires Valid() && id < |nodes|
      modifies this
      ensures Valid() && nodes == old(nodes) && trees == old(trees)
      ensures Marked(st, flags) == DirtyStep(nodes, old(flags), id, v)
    {
      if !v.Bool? {
        return Raised(TypeError);
      }
      if v.b {
        st := Propagate(id, |nodes|);
      } else {
        flags := flags[id := flags[id].(dirty := false)];
        st := Done;
      }
    }

    /** The recursion of the `dirty` setter for `True`: the parent first,
        then this node; `fuel` nested calls at most. */
    method Propagate(id: Id, fuel: nat) returns (st: Status)
      requires ParentsOk(nodes) && |flags| == |nodes| && id < |nodes|
      modifies this
      ensures nodes == old(nodes) && trees == old(trees) && |flags| == |nodes|
      ensures Up(nodes, id, fuel).None? ==> st == Raised(RecursionError) && flags == old(flags)
      ensures Up(nodes, id, fuel).Some? ==> st == Done && flags == MarkDirty(old(flags), Up(nodes, id, fuel).value)
      decreases fuel
    {
      if !nodes[id].isRoot {
        if fuel == 0 {
          return Raised(RecursionError);
        }
        st := Propagate(nodes[id].parent.value, fuel - 1);
        if st != Done {
          return;
        }
        MarkDirtyCons(old(flags), id, Up(nodes, nodes[id].parent.value, fuel - 1).value);
      } else {
        assert MarkDirty(flags, [id]) == flags[id := flags[id].(dirty := true)];
      }
      flags := flags[id := flags[id].(dirty := true)];
      st := Done;
    }
  
    /** The `depth` setter: an `int` is stored, anything else raises
        `TypeError`. */
    method SetDepth(id: Id, v: Value) returns (st: Status)
      requires Valid() && id < |nodes|
      modifies this
      ensures Valid() && flags == old(flags) && trees == old(trees)
      ensures IsInt(v) ==> st == Done && nodes == old(nodes)[id := old(nodes)[id].(depth := IntOf(v))]
      ensures !IsInt(v) ==> st == Raised(TypeError) && nodes == old(nodes)
    {
      if !IsInt(v) {
        return Raised(TypeError);
      }
      OwnChangeKeepsLinked(nodes, id, nodes[id].(depth := IntOf(v)));
      nodes := nodes[id := nodes[id].(depth := IntOf(v))];
      st := Done;
    }

    /** The `angle` setter: an `int` or `float` is stored as a float,
        anything else raises `TypeError`. */
    method SetAngle(id: Id, v: Value) returns (st: Status)
      requires Valid() && id < |nodes|
      modifies this
      ensures Valid() && flags == old(flags) && trees == old(trees)
      ensures IsNumber(v) ==> st == Done && nodes == old(nodes)[id := old(nodes)[id].(angle := Num(v))]
      ensures !IsNumber(v) ==> st == Raised(TypeError) && nodes == old(nodes)
    {
      if !IsNumber(v) {
        return Raised(TypeError);
      }
      OwnChangeKeepsLinked(nodes, id, nodes[id].(angle := Num(v)));
      nodes := nodes[id := nodes[id].(angle := Num(v))];
      st := Done;
    }

    /** The `scale` setter: an `int` or `float` is stored as a float,
        anything else raises `TypeError`. */
    method SetScale(id: Id, v: Value) returns (st: Status)
      requires Valid() && id < |nodes|
      modifies this
      ensures Valid() && flags == old(flags) && trees == old(trees)
      ensures IsNumber(v) ==> st == Done && nodes == old(nodes)[id := old(nodes)[id].(scale := Num(v))]
      ensures !IsNumber(v) ==> st == Raised(TypeError) && nodes == old(nodes)
    {
      if !IsNumber(v) {
        return Raised(TypeError);
      }
      OwnChangeKeepsLinked(nodes, id, nodes[id].(scale := Num(v)));
      nodes := nodes[id := nodes[id].(scale := Num(v))];
      st := Done;
    }

    /** The `center` setter: one of the three layout anchors is stored,
        anything else raises `ValueError`. */
    method SetCenter(id: Id, a: Anchor) returns (st: Status)
      requires Valid() && id < |nodes|
      modifies this
      ensures Valid() && flags == old(flags) && trees == old(trees)
      ensures a != Unlisted ==> st == Done && nodes == old(nodes)[id := old(nodes)[id].(center := a)]
      ensures a == Unlisted ==> st == Raised(ValueError) && nodes == old(nodes)
    {
      if a == Unlisted {
        return Raised(ValueError);
      }
      OwnChangeKeepsLinked(nodes, id, nodes[id].(center := a));
      nodes := nodes[id := nodes[id].(center := a)];
      st := Done;
    }

    /** `update_relative` on node `id`. */
    method UpdateRelative(id: Id)
      requires ParentsOk(nodes) && |flags| == |nodes| && id < |nodes|
      modifies this
      ensures nodes == old(nodes) && trees == old(trees)
      ensures flags == old(flags)[id := old(flags)[id].(rel := Relative(nodes, old(flags), id))]
    {
      var rel;
      if nodes[id].isRoot {
        rel := Rel(nodes[id].angle, nodes[id].scale, nodes[id].depth);
      } else {
        var p := flags[nodes[id].parent.value].rel;
        rel := Rel(p.angle + nodes[id].angle, p.scale * nodes[id].scale, p.depth + nodes[id].depth);
      }
      assert rel == Relative(nodes, flags, id);
      flags := flags[id := flags[id].(rel := rel)];
    }

    /** `traverse` on node `id` below the root check: update, clear, list
        the node, then its children's lists if it is visible; at most
        `fuel` nested calls. */
    method Descend(id: Id, fuel: nat) returns (res: Result<seq<Id>>)
      requires WF(nodes) && |flags| == |nodes| && id < |nodes|
      modifies this
      ensures nodes == old(nodes) && trees == old(trees)
      ensures Walk(res, flags) == Visit(nodes, old(flags), id, fuel)
      decreases fuel, 0
    {
      if fuel == 0 {
        return Err(RecursionError);
      }
      UpdateRelative(id);
      flags := flags[id := flags[id].(dirty := false)];
      assert flags == Touch(nodes, old(flags), id);
      if !nodes[id].visible {
        return Ok([id]);
      }
      var kids := nodes[id].children;
      ghost var start := flags;
      var pairs := [id];
      var i := 0;
      while i < |kids|
        invariant 0 <= i <= |kids| && Within(nodes, kids)
        invariant nodes == old(nodes) && trees == old(trees) && |flags| == |nodes|
        invariant VisitAll(nodes, flags, kids[i..], fuel - 1, pairs) == VisitAll(nodes, start, kids, fuel - 1, [id])
      {
        assert kids[i..][0] == kids[i] && kids[i..][1..] == kids[i + 1..];
        var r := Descend(kids[i], fuel - 1);
        if r.Err? {
          return r;
        }
        pairs := pairs + r.value;
        i := i + 1;
      }
      assert kids[i..] == [];
      res := Ok(pairs);
    }

    /** `traverse()` on node `id`. For a root, `degenerate` says whether
        the bounding area of the listed boxes is zero or infinite, so that
        `quadtree_from_pairs` gives `None` and the root keeps its quadtree;
        otherwise the root takes the new one. */
    method Traverse(id: Id, degenerate: bool) returns (t: Traversal)
      requires Valid() && id < |nodes|
      modifies this
      ensures Valid()
      ensures Traversed(t, flags) == TraverseStep(old(nodes), old(flags), id)
      ensures t.Rebuilt? && !degenerate ==>
        trees == old(trees) + 1 && nodes == old(nodes)[id := old(nodes)[id].(tree := old(trees))]
      ensures !(t.Rebuilt? && !degenerate) ==> trees == old(trees) && nodes == old(nodes)
    {
      if nodes[id].isRoot && !flags[id].dirty {
        return Clean;
      }
      var r := Descend(id, |nodes|);
      if r.Err? {
        return Failed(r.error);
      }
      if nodes[id].isRoot {
        t := Rebuilt(r.value);
        if !degenerate {
          OwnChangeKeepsLinked(nodes, id, nodes[id].(tree := trees));
          nodes := nodes[id := nodes[id].(tree := trees)];
          trees := trees + 1;
        }
      } else {
        t := Listed(r.value);
      }
    }

    /** `remove(child)` on node `p`. */
    method Remove(p: Id, child: Id)
      requires Valid() && p < |nodes|
      modifies this
      ensures Valid() && flags == old(flags) && trees == old(trees)
      ensures nodes == RemoveStep(old(nodes), p, child)
    {
      RemoveKeepsLinked(nodes, p, child);
      if child in nodes[p].children {
        nodes := nodes[p := nodes[p].(children := RemoveFirst<Id>(nodes[p].children, child))];
      }
    }

    /** The `quadtree` setter on node `id`: a root stores the value, any
        other node hands it to its parent; at most `fuel` nested calls. */
    method HandTree(id: Id, v: nat, fuel: nat) returns (st: Status)
      requires ParentsOk(nodes) && id < |nodes|
      modifies this
      ensures flags == old(flags) && trees == old(trees)
      ensures Up(old(nodes), id, fuel).None? ==> st == Raised(RecursionError) && nodes == old(nodes)
      ensures Up(old(nodes), id, fuel).Some? ==>
        var c := Up(old(nodes), id, fuel).value;
        st == Done && nodes == old(nodes)[c[|c| - 1] := old(nodes)[c[|c| - 1]].(tree := v)]
      decreases fuel
    {
      if nodes[id].isRoot {
        nodes := nodes[id := nodes[id].(tree := v)];
        return Done;
      }
      if fuel == 0 {
        return Raised(RecursionError);
      }
      st := HandTree(nodes[id].parent.value, v, fuel - 1);
    }

    /** The first steps of `reparent_to`: leave the old parent's children,
        name the new parent and join its children. */
    method Move(id: Id, q: Id)
      requires Valid() && id < |nodes| && q < |nodes|
      modifies this
      ensures flags == old(flags) && trees == old(trees)
      ensures nodes == Relink(Detach(old(nodes), id), id, q) && ParentsOk(nodes)
    {
      if nodes[id].parent.Some? {
        Remove(nodes[id].parent.value, id);
      }
      assert nodes == Detach(old(nodes), id);
      nodes := nodes[id := nodes[id].(parent := Some(q))];
      nodes := nodes[q := nodes[q].(children := nodes[q].children + [id])];
    }

    /** `reparent_to(new_parent)` on node `id`; `None` stands for an
        argument that is not a node path. */
    method ReparentTo(id: Id, np: Option<Id>) returns (st: Result<bool>)
      requires Valid() && id < |nodes| && (np.Some? ==> np.value < |nodes|)
      modifies this
      ensures Valid() && flags == old(flags) && trees == old(trees)
      ensures Reparented(st, nodes) == ReparentStep(old(nodes), id, np)
    {
      if np.None? {
        return Ok(false);
      }
      var q := np.value;
      ghost var goal := ReparentStep(nodes, id, np);
      ReparentLinked(nodes, id, q);
      Move(id, q);
      ghost var ms := nodes;
      var r := HandTree(id, nodes[q].tree, |nodes|);
      if r != Done {
        st := Err(RecursionError);
        assert goal == Reparented(st, ms);
        return;
      }
      ghost var c := Up(ms, id, |ms|).value;
      assert goal == Reparented(Ok(true), Settle(ms, id, q, c[|c| - 1]));
      nodes := nodes[id := nodes[id].(isRoot := false)];
      st := Ok(true);
      assert nodes == Settle(ms, id, q, c[|c| - 1]);
    }
  }
}

/** The card table's animation queue and drag-and-drop bookkeeping
    (pyos/table_layout.py). Cards are nodes of the scene with a depth and a
    position; an animation sequence is foreign code, so the queue records
    which sequences it plays, in order. */
module TableLayout {
  import opened Outcomes
  import opened SeqFacts

  /** A card key: (suit, value). */
  type Key = (int, int)

  /** A scene position (x, y). */
  type Point = (real, real)

  /** A queued animation: the card it moves and the sequence to play. */
  datatype Entry = Entry(key: Key, anim: nat)

  /** The keys that occur in a queue. */
  function Keys(q: seq<Entry>): set<Key> {
    set i | 0 <= i < |q| :: q[i].key
  }

  /** Entry `i` is the most recent one for its card. */
  ghost predicate Kept(q: seq<Entry>, i: int)
    requires 0 <= i < |q|
  {
    forall j :: i < j < |q| ==> q[j].key != q[i].key
  }

  /** The entries of `q`, oldest first, that no later entry overrides. */
  function KeepLast(q: seq<Entry>): seq<Entry> {
    if q == [] then []
    else (if q[0].key in Keys(q[1..]) then [] else [q[0]]) + KeepLast(q[1..])
  }

  /** The sequences `animate` plays for queue `q`, in playing order. */
  function Played(q: seq<Entry>): seq<Entry> {
    Reversed(KeepLast(q))
  }

  lemma KeysCons(q: seq<Entry>)
    requires q != []
    ensures Keys(q) == {q[0].key} + Keys(q[1..])
  {
    forall k | k in Keys(q)
      ensures k in {q[0].key} + Keys(q[1..])
    {
      var i :| 0 <= i < |q| && q[i].key == k;
      if i > 0 {
        assert q[1..][i - 1].key == k;
      }
    }
  }

  /** An entry survives exactly when no later entry is for the same card. */
  lemma {:induction false} KeepLastMeaning(q: seq<Entry>)
    ensures forall e :: e in KeepLast(q) <==> exists i :: 0 <= i < |q| && q[i] == e && Kept(q, i)
  {
    if q != [] {
      var t := q[1..];
      KeepLastMeaning(t);
      forall e | e in KeepLast(q)
        ensures exists i :: 0 <= i < |q| && q[i] == e && Kept(q, i)
      {
        if e in KeepLast(t) {
          var i :| 0 <= i < |t| && t[i] == e && Kept(t, i);
          assert q[i + 1] == e;
          assert Kept(q, i + 1);
        } else {
          assert e == q[0] && q[0].key !in Keys(t);
          forall j | 0 < j < |q|
            ensures q[j].key != q[0].key
          {
            assert t[j - 1].key in Keys(t);
          }
          assert Kept(q, 0);
        }
      }
      forall e | exists i :: 0 <= i < |q| && q[i] == e && Kept(q, i)
        ensures e in KeepLast(q)
      {
        var i :| 0 <= i < |q| && q[i] == e && Kept(q, i);
        if i == 0 {
          forall j | 0 <= j < |t|
            ensures t[j].key != q[0].key
          {
            assert t[j] == q[j + 1];
          }
          assert q[0].key !in Keys(t);
        } else {
          assert t[i - 1] == e;
          assert Kept(t, i - 1);
        }
      }
    }
  }

  /** Surviving entries keep their relative order: of two survivors, the one
      listed first was queued first. */
  lemma {:induction false} KeepLastOrder(q: seq<Entry>, a: nat, b: nat)
    requires a < b < |KeepLast(q)|
    ensures exists i, j :: 0 <= i < j < |q| && q[i] == KeepLast(q)[a] && q[j] == KeepLast(q)[b]
  {
    var t := q[1..];
    var h := if q[0].key in Keys(t) then [] else [q[0]];
    assert KeepLast(q) == h + KeepLast(t);
    if h != [] && a == 0 {
      KeepLastMeaning(t);
      assert KeepLast(t)[b - 1] in KeepLast(t);
      var j :| 0 <= j < |t| && t[j] == KeepLast(t)[b - 1] && Kept(t, j);
      assert q[j + 1] == KeepLast(q)[b];
    } else {
      var a', b' := a - |h|, b - |h|;
      KeepLastOrder(t, a', b');
      var i, j :| 0 <= i < j < |t| && t[i] == KeepLast(t)[a'] && t[j] == KeepLast(t)[b'];
      assert q[i + 1] == KeepLast(q)[a] && q[j + 1] == KeepLast(q)[b];
    }
  }

  /** Every card in the queue keeps one surviving entry. */
  lemma {:induction false} KeepLastCovers(q: seq<Entry>)
    ensures Keys(KeepLast(q)) == Keys(q)
  {
    if q != [] {
      var t := q[1..];
      var h := if q[0].key in Keys(t) then [] else [q[0]];
      KeepLastCovers(t);
      KeysCons(q);
      assert KeepLast(q) == h + KeepLast(t);
      if h == [] {
        assert KeepLast(q) == KeepLast(t);
      } else {
        assert KeepLast(q) != [] && KeepLast(q)[1..] == KeepLast(t);
        KeysCons(KeepLast(q));
      }
    }
  }

  /** `animate` plays an entry exactly when it is the most recent one queued
      for its card. */
  lemma PlayedLatest(q: seq<Entry>)
    ensures forall e :: e in Played(q) <==> exists i :: 0 <= i < |q| && q[i] == e && Kept(q, i)
  {
    KeepLastMeaning(q);
    ReversedKeeps(KeepLast(q));
    forall e
      ensures e in Played(q) <==> e in KeepLast(q)
    {
      assert e in Played(q) <==> e in multiset(Played(q));
      assert e in KeepLast(q) <==> e in multiset(KeepLast(q));
    }
  }

  /** `animate` plays newest first: of two played entries, the one played
      first was queued later. */
  lemma PlayedNewestFirst(q: seq<Entry>, a: nat, b: nat)
    requires a < b < |Played(q)|
    ensures exists i, j :: 0 <= j < i < |q| && q[i] == Played(q)[a] && q[j] == Played(q)[b]
  {
    var n := |KeepLast(q)|;
    KeepLastOrder(q, n - 1 - b, n - 1 - a);
  }

  /** No two surviving entries are for the same card. */
  lemma {:induction false} KeepLastDistinct(q: seq<Entry>)
    ensures forall a, b :: 0 <= a < b < |KeepLast(q)| ==> KeepLast(q)[a].key != KeepLast(q)[b].key
  {
    if q != [] {
      var t := q[1..];
      var h := if q[0].key in Keys(t) then [] else [q[0]];
      KeepLastDistinct(t);
      assert KeepLast(q) == h + KeepLast(t);
      if h != [] {
        KeepLastCovers(t);
        forall b | 0 < b < |KeepLast(q)|
          ensures KeepLast(q)[b].key != q[0].key
        {
          assert KeepLast(t)[b - 1].key in Keys(KeepLast(t));
        }
      }
    }
  }

  /** Every card in the queue gets exactly one sequence played. */
  lemma PlayedOnce(q: seq<Entry>)
    ensures Keys(Played(q)) == Keys(q)
    ensures forall a, b :: 0 <= a < b < |Played(q)| ==> Played(q)[a].key != Played(q)[b].key
  {
    var p := Played(q);
    var kl := KeepLast(q);
    KeepLastCovers(q);
    KeepLastDistinct(q);
    forall k | k in Keys(kl)
      ensures k in Keys(p)
    {
      var i :| 0 <= i < |kl| && kl[i].key == k;
      assert p[|kl| - 1 - i] == kl[i];
    }
    forall k | k in Keys(p)
      ensures k in Keys(kl)
    {
      var i :| 0 <= i < |p| && p[i].key == k;
      assert kl[|kl| - 1 - i] == p[i];
    }
    forall a, b | 0 <= a < b < |p|
      ensures p[a].key != p[b].key
    {
      assert p[a] == kl[|kl| - 1 - a] && p[b] == kl[|kl| - 1 - b];
    }
  }

  /** `AnimationQueue`: sequences queued per card, played at once. */
  class AnimationQueue {
    var queue: seq<Entry>
    /** The sequences played so far, in playing order. */
    var played: seq<Entry>

    constructor ()
      ensures queue == [] && played == []
    {
      queue := [];
      played := [];
    }

    /** `add(k, seq)` queues a sequence for card `k`. */
    method Add(k: Key, anim: nat)
      modifies this
      ensures queue == old(queue) + [Entry(k, anim)]
      ensures played == old(played)
    {
      queue := queue + [Entry(k, anim)];
    }

    /** `animate()`: plays the sequences `Replay` picks, then empties the
        queue. */
    method Animate()
      modifies this
      ensures played == old(played) + Played(old(queue))
      ensures queue == []
    {
      var out := Replay(queue);
      played := played + out;
      queue := [];
    }
  }

  /** The loop of `animate`: walks the queue from its newest entry back and
      takes each card's first sequence met, skipping the card afterwards. */
  method Replay(q: seq<Entry>) returns (out: seq<Entry>)
    ensures out == Played(q)
  {
    out := [];
    var cards: set<Key> := {};
    var i := |q|;
    while i > 0
      invariant 0 <= i <= |q|
      invariant cards == Keys(q[i..])
      invariant out == Reversed(KeepLast(q[i..]))
    {
      i := i - 1;
      var t := q[i..];
      assert t[1..] == q[i + 1..];
      KeysCons(t);
      if q[i].key !in cards {
        ReversedFrom([q[i]] + KeepLast(q[i + 1..]), 0);
        assert ([q[i]] + KeepLast(q[i + 1..]))[1..] == KeepLast(q[i + 1..]);
        out := out + [q[i]];
      } else {
        assert KeepLast(t) == [] + KeepLast(q[i + 1..]);
      }
      cards := cards + {q[i].key};
    }
    assert q[0..] == q;
  }

  /** `v_offset(cards)`: the vertical spacing of a tableau pile of `n`
      cards, shrinking linearly from `hi` for an empty pile to `lo` for 19
      cards. */
  function VOffset(n: int, lo: real, hi: real): real {
    (1.0 - n as real / 19.0) * (hi - lo) + lo
  }

  /** The spacing is `hi` for no cards and `lo` for 19. */
  lemma VOffsetEnds(lo: real, hi: real)
    ensures VOffset(0, lo, hi) == hi
    ensures VOffset(19, lo, hi) == lo
  {
  }

  /** With `lo <= hi`, more cards never get more spacing. */
  lemma VOffsetShrinks(n: int, m: int, lo: real, hi: real)
    requires lo <= hi && n <= m
    ensures VOffset(m, lo, hi) <= VOffset(n, lo, hi)
  {
    var d := hi - lo;
    assert (m as real - n as real) / 19.0 * d >= 0.0;
    calc {
      VOffset(n, lo, hi) - VOffset(m, lo, hi);
      (m as real / 19.0 - n as real / 19.0) * d;
      (m as real - n as real) / 19.0 * d;
    }
  }

  /** A card's scene node. */
  class CardNode {
    /** `location.card_id`: the card's place in its pile. */
    const cardId: int
    var depth: int
    var pos: Point

    constructor (cardId: int, depth: int, pos: Point)
      ensures this.cardId == cardId && this.depth == depth && this.pos == pos
    {
      this.cardId := cardId;
      this.depth := depth;
      this.pos := pos;
    }
  }

  /** Every key in `kids` names a card. */
  predicate Known(cards: map<Key, CardNode>, kids: seq<Key>) {
    forall i :: 0 <= i < |kids| ==> kids[i] in cards
  }

  /** The nodes of the cards under `kids`, in order. */
  function Lookup(cards: map<Key, CardNode>, kids: seq<Key>): (r: seq<CardNode>)
    requires Known(cards, kids)
    ensures |r| == |kids| && forall i :: 0 <= i < |kids| ==> r[i] == cards[kids[i]]
    ensures forall n | n in r :: n in cards.Values
  {
    seq(|kids|, i requires 0 <= i < |kids| => cards[kids[i]])
  }

  /** The depth of card `k` after a drag of `drag` with children `kids` that
      had depth `before`: the dragged card goes to 200 and child `i` to
      201 + i, a later assignment to the same card overriding an earlier one. */
  function DragDepth(drag: Key, kids: seq<Key>, k: Key, before: int): int {
    var j := LastIndexOf(kids, k);
    if j != -1 then 201 + j else if k == drag then 200 else before
  }

  /** For a drag whose children are distinct cards other than the dragged
      one, the dragged card lies at depth 200, child `i` at 201 + i, and
      every other card where it was. */
  lemma DragDepthMeaning(drag: Key, kids: seq<Key>, before: int)
    requires drag !in kids
    requires forall a, b :: 0 <= a < b < |kids| ==> kids[a] != kids[b]
    ensures DragDepth(drag, kids, drag, before) == 200
    ensures forall i :: 0 <= i < |kids| ==> DragDepth(drag, kids, kids[i], before) == 201 + i
    ensures forall k :: k != drag && k !in kids ==> DragDepth(drag, kids, k, before) == before
  {
    forall i | 0 <= i < |kids|
      ensures DragDepth(drag, kids, kids[i], before) == 201 + i
    {
      LastIndexOfDistinct(kids, i);
    }
  }

  /** The point `n` spacings of `v` below `origin`: `origin + n * (0, v)`. */
  function Below(origin: Point, n: nat, v: real): Point {
    (origin.0, origin.1 + n as real * v)
  }

  /** The position of node `n` after the drag task placed `children` below
      `origin` at spacing `v`, when it was at `before`. */
  function DragPos(children: seq<CardNode>, n: CardNode, origin: Point, v: real, before: Point): Point {
    var j := LastIndexOf(children, n);
    if j != -1 then Below(origin, j + 1, v) else before
  }

  /** With distinct child nodes, child `i` sits `i + 1` spacings below the
      dragged card, and every other node stays put. */
  lemma DragPosMeaning(children: seq<CardNode>, origin: Point, v: real, before: Point)
    requires forall a, b :: 0 <= a < b < |children| ==> children[a] != children[b]
    ensures forall i :: 0 <= i < |children| ==>
      DragPos(children, children[i], origin, v, before) == Below(origin, i + 1, v)
    ensures forall n :: n !in children ==> DragPos(children, n, origin, v, before) == before
  {
    forall i | 0 <= i < |children|
      ensures DragPos(children, children[i], origin, v, before) == Below(origin, i + 1, v)
    {
      LastIndexOfDistinct(children, i);
    }
  }

  /** Whether node `n` is one `on_drop` resets: the dragged card and its
      children, if any. */
  predicate Dropped(drag: Option<CardNode>, children: Option<seq<CardNode>>, n: CardNode) {
    (drag.Some? && n == drag.value) || (children.Some? && n in children.value)
  }

  /** The drag-and-drop part of `TableLayout`: the cards' nodes by key and
      the `DragInfo` record. */
  class Layout {
    const cards: map<Key, CardNode>
    /** `_v_offset`: the spacing bounds (lo, hi) set by the layout. */
    const lo: real
    const hi: real
    var active: bool
    var dragCard: Option<CardNode>
    var childCards: Option<seq<CardNode>>
    var vOffset: real

    /** Each card has its own node, and the drag record refers only to them. */
    ghost predicate Valid()
      reads this
    {
      (forall k, l | k in cards && l in cards && k != l :: cards[k] != cards[l]) &&
      (dragCard.Some? ==> dragCard.value in cards.Values) &&
      (childCards.Some? ==> dragCard.Some? && forall n | n in childCards.value :: n in cards.Values)
    }

    constructor (cards: map<Key, CardNode>, lo: real, hi: real)
      requires forall k, l | k in cards && l in cards && k != l :: cards[k] != cards[l]
      ensures this.cards == cards && this.lo == lo && this.hi == hi
      ensures !active && dragCard == None && childCards == None && vOffset == 0.0
      ensures Valid()
    {
      this.cards := cards;
      this.lo := lo;
      this.hi := hi;
      active := false;
      dragCard := None;
      childCards := None;
      vOffset := 0.0;
    }

    /** `on_drag(drag_card, child_cards, pile_size)`, an empty `kids` standing
        for both `None` and `[]`. The drag becomes active first; an unknown
        dragged card then raises `KeyError`, and so does an unknown child,
        after the dragged card has been raised to depth 200. On success the
        children's nodes are recorded (`None` when there are none), the
        spacing is taken for `pileSize` cards and the depths are set as
        `DragDepth` says. No position changes. */
    method OnDrag(drag: Key, kids: seq<Key>, pileSize: int) returns (st: Status)
      requires Valid()
      modifies this, cards.Values
      ensures Valid() && active
      ensures forall k | k in cards :: cards[k].pos == old(cards[k].pos)
      ensures drag !in cards ==>
        st == Raised(KeyError) && dragCard == old(dragCard) && childCards == old(childCards) &&
        vOffset == old(vOffset) && forall k | k in cards :: cards[k].depth == old(cards[k].depth)
      ensures drag in cards && !Known(cards, kids) ==>
        st == Raised(KeyError) && dragCard == Some(cards[drag]) && childCards == old(childCards) &&
        vOffset == old(vOffset) && forall k | k in cards :: cards[k].depth == DragDepth(drag, [], k, old(cards[k].depth))
      ensures drag in cards && Known(cards, kids) ==>
        st == Done && dragCard == Some(cards[drag]) &&
        childCards == (if kids == [] then None else Some(Lookup(cards, kids))) &&
        vOffset == (if kids == [] then old(vOffset) else VOffset(pileSize, lo, hi)) &&
        forall k | k in cards :: cards[k].depth == DragDepth(drag, kids, k, old(cards[k].depth))
    {
      active := true;
      if drag !in cards {
        return Raised(KeyError);
      }
      assert cards[drag] in cards.Values;
      dragCard := Some(cards[drag]);
      RaiseDrag(drag);
      if kids == [] {
        childCards := None;
        return Done;
      }
      if !Known(cards, kids) {
        return Raised(KeyError);
      }
      var nodes := Lookup(cards, kids);
      childCards := Some(nodes);
      vOffset := VOffset(pileSize, lo, hi);
      SetDepths(drag, kids, nodes);
      st := Done;
    }

    /** `on_drag` lifting the dragged card to depth 200. */
    method RaiseDrag(drag: Key)
      requires forall k, l | k in cards && l in cards && k != l :: cards[k] != cards[l]
      requires drag in cards
      modifies cards.Values
      ensures forall k | k in cards :: cards[k].pos == old(cards[k].pos)
      ensures forall k | k in cards :: cards[k].depth == DragDepth(drag, [], k, old(cards[k].depth))
    {
      cards[drag].depth := 200;
    }

    /** The loop of `on_drag` that stacks the children above the dragged
        card. */
    method SetDepths(drag: Key, kids: seq<Key>, nodes: seq<CardNode>)
      requires forall k, l | k in cards && l in cards && k != l :: cards[k] != cards[l]
      requires drag in cards && cards[drag].depth == 200
      requires Known(cards, kids)
      requires nodes == Lookup(cards, kids)
      modifies cards.Values
      ensures forall k | k in cards :: cards[k].pos == old(cards[k].pos)
      ensures forall k | k in cards :: cards[k].depth == DragDepth(drag, kids, k, old(cards[k].depth))
    {
      var i := 0;
      while i < |nodes|
        invariant 0 <= i <= |nodes|
        invariant forall k | k in cards :: cards[k].pos == old(cards[k].pos)
        invariant forall k | k in cards :: cards[k].depth == DragDepth(drag, kids[..i], k, old(cards[k].depth))
      {
        assert kids[..i + 1] == kids[..i] + [kids[i]];
        forall k | k in cards
          ensures DragDepth(drag, kids[..i + 1], k, old(cards[k].depth)) ==
            if k == kids[i] then 201 + i else DragDepth(drag, kids[..i], k, old(cards[k].depth))
        {
          LastIndexOfAppend(kids[..i], kids[i], k);
        }
        nodes[i].depth := 201 + i;
        i := i + 1;
      }
      assert kids[..i] == kids;
    }

    /** `on_drop()`: nothing happens unless a drag is active. Otherwise the
        drag ends and the dragged card and its children return to the depth
        of their place in the pile; with no dragged card on record the reset
        fails with `AttributeError` after the drag has ended. */
    method OnDrop() returns (st: Status)
      requires Valid()
      modifies this, cards.Values
      ensures Valid()
      ensures !active && dragCard == old(dragCard) && childCards == old(childCards) && vOffset == old(vOffset)
      ensures forall k | k in cards :: cards[k].pos == old(cards[k].pos)
      ensures !old(active) ==> st == Done && forall k | k in cards :: cards[k].depth == old(cards[k].depth)
      ensures old(active) && dragCard == None ==>
        st == Raised(AttributeError) && forall k | k in cards :: cards[k].depth == old(cards[k].depth)
      ensures old(active) && dragCard != None ==> st == Done && forall k | k in cards ::
        cards[k].depth == if Dropped(dragCard, childCards, cards[k]) then cards[k].cardId else old(cards[k].depth)
    {
      if !active {
        return Done;
      }
      active := false;
      if dragCard == None {
        return Raised(AttributeError);
      }
      var nodes := [dragCard.value];
      if childCards.Some? && childCards.value != [] {
        nodes := nodes + childCards.value;
      }
      assert forall n :: n in nodes <==> Dropped(dragCard, childCards, n);
      ResetDepths(nodes);
      st := Done;
    }

    /** The loop of `on_drop` over the nodes to reset. */
    method ResetDepths(nodes: seq<CardNode>)
      requires forall n | n in nodes :: n in cards.Values
      modifies cards.Values
      ensures forall k | k in cards :: cards[k].pos == old(cards[k].pos)
      ensures forall k | k in cards ::
        cards[k].depth == if cards[k] in nodes then cards[k].cardId else old(cards[k].depth)
    {
      var i := 0;
      while i < |nodes|
        invariant 0 <= i <= |nodes|
        invariant forall k | k in cards :: cards[k].pos == old(cards[k].pos)
        invariant forall k | k in cards ::
          cards[k].depth == if cards[k] in nodes[..i] then cards[k].cardId else old(cards[k].depth)
      {
        assert nodes[..i + 1] == nodes[..i] + [nodes[i]];
        nodes[i].depth := nodes[i].cardId;
        i := i + 1;
      }
      assert nodes[..i] == nodes;
    }

    /** `_drag_task()`: while a drag with children is active, child `i` is
        placed `i + 1` spacings below the dragged card's position; otherwise
        nothing moves. Depths never change. */
    method DragTask()
      requires Valid()
      modifies cards.Values
      ensures forall k | k in cards :: cards[k].depth == old(cards[k].depth)
      ensures !active || childCards == None || childCards.value == [] ==>
        forall k | k in cards :: cards[k].pos == old(cards[k].pos)
      ensures active && childCards != None && childCards.value != [] ==> forall k | k in cards ::
        cards[k].pos == DragPos(childCards.value, cards[k], old(dragCard.value.pos), vOffset, old(cards[k].pos))
    {
      if !active || childCards == None || childCards.value == [] {
        return;
      }
      PlaceChildren(childCards.value, dragCard.value.pos, vOffset);
    }

    /** The loop of `_drag_task` that lines the children up below `origin`
        at spacing `v`. */
    method PlaceChildren(children: seq<CardNode>, origin: Point, v: real)
      requires forall n | n in children :: n in cards.Values
      modifies cards.Values
      ensures forall k | k in cards :: cards[k].depth == old(cards[k].depth)
      ensures forall k | k in cards ::
        cards[k].pos == DragPos(children, cards[k], origin, v, old(cards[k].pos))
    {
      var i := 0;
      while i < |children|
        invariant 0 <= i <= |children|
        invariant forall k | k in cards :: cards[k].depth == old(cards[k].depth)
        invariant forall k | k in cards ::
          cards[k].pos == DragPos(children[..i], cards[k], origin, v, old(cards[k].pos))
      {
        assert children[..i + 1] == children[..i] + [children[i]];
        forall k | k in cards
          ensures DragPos(children[..i + 1], cards[k], origin, v, old(cards[k].pos)) ==
            if cards[k] == children[i] then Below(origin, i + 1, v)
            else DragPos(children[..i], cards[k], origin, v, old(cards[k].pos))
        {
          LastIndexOfAppend(children[..i], children[i], cards[k]);
        }
        children[i].pos := Below(origin, i + 1, v);
        i := i + 1;
      }
      assert children[..i] == children;
    }
  }
}

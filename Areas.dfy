/** Areas of the table (pyos/area.py): a fixed number of piles of one kind,
    with the tableau (pyos/tableau.py, seven tableau piles) and the foundation
    (pyos/foundation.py, four foundation piles) as its two instances. The
    search for a pile that accepts a card and the tableau's pile moves are
    specified by functions on the piles' contents. */
module Areas {
  import opened Outcomes
  import opened Cards
  import opened Piles
  import opened Py
  import opened SeqFacts

  /** `range(n)` */
  function Range(n: nat): (r: seq<nat>)
    ensures |r| == n
    ensures forall i :: 0 <= i < n ==> r[i] == i
  {
    seq(n, i requires 0 <= i => i)
  }

  /** The piles tried: all of `range(n)`, or only the requested one. */
  function Candidates(n: nat, pos: Option<nat>): (r: seq<nat>)
    ensures pos.None? ==> r == Range(n)
    ensures pos.Some? ==> r == [pos.value]
  {
    if pos.None? then Range(n) else [pos.value]
  }

  /** Candidate `k` of the scan is passed over: it is the skipped pile, or an
      existing pile that does not accept `c`. */
  predicate PassedOver(kind: Kind, ps: seq<seq<Card>>, cands: seq<nat>, skip: Option<nat>, c: Card, k: int)
    requires 0 <= k < |cands|
  {
    skip == Some(cands[k]) || (cands[k] < |ps| && !Accepted(kind, ps[cands[k]], c))
  }

  /** The search loop shared by `add_card` and `move_pile`: the first
      candidate, in order, that is not `skip` and whose pile accepts `c`; -1
      when there is none; a candidate past the last pile raises `IndexError`. */
  function Scan(kind: Kind, ps: seq<seq<Card>>, cands: seq<nat>, skip: Option<nat>, c: Card): (r: Result<int>)
    decreases |cands|
  {
    if cands == [] then Ok(-1)
    else if skip == Some(cands[0]) then Scan(kind, ps, cands[1..], skip, c)
    else if cands[0] >= |ps| then Err(IndexError)
    else if Accepted(kind, ps[cands[0]], c) then Ok(cands[0])
    else Scan(kind, ps, cands[1..], skip, c)
  }

  /** What the scan finds: an accepting pile with every earlier candidate
      passed over; -1 exactly when every candidate is passed over; an
      `IndexError` only at a candidate past the last pile. */
  lemma {:induction false} ScanMeaning(kind: Kind, ps: seq<seq<Card>>, cands: seq<nat>, skip: Option<nat>, c: Card)
    ensures var r := Scan(kind, ps, cands, skip, c);
      r.Ok? && r.value >= 0 ==>
        exists j :: 0 <= j < |cands| && cands[j] == r.value && skip != Some(r.value) &&
          r.value < |ps| && Accepted(kind, ps[r.value], c) &&
          forall k :: 0 <= k < j ==> PassedOver(kind, ps, cands, skip, c, k)
    ensures Scan(kind, ps, cands, skip, c) == Ok(-1) <==>
      forall k :: 0 <= k < |cands| ==> PassedOver(kind, ps, cands, skip, c, k)
    ensures Scan(kind, ps, cands, skip, c).Err? ==>
      Scan(kind, ps, cands, skip, c).error == IndexError && exists k :: 0 <= k < |cands| && cands[k] >= |ps|
    ensures Scan(kind, ps, cands, skip, c).Ok? ==> Scan(kind, ps, cands, skip, c).value >= -1
  {
    if cands != [] {
      var rest := cands[1..];
      ScanMeaning(kind, ps, rest, skip, c);
      assert forall k :: 0 < k < |cands| ==> cands[k] == rest[k - 1];
      var allRest := forall k :: 0 <= k < |rest| ==> PassedOver(kind, ps, rest, skip, c, k);
      var allCands := forall k :: 0 <= k < |cands| ==> PassedOver(kind, ps, cands, skip, c, k);
      var r := Scan(kind, ps, cands, skip, c);
      if PassedOver(kind, ps, cands, skip, c, 0) {
        assert r == Scan(kind, ps, rest, skip, c);
        if allRest {
          forall k | 0 <= k < |cands|
            ensures PassedOver(kind, ps, cands, skip, c, k)
          {
            if k > 0 {
              assert PassedOver(kind, ps, rest, skip, c, k - 1);
            }
          }
        }
        if allCands {
          forall k | 0 <= k < |rest|
            ensures PassedOver(kind, ps, rest, skip, c, k)
          {
            assert PassedOver(kind, ps, cands, skip, c, k + 1);
          }
        }
        if r.Ok? && r.value >= 0 {
          var j :| 0 <= j < |rest| && rest[j] == r.value && skip != Some(r.value) &&
            r.value < |ps| && Accepted(kind, ps[r.value], c) &&
            forall k :: 0 <= k < j ==> PassedOver(kind, ps, rest, skip, c, k);
          assert cands[j + 1] == r.value;
          forall k | 0 <= k < j + 1
            ensures PassedOver(kind, ps, cands, skip, c, k)
          {
            if k > 0 {
              assert PassedOver(kind, ps, rest, skip, c, k - 1);
            }
          }
        }
        if r.Err? {
          var k :| 0 <= k < |rest| && rest[k] >= |ps|;
          assert cands[k + 1] >= |ps|;
        }
      } else {
        assert r != Ok(-1);
        assert !allCands;
      }
    }
  }

  /** Scanning all existing piles never raises. */
  lemma {:induction false} ScanInRange(kind: Kind, ps: seq<seq<Card>>, cands: seq<nat>, skip: Option<nat>, c: Card)
    ensures (forall k :: 0 <= k < |cands| ==> cands[k] < |ps|) ==> Scan(kind, ps, cands, skip, c).Ok?
  {
    if cands != [] {
      ScanInRange(kind, ps, cands[1..], skip, c);
    }
  }

  /** Python's `s[-n:]`: the cards a move of `n` takes from the source. */
  function MoveTail(s: seq<Card>, n: int): (r: seq<Card>)
    ensures n >= 0 && n <= |s| && n > 0 ==> r == s[|s| - n..]
  {
    s[SliceStart(|s|, -n)..]
  }

  /** How many pops `range(n)` performs. */
  function Pops(n: int): nat {
    if n > 0 then n else 0
  }

  /** The piles after moving `n` cards from pile `f` to pile `d`: the tail is
      appended to the destination, then the source is popped `n` times. */
  function MovePiles(ps: seq<seq<Card>>, f: nat, d: nat, n: int): (r: seq<seq<Card>>)
    requires f < |ps| && d < |ps| && f != d && Pops(n) <= |ps[f]|
    ensures |r| == |ps|
    ensures r[d] == ps[d] + MoveTail(ps[f], n)
    ensures r[f] == ps[f][..|ps[f]| - Pops(n)]
    ensures forall k :: 0 <= k < |ps| && k != f && k != d ==> r[k] == ps[k]
  {
    ps[d := ps[d] + MoveTail(ps[f], n)][f := ps[f][..|ps[f]| - Pops(n)]]
  }

  /** `Tableau.move_pile(from, n, to)`: the value returned or the exception
      raised. */
  function MoveResult(ps: seq<seq<Card>>, from: nat, n: int, to: Option<nat>): (r: Result<int>)
    ensures to == Some(from) ==> r == Err(ValueError)
    ensures to != Some(from) && from < |ps| && ps[from] == [] ==> r == Ok(-1)
    ensures r.Err? ==> r.error == ValueError || r.error == IndexError
    ensures r.Ok? ==> r.value >= -1
    ensures to.None? && |ps| == 7 ==> r.Ok? || r == Err(IndexError)
  {
    if to == Some(from) then Err(ValueError)
    else if from >= |ps| then Err(IndexError)
    else if ps[from] == [] then Ok(-1)
    else match PyIndex(|ps[from]|, -n)
      case None => Err(IndexError)
      case Some(k) =>
        ScanMeaning(TableauPile, ps, Candidates(7, to), Some(from), ps[from][k]);
        ScanInRange(TableauPile, ps, Candidates(7, to), Some(from), ps[from][k]);
        Scan(TableauPile, ps, Candidates(7, to), Some(from), ps[from][k])
  }

  /** A move whose check card exists takes at most the whole source pile. */
  lemma PopsFit(s: seq<Card>, n: int)
    requires PyIndex(|s|, -n).Some?
    ensures Pops(n) <= |s|
    ensures MoveTail(s, n) != []
  {
  }

  /** The tableau after `move_pile(from, n, to)`. */
  function MoveApply(ps: seq<seq<Card>>, from: nat, n: int, to: Option<nat>): (r: seq<seq<Card>>)
    ensures MoveResult(ps, from, n, to) == Ok(-1) ==> r == ps
    ensures MoveResult(ps, from, n, to).Err? ==> r == ps
  {
    var res := MoveResult(ps, from, n, to);
    if res.Ok? && res.value >= 0 then
      ScanMeaning(TableauPile, ps, Candidates(7, to), Some(from), ps[from][PyIndex(|ps[from]|, -n).value]);
      PopsFit(ps[from], n);
      MovePiles(ps, from, res.value, n)
    else ps
  }

  /** A successful tableau move of `n > 0` cards returns a pile other than
      the source that accepts the card `n` from the top; the top `n` cards
      move onto it in order, the source loses exactly them and no other pile
      changes. */
  lemma MoveTarget(ps: seq<seq<Card>>, from: nat, n: int, to: Option<nat>)
    requires 0 < n
    requires MoveResult(ps, from, n, to).Ok? && MoveResult(ps, from, n, to).value >= 0
    ensures var d, s := MoveResult(ps, from, n, to).value, ps[from];
      d < |ps| && d != from && n <= |s| &&
      (to.Some? ==> d == to.value) &&
      Accepted(TableauPile, ps[d], s[|s| - n]) &&
      MoveApply(ps, from, n, to)[d] == ps[d] + s[|s| - n..] &&
      MoveApply(ps, from, n, to)[from] == s[..|s| - n] &&
      forall k :: 0 <= k < |ps| && k != from && k != d ==> MoveApply(ps, from, n, to)[k] == ps[k]
  {
    var s := ps[from];
    ScanMeaning(TableauPile, ps, Candidates(7, to), Some(from), s[|s| - n]);
  }

  /** Moving `n > 0` cards between two piles keeps the multiset of all
      cards. */
  lemma MovePilesConserves(ps: seq<seq<Card>>, f: nat, d: nat, n: int)
    requires f < |ps| && d < |ps| && f != d && 0 < n <= |ps[f]|
    ensures Flat(MovePiles(ps, f, d, n)) == Flat(ps)
  {
    var s := ps[f];
    var front, tail := s[..|s| - n], s[|s| - n..];
    var grown := ps[d := ps[d] + tail];
    assert MovePiles(ps, f, d, n) == grown[f := front] by {
      assert MoveTail(s, n) == tail && Pops(n) == n;
    }
    FlatUpdate(ps, d, ps[d] + tail);
    FlatUpdate(grown, f, front);
    MultisetAppend(ps[d], tail);
    TakeDrop(s, |s| - n);
    MultisetAppend(front, tail);
    assert grown[f] == s;
    ghost var b0, b1, b2 := Flat(ps), Flat(grown), Flat(grown[f := front]);
    ghost var mt, mf, md := multiset(tail), multiset(front), multiset(ps[d]);
    assert b1 + md == (b0 + mt) + md;
    MultisetCancel(b1, b0 + mt, md);
    assert b2 + (mf + mt) == b0 + (mf + mt);
    MultisetCancel(b2, b0, mf + mt);
  }

  /** A tableau move of `n > 0` cards neither creates nor loses a card. */
  lemma MoveConserves(ps: seq<seq<Card>>, from: nat, n: int, to: Option<nat>)
    requires 0 < n
    ensures Flat(MoveApply(ps, from, n, to)) == Flat(ps)
  {
    var r := MoveResult(ps, from, n, to);
    if r.Ok? && r.value >= 0 {
      MoveTarget(ps, from, n, to);
      MovePilesConserves(ps, from, r.value, n);
    }
  }

  /** `Tableau.move_pile_force(from, n, to)`: `ValueError` for equal piles,
      `IndexError` for a missing pile or a source with fewer than `n` cards
      (or an empty one); otherwise the move is made without validation. */
  function ForceResult(ps: seq<seq<Card>>, from: nat, n: int, to: nat): (r: Status)
    ensures r == Done ==> from < |ps| && to < |ps| && from != to && Pops(n) <= |ps[from]|
  {
    if from == to then Raised(ValueError)
    else if from >= |ps| || PyIndex(|ps[from]|, -n).None? then Raised(IndexError)
    else if to >= |ps| then Raised(IndexError)
    else PopsFit(ps[from], n); Done
  }

  /** `flip(pile)` on the contents: `Ok(true)` exactly when the pile exists and
      its top card lies face down. */
  function FlipResult(ps: seq<seq<Card>>, pile: nat): (r: Result<bool>)
    ensures r.Err? <==> pile >= |ps|
    ensures r == Ok(true) <==> pile < |ps| && ps[pile] != [] && !ps[pile][|ps[pile]| - 1].visible
  {
    if pile >= |ps| then Err(IndexError)
    else Ok(ps[pile] != [] && !ps[pile][|ps[pile]| - 1].visible)
  }

  /** The pile with its top card turned face up. */
  function FlipTop(s: seq<Card>): (r: seq<Card>)
    requires s != []
    ensures |r| == |s| && r[..|s| - 1] == s[..|s| - 1]
    ensures r[|s| - 1].suit == s[|s| - 1].suit && r[|s| - 1].value == s[|s| - 1].value
    ensures r[|s| - 1].visible
  {
    s[|s| - 1 := s[|s| - 1].(visible := true)]
  }

  /** A successful flip cannot be repeated: the second flip returns False. */
  lemma FlipOnce(ps: seq<seq<Card>>, pile: nat)
    requires FlipResult(ps, pile) == Ok(true)
    ensures FlipResult(ps[pile := FlipTop(ps[pile])], pile) == Ok(false)
  {
  }

  /** An area: `numPiles` piles of one kind, pile `i` created with position
      `i`. The piles are distinct objects, so changing one leaves the others
      alone. */
  class Area {
    const kind: Kind
    const numPiles: nat
    var piles: seq<Pile>

    ghost predicate Valid()
      reads this
    {
      |piles| == numPiles &&
      (forall i :: 0 <= i < |piles| ==> piles[i].kind == kind && piles[i].pos == i) &&
      (forall i, j :: 0 <= i < j < |piles| ==> piles[i] != piles[j])
    }

    /** The `piles` property: the card lists of all piles. */
    function Piles(): (r: seq<seq<Card>>)
      reads this, piles
      ensures |r| == |piles|
      ensures forall i :: 0 <= i < |piles| ==> r[i] == piles[i].cards
    {
      seq(|piles|, i requires 0 <= i < |piles| reads this, piles => piles[i].cards)
    }

    /** `[pile_type(i) for i in range(num_piles)]` */
    static method NewPiles(kind: Kind, numPiles: nat) returns (ps: seq<Pile>)
      ensures |ps| == numPiles
      ensures forall i :: 0 <= i < numPiles ==> fresh(ps[i])
      ensures forall i :: 0 <= i < numPiles ==> ps[i].kind == kind && ps[i].pos == i && ps[i].cards == []
      ensures forall i, j :: 0 <= i < j < numPiles ==> ps[i] != ps[j]
    {
      ps := [];
      for i := 0 to numPiles
        invariant |ps| == i
        invariant forall k :: 0 <= k < i ==> fresh(ps[k])
        invariant forall k :: 0 <= k < i ==> ps[k].kind == kind && ps[k].pos == k && ps[k].cards == []
        invariant forall k, j :: 0 <= k < j < i ==> ps[k] != ps[j]
      {
        var p := new Pile(kind, i);
        ps := ps + [p];
      }
    }

    /** `Area(pile_type, num_piles)`: `num_piles` empty piles. */
    constructor (kind: Kind, numPiles: nat)
      ensures Valid() && this.kind == kind && this.numPiles == numPiles
      ensures Piles() == seq(numPiles, _ => [])
      ensures forall i :: 0 <= i < |piles| ==> fresh(piles[i])
    {
      this.kind := kind;
      this.numPiles := numPiles;
      new;
      piles := NewPiles(kind, numPiles);
    }

    /** `Tableau()`: seven empty tableau piles. */
    constructor Tableau()
      ensures Valid() && kind == TableauPile && numPiles == 7
      ensures Piles() == seq(7, _ => [])
      ensures forall i :: 0 <= i < |piles| ==> fresh(piles[i])
    {
      kind := TableauPile;
      numPiles := 7;
      new;
      piles := NewPiles(TableauPile, 7);
    }

    /** `Foundation()`: four empty foundation piles. */
    constructor Foundation()
      ensures Valid() && kind == FoundationPile && numPiles == 4
      ensures Piles() == seq(4, _ => [])
      ensures forall i :: 0 <= i < |piles| ==> fresh(piles[i])
    {
      kind := FoundationPile;
      numPiles := 4;
      new;
      piles := NewPiles(FoundationPile, 4);
    }

    /** `reset`: replaces the piles by fresh empty ones. */
    method Reset()
      requires Valid()
      modifies this`piles
      ensures Valid()
      ensures Piles() == seq(numPiles, _ => [])
      ensures forall i :: 0 <= i < |piles| ==> fresh(piles[i])
    {
      piles := NewPiles(kind, numPiles);
    }

    /** `add_card_force(card, pos)`: adds to pile `pos` without validation. */
    method AddCardForce(c: Card, pos: nat) returns (s: Status)
      requires Valid()
      modifies piles
      ensures s == if pos < |piles| then Done else Raised(IndexError)
      ensures Piles() == if pos < |piles| then old(Piles())[pos := old(Piles())[pos] + [c]] else old(Piles())
    {
      if pos >= |piles| {
        return Raised(IndexError);
      }
      piles[pos].Add(c);
      return Done;
    }

    /** `add_card(card, pos)`: adds the card to the first pile, in order (or
        only `pos`), that accepts it and returns that pile's index, or -1. */
    method AddCard(c: Card, pos: Option<nat>) returns (r: Result<int>)
      requires Valid()
      modifies piles
      ensures r == Scan(kind, old(Piles()), Candidates(numPiles, pos), None, c)
      ensures r.Ok? && r.value >= 0 ==> r.value < |piles|
      ensures Piles() == if r.Ok? && r.value >= 0 then old(Piles())[r.value := old(Piles())[r.value] + [c]] else old(Piles())
    {
      var cands := Candidates(numPiles, pos);
      for k := 0 to |cands|
        invariant Scan(kind, Piles(), cands, None, c) == Scan(kind, Piles(), cands[k..], None, c)
      {
        assert cands[k..][1..] == cands[k + 1..];
        var p := cands[k];
        if p >= |piles| {
          return Err(IndexError);
        }
        if piles[p].Accepts(c) {
          piles[p].Add(c);
          return Ok(p);
        }
      }
      return Ok(-1);
    }

    /** `remove(pile)`: pops the top card of the pile; a missing or empty pile
        raises `IndexError`. */
    method Remove(pile: nat) returns (s: Status)
      requires Valid()
      modifies piles
      ensures s == if pile < |piles| && old(Piles())[pile] != [] then Done else Raised(IndexError)
      ensures s == Done ==> Piles() == old(Piles())[pile := old(Piles())[pile][..|old(Piles())[pile]| - 1]]
      ensures s != Done ==> Piles() == old(Piles())
    {
      if pile >= |piles| {
        return Raised(IndexError);
      }
      s := piles[pile].Remove();
    }

    /** `top_card(pile)` */
    function TopCard(pile: nat): (r: Result<Option<Card>>)
      reads this, piles
      ensures r.Err? <==> pile >= |piles|
      ensures r.Ok? ==> (r.value.None? <==> piles[pile].cards == [])
      ensures r.Ok? && r.value.Some? ==> r.value.value == Piles()[pile][|Piles()[pile]| - 1]
    {
      if pile >= |piles| then Err(IndexError) else Ok(piles[pile].TopCard())
    }

    /** `isstart`: every pile is in its start state. */
    method IsStart() returns (r: bool)
      requires Valid()
      ensures r <==> forall i :: 0 <= i < |piles| ==> StartState(kind, i, Piles()[i])
    {
      for i := 0 to |piles|
        invariant forall k :: 0 <= k < i ==> StartState(kind, k, Piles()[k])
      {
        var s := piles[i].IsStart();
        assert Piles()[i] == piles[i].cards;
        if !s {
          return false;
        }
      }
      return true;
    }

    /** The card-moving loops shared by both tableau moves. */
    method MoveCards(f: nat, d: nat, n: int)
      requires Valid() && f < |piles| && d < |piles| && f != d
      requires PyIndex(|piles[f].cards|, -n).Some?
      modifies piles[f], piles[d]
      ensures Pops(n) <= |old(Piles())[f]|
      ensures Piles() == MovePiles(old(Piles()), f, d, n)
    {
      PopsFit(piles[f].cards, n);
      var source, target := piles[f], piles[d];
      var moving := MoveTail(source.cards, n);
      for i := 0 to |moving|
        modifies target
        invariant target.cards == old(target.cards) + moving[..i]
      {
        assert moving[..i + 1] == moving[..i] + [moving[i]];
        target.Add(moving[i]);
      }
      assert moving[..|moving|] == moving;
      ghost var len := |source.cards|;
      for j := 0 to Pops(n)
        modifies source
        invariant source.cards == old(source.cards)[..len - j]
      {
        var _ := source.Remove();
      }
    }

    /** `Tableau.move_pile(from, n, to)` */
    method MovePile(from: nat, n: int, to: Option<nat>) returns (r: Result<int>)
      requires Valid() && kind == TableauPile
      modifies piles
      ensures r == MoveResult(old(Piles()), from, n, to)
      ensures Piles() == MoveApply(old(Piles()), from, n, to)
    {
      if to == Some(from) {
        return Err(ValueError);
      }
      if from >= |piles| {
        return Err(IndexError);
      }
      if piles[from].cards == [] {
        return Ok(-1);
      }
      var check := piles[from].Get(-n);
      if check.Err? {
        return Err(IndexError);
      }
      var cands := Candidates(7, to);
      ghost var ps := Piles();
      for k := 0 to |cands|
        invariant Piles() == ps
        invariant Scan(kind, ps, cands, Some(from), check.value) ==
                  Scan(kind, ps, cands[k..], Some(from), check.value)
      {
        assert cands[k..][1..] == cands[k + 1..];
        var p := cands[k];
        if p != from {
          if p >= |piles| {
            return Err(IndexError);
          }
          if piles[p].Accepts(check.value) {
            MoveCards(from, p, n);
            return Ok(p);
          }
        }
      }
      return Ok(-1);
    }

    /** `Tableau.move_pile_force(from, n, to)` */
    method MovePileForce(from: nat, n: int, to: nat) returns (s: Status)
      requires Valid()
      modifies piles
      ensures s == ForceResult(old(Piles()), from, n, to)
      ensures s == Done ==> Piles() == MovePiles(old(Piles()), from, to, n)
      ensures s != Done ==> Piles() == old(Piles())
    {
      if from == to {
        return Raised(ValueError);
      }
      if from >= |piles| || piles[from].Get(-n).Err? {
        return Raised(IndexError);
      }
      if to >= |piles| {
        return Raised(IndexError);
      }
      MoveCards(from, to, n);
      return Done;
    }

    /** `Tableau.flip(pile)`: turns the top card face up if it lies face
        down. */
    method Flip(pile: nat) returns (r: Result<bool>)
      requires Valid()
      modifies piles
      ensures r == FlipResult(old(Piles()), pile)
      ensures r == Ok(true) ==> Piles() == old(Piles())[pile := FlipTop(old(Piles())[pile])]
      ensures r != Ok(true) ==> Piles() == old(Piles())
    {
      if pile >= |piles| {
        return Err(IndexError);
      }
      var top := piles[pile].TopCard();
      if top.Some? && !top.value.visible {
        var turned := SetVisible(top.value, Py.Bool(true));
        var cards := piles[pile].cards;
        piles[pile].cards := cards[|cards| - 1 := turned.value];
        return Ok(true);
      }
      return Ok(false);
    }

    /** `Tableau.issolved`: every card of every pile lies face up. */
    method IsSolved() returns (r: bool)
      requires Valid() && kind == TableauPile
      ensures r <==> forall i, j :: 0 <= i < |piles| && 0 <= j < |Piles()[i]| ==> Piles()[i][j].visible
    {
      for i := 0 to |piles|
        invariant forall k, j :: 0 <= k < i && 0 <= j < |Piles()[k]| ==> Piles()[k][j].visible
      {
        var s := piles[i].IsSolved();
        assert Piles()[i] == piles[i].cards;
        if !s {
          return false;
        }
      }
      return true;
    }

    /** `Foundation.isfinished`: every pile holds 13 cards. */
    method IsFinished() returns (r: bool)
      requires Valid() && kind == FoundationPile
      ensures r <==> forall i :: 0 <= i < |piles| ==> |Piles()[i]| == 13
    {
      for i := 0 to |piles|
        invariant forall k :: 0 <= k < i ==> |Piles()[k]| == 13
      {
        assert Piles()[i] == piles[i].cards;
        if |piles[i].cards| != 13 {
          return false;
        }
      }
      return true;
    }
  }

  /** A finished foundation whose piles were built by accepted moves holds, in
      each pile, ace to king of a single suit. */
  lemma FinishedFoundationIsComplete(ps: seq<seq<Card>>)
    requires forall i :: 0 <= i < |ps| ==> FoundationRun(ps[i]) && |ps[i]| == 13
    ensures forall i, v :: 0 <= i < |ps| && 0 <= v < 13 ==>
      ps[i][v].value == v && ps[i][v].suit == ps[i][0].suit
  {
    forall i | 0 <= i < |ps| {
      FoundationRunCounts(ps[i]);
    }
  }

  /** Adding a card to a foundation by `add_card` keeps every pile a
      foundation run (ace first, then the same suit upwards). */
  lemma AddCardKeepsFoundationRuns(ps: seq<seq<Card>>, cands: seq<nat>, c: Card)
    requires forall i :: 0 <= i < |ps| ==> FoundationRun(ps[i])
    ensures var r := Scan(FoundationPile, ps, cands, None, c);
      r.Ok? && r.value >= 0 ==>
        r.value < |ps| &&
        var next := ps[r.value := ps[r.value] + [c]];
        forall i :: 0 <= i < |next| ==> FoundationRun(next[i])
  {
    ScanMeaning(FoundationPile, ps, cands, None, c);
    var r := Scan(FoundationPile, ps, cands, None, c);
    if r.Ok? && r.value >= 0 {
      FoundationRunGrows(ps[r.value], c);
    }
  }
}

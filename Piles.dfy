/** Piles of cards (pyos/pile.py) and the two concrete kinds, the tableau pile
    (pyos/tableau.py) and the foundation pile (pyos/foundation.py). A pile is an
    object whose card list is changed in place; which moves it accepts and
    when it is in its start state depend on its kind. */
module Piles {
  import opened Outcomes
  import opened Cards
  import opened Py

  /** The class a pile was built from: the abstract base `Pile`, `TableauPile`
      or `FoundationPile`. */
  datatype Kind = BasePile | TableauPile | FoundationPile

  /** `pile.valid(card)` for a pile of the given kind holding `cards`: the
      base class accepts nothing, an empty tableau pile only a king, an empty
      foundation pile only an ace, and a non-empty pile asks its top card. */
  function Accepted(kind: Kind, cards: seq<Card>, c: Card): (r: bool)
    ensures kind == BasePile ==> !r
    ensures kind == TableauPile && cards == [] ==> (r <==> c.value == 12)
    ensures kind == TableauPile && cards != [] ==> (r <==> TableauValid(cards[|cards| - 1], c))
    ensures kind == FoundationPile && cards == [] ==> (r <==> c.value == 0)
    ensures kind == FoundationPile && cards != [] ==> (r <==> FoundationValid(cards[|cards| - 1], c))
  {
    match kind
    case BasePile => false
    case TableauPile =>
      if cards != [] then TableauValid(cards[|cards| - 1], c) else c.value == 12
    case FoundationPile =>
      if cards != [] then FoundationValid(cards[|cards| - 1], c) else c.value == 0
  }

  /** A tableau pile grown only by accepted cards: empty, or a run that starts
      with a king. */
  predicate KingRun(cards: seq<Card>) {
    cards == [] || (cards[0].value == 12 && TableauRun(cards))
  }

  /** Adding an accepted card keeps a king-headed run a king-headed run: its
      values are then 12, 11, ... with alternating colours. */
  lemma KingRunGrows(cards: seq<Card>, c: Card)
    requires KingRun(cards) && Accepted(TableauPile, cards, c)
    ensures KingRun(cards + [c])
    ensures forall i :: 0 <= i < |cards + [c]| ==> (cards + [c])[i].value == 12 - i
  {
    var s := cards + [c];
    assert forall i :: 0 <= i < |cards| ==> s[i] == cards[i];
    assert TableauRun(s);
    TableauRunDescends(s);
  }

  /** Adding an accepted card to a foundation run keeps it a foundation run,
      so a foundation pile of 13 cards holds ace to king of one suit. */
  lemma FoundationRunGrows(cards: seq<Card>, c: Card)
    requires FoundationRun(cards) && Accepted(FoundationPile, cards, c)
    ensures FoundationRun(cards + [c])
    ensures forall i :: 0 <= i < |cards + [c]| ==> (cards + [c])[i].value == i
  {
    var s := cards + [c];
    assert forall i :: 0 <= i < |cards| ==> s[i] == cards[i];
    assert FoundationRun(s);
    FoundationRunCounts(s);
  }

  /** Number of face-up cards. */
  function CountVisible(s: seq<Card>): (n: nat)
    ensures n <= |s|
  {
    if s == [] then 0
    else CountVisible(s[..|s| - 1]) + (if s[|s| - 1].visible then 1 else 0)
  }

  /** Number of face-down cards. */
  function CountHidden(s: seq<Card>): (n: nat)
    ensures n <= |s|
  {
    if s == [] then 0
    else CountHidden(s[..|s| - 1]) + (if s[|s| - 1].visible then 0 else 1)
  }

  /** `pile.isstart`: the state right after a fresh deal. A tableau pile at
      position `pos` holds `pos + 1` cards of which `pos` are face down and one
      face up; a foundation pile is empty; the base class never is. */
  predicate StartState(kind: Kind, pos: int, cards: seq<Card>) {
    match kind
    case BasePile => false
    case TableauPile =>
      |cards| == pos + 1 && CountHidden(cards) == pos && CountVisible(cards) == 1
    case FoundationPile => |cards| == 0
  }

  /** Card `j` is the only face-up card of `s`. */
  predicate OnlyVisible(s: seq<Card>, j: int) {
    0 <= j < |s| && s[j].visible && forall i :: 0 <= i < |s| && i != j ==> !s[i].visible
  }

  lemma {:induction false} CountsAddUp(s: seq<Card>)
    ensures CountVisible(s) + CountHidden(s) == |s|
  {
    if s != [] {
      CountsAddUp(s[..|s| - 1]);
    }
  }

  lemma {:induction false} NoneVisible(s: seq<Card>)
    ensures CountVisible(s) == 0 <==> forall i :: 0 <= i < |s| ==> !s[i].visible
  {
    if s != [] {
      var f := s[..|s| - 1];
      NoneVisible(f);
      assert forall i :: 0 <= i < |f| ==> f[i] == s[i];
    }
  }

  lemma {:induction false} OneVisible(s: seq<Card>)
    ensures CountVisible(s) == 1 <==> exists j :: OnlyVisible(s, j)
  {
    if s != [] {
      var f, x := s[..|s| - 1], s[|s| - 1];
      assert forall i :: 0 <= i < |f| ==> f[i] == s[i];
      NoneVisible(f);
      OneVisible(f);
      if x.visible {
        if CountVisible(s) == 1 {
          assert OnlyVisible(s, |s| - 1);
        }
        if j :| OnlyVisible(s, j) {
          assert j == |s| - 1;
        }
      } else {
        if CountVisible(s) == 1 {
          var j :| OnlyVisible(f, j);
          assert OnlyVisible(s, j);
        }
        if j :| OnlyVisible(s, j) {
          assert OnlyVisible(f, j);
        }
      }
    }
  }

  /** A tableau pile is in its start state iff it holds `pos + 1` cards of
      which exactly one is face up. */
  lemma TableauStartShape(pos: int, cards: seq<Card>)
    ensures StartState(TableauPile, pos, cards) <==>
            |cards| == pos + 1 && exists j :: OnlyVisible(cards, j)
  {
    CountsAddUp(cards);
    OneVisible(cards);
  }

  /** A pile object: its kind, the position it was created with (only
      `TableauPile` keeps it) and the card list, bottom card first. */
  class Pile {
    const kind: Kind
    const pos: int
    var cards: seq<Card>

    constructor (kind: Kind, pos: int)
      ensures this.kind == kind && this.pos == pos
      ensures cards == []
    {
      this.kind := kind;
      this.pos := pos;
      cards := [];
    }

    /** `add`: pushes the card on top, without checking validity. */
    method Add(c: Card)
      modifies this`cards
      ensures cards == old(cards) + [c]
      ensures TopCard() == Some(c)
    {
      cards := cards + [c];
    }

    /** `remove`: pops the top card; popping an empty pile raises
        `IndexError` and changes nothing. */
    method Remove() returns (s: Status)
      modifies this`cards
      ensures old(cards) == [] ==> s == Raised(IndexError) && cards == old(cards)
      ensures old(cards) != [] ==> s == Done && cards + [old(TopCard()).value] == old(cards)
    {
      if cards == [] {
        return Raised(IndexError);
      }
      cards := cards[..|cards| - 1];
      return Done;
    }

    /** `top_card`: `None` for an empty pile, else the last card. */
    function TopCard(): (r: Option<Card>)
      reads this
      ensures r.None? <==> cards == []
      ensures r.Some? ==> r.value == cards[|cards| - 1]
    {
      if cards != [] then Some(cards[|cards| - 1]) else None
    }

    /** `pile[i]` for an integer `i`, with Python's negative indices. */
    function Get(i: int): (r: Result<Card>)
      reads this
      ensures r.Ok? <==> -|cards| <= i < |cards|
      ensures r.Err? ==> r.error == IndexError
      ensures r.Ok? && i >= 0 ==> r.value == cards[i]
      ensures r.Ok? && i < 0 ==> r.value == cards[|cards| + i]
    {
      match PyIndex(|cards|, i)
      case Some(k) => Ok(cards[k])
      case None => Err(IndexError)
    }

    /** `valid(card)` of this pile's class. */
    function Accepts(c: Card): (r: bool)
      reads this
      ensures r == Accepted(kind, cards, c)
    {
      Accepted(kind, cards, c)
    }

    /** `isstart` of this pile's class; the tableau pile counts its face-up
        and face-down cards in a loop. */
    method IsStart() returns (r: bool)
      ensures r == StartState(kind, pos, cards)
    {
      match kind
      case BasePile => return false;
      case FoundationPile => return |cards| == 0;
      case TableauPile =>
        if |cards| != pos + 1 {
          return false;
        }
        var visibleCount, hiddenCount := 0, 0;
        for i := 0 to |cards|
          invariant visibleCount == CountVisible(cards[..i])
          invariant hiddenCount == CountHidden(cards[..i])
        {
          assert cards[..i + 1][..i] == cards[..i];
          if cards[i].visible {
            visibleCount := visibleCount + 1;
          } else {
            hiddenCount := hiddenCount + 1;
          }
        }
        assert cards[..|cards|] == cards;
        return hiddenCount == pos && visibleCount == 1;
    }

    /** `TableauPile.issolved`: every card of the pile lies face up. */
    method IsSolved() returns (r: bool)
      requires kind == TableauPile
      ensures r <==> forall i :: 0 <= i < |cards| ==> cards[i].visible
    {
      if cards == [] {
        return true;
      }
      for i := 0 to |cards|
        invariant forall k :: 0 <= k < i ==> cards[k].visible
      {
        if !cards[i].visible {
          return false;
        }
      }
      return true;
    }
  }
}

/** The deck and the deal (pyos/rules.py). The deck is the 52 pairs
    `(suit, value)`; the deal pops 28 cards from the end of a given deck onto
    seven tableau piles, round by round, and leaves the rest as the stack. */
module Rules {
  import opened Cards
  import opened Piles
  import opened SeqFacts

  /** A card of the deck: `(suit, value)`. */
  type Face = (int, int)

  /** A tableau entry of the deal, the Python list `[card, open]`: `open` is 1
      for the card dealt face up and 0 otherwise. */
  datatype Dealt = Dealt(card: Face, open: int)

  /** `[(s, v) for s in range(4) for v in range(13)]` */
  function StandardDeck(): (d: seq<Face>)
    ensures |d| == 52
    ensures forall i :: 0 <= i < 52 ==> d[i] == (i / 13, i % 13)
  {
    seq(52, i requires 0 <= i < 52 => (i / 13, i % 13))
  }

  /** The deck holds each of the 52 pairs `(suit, value)` with suit 0..3 and
      value 0..12 exactly once. */
  lemma StandardDeckContents()
    ensures forall s, v :: (s, v) in StandardDeck() <==> 0 <= s < 4 && 0 <= v < 13
    ensures forall i, j :: 0 <= i < j < 52 ==> StandardDeck()[i] != StandardDeck()[j]
  {
    var d := StandardDeck();
    forall s, v | 0 <= s < 4 && 0 <= v < 13
      ensures (s, v) in d
    {
      assert d[13 * s + v] == (s, v);
    }
    forall i, j | 0 <= i < j < 52
      ensures d[i] != d[j]
    {
      assert i == 13 * (i / 13) + i % 13 && j == 13 * (j / 13) + j % 13;
    }
  }

  /** Cards popped before round `round` (rounds deal to piles
      `round..6`). */
  function Offset(round: nat): (k: nat)
    requires round <= 7
  {
    if round == 0 then 0 else Offset(round - 1) + 7 - (round - 1)
  }

  lemma OffsetTotal()
    ensures Offset(7) == 28
  {
    assert Offset(1) == 7 && Offset(2) == 13 && Offset(3) == 18;
    assert Offset(4) == 22 && Offset(5) == 25 && Offset(6) == 27;
  }

  /** The entry pile `t` receives in round `round <= t`: the card popped
      `Offset(round) + t - round` cards before it, open only in the pile's
      last round. */
  function DealtAt(deck: seq<Face>, t: nat, round: nat): Dealt
    requires round <= t < 7 && |deck| >= 28
  {
    OffsetTotal();
    OffsetBound(round, t);
    Dealt(deck[|deck| - 1 - (Offset(round) + t - round)], if round == t then 1 else 0)
  }

  lemma OffsetBound(round: nat, t: nat)
    requires round <= t < 7
    ensures Offset(round) + t - round < 28
  {
    OffsetTotal();
    var r := round;
    while r < 7
      invariant round <= r <= 7
      invariant Offset(round) + t - round < Offset(r) + (if r <= t then t - r + 1 else 0)
      invariant Offset(r) <= 28 - (7 - r)
    {
      r := r + 1;
    }
  }

  /** The outcome of `deal`: pile `t` holds `t + 1` entries, the one of round
      `s` at height `s`, and the stack is the deck without its last 28
      cards. */
  predicate IsDeal(deck: seq<Face>, tableau: seq<seq<Dealt>>, stack: seq<Face>)
    requires |deck| >= 28
  {
    |tableau| == 7 &&
    (forall t :: 0 <= t < 7 ==> |tableau[t]| == t + 1) &&
    (forall t, s :: 0 <= s <= t < 7 ==> tableau[t][s] == DealtAt(deck, t, s)) &&
    stack == deck[..|deck| - 28]
  }

  /** The cards of the tableau piles, without the open flags. */
  function Faces(ts: seq<seq<Dealt>>): (fs: seq<seq<Face>>)
    ensures |fs| == |ts|
    ensures forall t :: 0 <= t < |ts| ==> |fs[t]| == |ts[t]|
    ensures forall t, s :: 0 <= t < |ts| && 0 <= s < |ts[t]| ==> fs[t][s] == ts[t][s].card
  {
    seq(|ts|, t requires 0 <= t < |ts| => seq(|ts[t]|, s requires 0 <= s < |ts[t]| => ts[t][s].card))
  }

  lemma FacesAppend(ts: seq<seq<Dealt>>, t: nat, e: Dealt)
    requires t < |ts|
    ensures Faces(ts[t := ts[t] + [e]]) == Faces(ts)[t := Faces(ts)[t] + [e.card]]
  {
    var l, r := Faces(ts[t := ts[t] + [e]]), Faces(ts)[t := Faces(ts)[t] + [e.card]];
    assert |l| == |r|;
    forall u | 0 <= u < |l|
      ensures l[u] == r[u]
    {
    }
  }

  /** The state of `deal` in round `start` before it deals to pile `t`:
      `Offset(start) + t - start` cards are popped, piles below `start` are
      complete, piles `start..t-1` have their card of this round, and no card
      is lost or gained. */
  predicate Dealing(deck: seq<Face>, start: nat, t: nat, tableau: seq<seq<Dealt>>, stack: seq<Face>)
    requires |deck| >= 28 && start <= t <= 7
  {
    |tableau| == 7 &&
    Offset(start) + t - start <= 28 &&
    stack == deck[..|deck| - (Offset(start) + t - start)] &&
    (forall u :: 0 <= u < 7 ==> |tableau[u]| == if u < start then u + 1 else if u < t then start + 1 else start) &&
    (forall u, s :: 0 <= u < 7 && 0 <= s < |tableau[u]| ==> s <= u && tableau[u][s] == DealtAt(deck, u, s)) &&
    Flat(Faces(tableau)) + multiset(stack) == multiset(deck)
  }

  /** One pop of `deal`: the card taken from the end of the stack is the one
      the closed form puts on pile `t` in round `start`. */
  lemma DealStep(deck: seq<Face>, start: nat, t: nat, tableau: seq<seq<Dealt>>, stack: seq<Face>)
    requires |deck| >= 28 && start <= t < 7 && Dealing(deck, start, t, tableau, stack)
    ensures stack != []
    ensures var e := Dealt(stack[|stack| - 1], if t == start then 1 else 0);
      Dealing(deck, start, t + 1, tableau[t := tableau[t] + [e]], stack[..|stack| - 1])
  {
    OffsetBound(start, t);
    var n := Offset(start) + t - start;
    assert stack == deck[..|deck| - n];
    var c := stack[|stack| - 1];
    assert c == deck[|deck| - 1 - n];
    var e := Dealt(c, if t == start then 1 else 0);
    assert e == DealtAt(deck, t, start);
    assert stack[..|stack| - 1] == deck[..|deck| - (n + 1)];
    DealStepPiles(deck, start, t, tableau, e);
    DealStepConserves(tableau, stack, t, e.open);
  }

  /** Putting the entry of round `start` on pile `t` keeps the piles in the
      shape `Dealing` describes, one pile further on. */
  lemma DealStepPiles(deck: seq<Face>, start: nat, t: nat, tableau: seq<seq<Dealt>>, e: Dealt)
    requires |deck| >= 28 && start <= t < 7 && |tableau| == 7
    requires forall u :: 0 <= u < 7 ==> |tableau[u]| == if u < start then u + 1 else if u < t then start + 1 else start
    requires forall u, s :: 0 <= u < 7 && 0 <= s < |tableau[u]| ==> s <= u && tableau[u][s] == DealtAt(deck, u, s)
    requires e == DealtAt(deck, t, start)
    ensures var next := tableau[t := tableau[t] + [e]];
      |next| == 7 &&
      (forall u :: 0 <= u < 7 ==> |next[u]| == if u < start then u + 1 else if u < t + 1 then start + 1 else start) &&
      (forall u, s :: 0 <= u < 7 && 0 <= s < |next[u]| ==> s <= u && next[u][s] == DealtAt(deck, u, s))
  {
    var next := tableau[t := tableau[t] + [e]];
    forall u, s | 0 <= u < 7 && 0 <= s < |next[u]|
      ensures s <= u && next[u][s] == DealtAt(deck, u, s)
    {
      if u == t && s == |tableau[t]| {
        assert next[u][s] == e;
      } else {
        assert next[u][s] == tableau[u][s];
      }
    }
  }

  /** Moving the last card of the stack onto pile `t` keeps the multiset of
      all cards. */
  lemma DealStepConserves(tableau: seq<seq<Dealt>>, stack: seq<Face>, t: nat, open: int)
    requires t < |tableau| && stack != []
    ensures var c := stack[|stack| - 1];
      Flat(Faces(tableau[t := tableau[t] + [Dealt(c, open)]])) + multiset(stack[..|stack| - 1]) ==
      Flat(Faces(tableau)) + multiset(stack)
  {
    var c, rest := stack[|stack| - 1], stack[..|stack| - 1];
    assert multiset(stack) == multiset(rest) + multiset{c} by {
      assert stack == rest + [c];
      MultisetAppend(rest, [c]);
    }
    FacesAppend(tableau, t, Dealt(c, open));
    FlatAppend(Faces(tableau), t, c);
    MultisetSwap(Flat(Faces(tableau)), multiset{c}, multiset(rest));
  }

  /** The end of a round is the start of the next. */
  lemma RoundDone(deck: seq<Face>, start: nat, tableau: seq<seq<Dealt>>, stack: seq<Face>)
    requires |deck| >= 28 && start < 7 && Dealing(deck, start, 7, tableau, stack)
    ensures Dealing(deck, start + 1, start + 1, tableau, stack)
  {
  }

  /** `deal`, for the deck `shuffled_deck` returned: seven rounds; round
      `start` pops one card for each pile `start..6`, the first of them open.
      Pile `t` ends with `t + 1` cards, only its last one open, the stack is
      the deck without its last 28 cards, and tableau and stack together
      hold exactly the cards of the deck. */
  method Deal(deck: seq<Face>) returns (tableau: seq<seq<Dealt>>, stack: seq<Face>)
    requires |deck| >= 28
    ensures IsDeal(deck, tableau, stack)
    ensures Flat(Faces(tableau)) + multiset(stack) == multiset(deck)
  {
    stack := deck;
    tableau := seq(7, _ => []);
    FlatEmpty<Face>(7);
    assert Faces(tableau) == seq(7, _ => []);
    for start := 0 to 7
      invariant Dealing(deck, start, start, tableau, stack)
    {
      var first := true;
      for t := start to 7
        invariant Dealing(deck, start, t, tableau, stack)
        invariant first <==> t == start
      {
        DealStep(deck, start, t, tableau, stack);
        var c := stack[|stack| - 1];
        stack := stack[..|stack| - 1];
        tableau := tableau[t := tableau[t] + [Dealt(c, if first then 1 else 0)]];
        first := false;
      }
      RoundDone(deck, start, tableau, stack);
    }
    OffsetTotal();
  }

  /** A dealt tableau pile with the open card face up. */
  function Turned(p: seq<Dealt>): (cs: seq<Card>)
    ensures |cs| == |p|
    ensures forall i :: 0 <= i < |p| ==> cs[i] == Card(p[i].card.0, p[i].card.1, p[i].open == 1)
  {
    seq(|p|, i requires 0 <= i < |p| => Card(p[i].card.0, p[i].card.1, p[i].open == 1))
  }

  /** After the deal only the top card of each pile is open, so every
      tableau pile is in its start state. */
  lemma DealIsStart(deck: seq<Face>, tableau: seq<seq<Dealt>>, stack: seq<Face>)
    requires |deck| >= 28 && IsDeal(deck, tableau, stack)
    ensures forall t :: 0 <= t < 7 ==> StartState(TableauPile, t, Turned(tableau[t]))
    ensures forall t, s :: 0 <= s <= t < 7 ==> (tableau[t][s].open == 1 <==> s == t)
  {
    forall t | 0 <= t < 7
      ensures StartState(TableauPile, t, Turned(tableau[t]))
    {
      assert OnlyVisible(Turned(tableau[t]), t);
      TableauStartShape(t, Turned(tableau[t]));
    }
  }
}

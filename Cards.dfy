/** Playing cards of the Klondike rules (pyos/card.py). A card is a value: its
    suit (0..3), its value (0 = ace .. 12 = king) and whether it lies face up. */
module Cards {
  import opened Outcomes
  import Py

  datatype Card = Card(suit: int, value: int, visible: bool)

  /** `Card(suit, value)`: every new card starts face down. */
  function NewCard(suit: int, value: int): (c: Card)
    ensures c.suit == suit && c.value == value
    ensures !c.visible
  {
    Card(suit, value, false)
  }

  /** The `visible` setter: only a `bool` is accepted, anything else raises
      `TypeError` and leaves the card as it was. */
  function SetVisible(c: Card, v: Py.Value): (r: Result<Card>)
    ensures r.Err? <==> !Py.IsBool(v)
    ensures r.Err? ==> r.error == TypeError
    ensures r.Ok? ==> r.value.suit == c.suit && r.value.value == c.value
    ensures r.Ok? ==> (r.value.visible <==> v == Py.Bool(true))
  {
    if v.Bool? then Ok(c.(visible := v.b)) else Err(TypeError)
  }

  /** `c.tableau_valid(o)`: may `o` be placed on `c` in the tableau? */
  function TableauValid(c: Card, o: Card): (r: bool)
    ensures !c.visible ==> !r
    ensures r ==> o.value == c.value - 1
    ensures r ==> (c.suit % 2 == 0 <==> o.suit % 2 == 1)
    ensures c.visible && c.suit % 2 != o.suit % 2 && o.value == c.value - 1 ==> r
  {
    c.visible && c.suit % 2 != o.suit % 2 && o.value == c.value - 1
  }

  /** `c.foundation_valid(o)`: may `o` be placed on `c` in a foundation pile?
      Visibility plays no part. */
  function FoundationValid(c: Card, o: Card): (r: bool)
    ensures r <==> o.suit == c.suit && o.value == c.value + 1
  {
    c.suit == o.suit && o.value == c.value + 1
  }

  /** `c.index`: the face `(suit, value)` and 0 for a face-up, 1 for a
      face-down card. */
  function Index(c: Card): (r: ((int, int), int))
    ensures r.0 == (c.suit, c.value)
    ensures r.1 == 0 || r.1 == 1
    ensures r.1 == 0 <==> c.visible
  {
    ((c.suit, c.value), if c.visible then 0 else 1)
  }

  /** `c == o` compares suit, value and visibility, which is exactly equality
      of the modelled values. */
  function Equal(c: Card, o: Card): (r: bool)
    ensures r <==> c == o
  {
    c.suit == o.suit && c.value == o.value && c.visible == o.visible
  }

  /** Two cards with the same index are the same card. */
  lemma IndexInjective(a: Card, b: Card)
    requires Index(a) == Index(b)
    ensures a == b
  {
    assert a.visible <==> b.visible;
  }

  /** A run of cards each of which may be placed on the one before it in the
      tableau. */
  predicate TableauRun(s: seq<Card>) {
    forall i :: 0 < i < |s| ==> TableauValid(s[i - 1], s[i])
  }

  /** In a tableau run the values step down by one and the suit parities
      (colours) alternate. */
  lemma {:induction false} TableauRunDescends(s: seq<Card>)
    requires TableauRun(s)
    ensures forall i :: 0 <= i < |s| ==> s[i].value == s[0].value - i
    ensures forall i :: 0 <= i < |s| ==> s[i].suit % 2 == (s[0].suit + i) % 2
  {
    if |s| > 1 {
      var front := s[..|s| - 1];
      assert TableauRun(front);
      TableauRunDescends(front);
      assert TableauValid(s[|s| - 2], s[|s| - 1]);
      forall i | 0 <= i < |s|
        ensures s[i].value == s[0].value - i
        ensures s[i].suit % 2 == (s[0].suit + i) % 2
      {
        if i < |s| - 1 {
          assert s[i] == front[i];
        }
      }
    }
  }

  /** A foundation pile built by foundation moves: it starts with an ace and
      each card may be placed on the one before it. */
  predicate FoundationRun(s: seq<Card>) {
    (|s| > 0 ==> s[0].value == 0) &&
    forall i :: 0 < i < |s| ==> FoundationValid(s[i - 1], s[i])
  }

  /** The i-th card of a foundation run has value i and the suit of the ace. */
  lemma {:induction false} FoundationRunCounts(s: seq<Card>)
    requires FoundationRun(s)
    ensures forall i :: 0 <= i < |s| ==> s[i].value == i && s[i].suit == s[0].suit
  {
    if |s| > 1 {
      var front := s[..|s| - 1];
      assert FoundationRun(front);
      FoundationRunCounts(front);
      assert FoundationValid(s[|s| - 2], s[|s| - 1]);
      forall i | 0 <= i < |s|
        ensures s[i].value == i && s[i].suit == s[0].suit
      {
        if i < |s| - 1 {
          assert s[i] == front[i];
        }
      }
    }
  }
}

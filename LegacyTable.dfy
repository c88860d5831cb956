/** The legacy game table (pyos/table.py): seven tableau piles, four
    foundation piles, the stack and the waste, an undo history, a move counter
    and points. Every public move first counts itself and takes the count back
    when it finds nothing to do. The rule deciding whether one card may go on
    another (`valid_move`) is not defined in the repository and is a parameter
    of the table. */
module LegacyTable {
  import opened Outcomes
  import Piles
  import Py
  import Areas
  import Rules
  import opened SeqFacts

  /** What the table's lists hold: a card `(suit, value)`, or a tableau entry
      `[item, open]`. Undo can move a tableau entry to the waste or to a
      foundation pile, and a later move wraps it again, so entries nest. */
  datatype Item = Face(suit: int, value: int) | Entry(item: Item, open: int)

  /** A tableau pile holds entries only. */
  type Slot = i: Item | i.Entry? witness Entry(Face(0, 0), 1)

  /** The second component of an item unpacked as a pair (`suit, value = wc`,
      `card[1]`): the value of a card, the open flag of an entry. */
  function Second(i: Item): int {
    match i
    case Face(_, v) => v
    case Entry(_, o) => o
  }

  /** The places named in the history: `'w'`, `'s'`, `'t<i>'`, `'f<i>'`. */
  datatype Tag = W | S | T(i: nat) | F(i: nat)

  /** What a history record carries: one card, or the list of cards of a
      tableau-to-tableau move. */
  datatype Payload = One(item: Item) | Many(items: seq<Item>)

  /** A history record `(from, to, card)` of a move from `from` to `to`. */
  datatype Record = Record(from: Tag, to: Tag, payload: Payload)

  /** `valid_move(card, target, foundation)`. */
  type Rule = (Item, Item, bool) -> bool

  /** The observable state of a table (times and the seed left aside). */
  datatype Snapshot = Snapshot(
    tableau: seq<seq<Slot>>,
    foundation: seq<seq<Item>>,
    stack: seq<Item>,
    waste: seq<Item>,
    history: seq<Record>,
    moves: int,
    points: int)

  /** Seven tableau piles and four foundation piles. */
  predicate Shaped(s: Snapshot) {
    |s.tableau| == 7 && |s.foundation| == 4
  }

  /** What a move returned or raised, and the state after it. */
  datatype Outcome<R> = Outcome(r: Result<R>, s: Snapshot)

  function Max0(x: int): (m: int)
    ensures m >= 0 && m >= x && (m == 0 || m == x)
  {
    if x > 0 then x else 0
  }

  /** May `card` go on tableau pile `pile`? An empty pile takes a king (value
      12), otherwise `valid_move` decides against the card of the top entry. */
  function FitsTableau(valid: Rule, pile: seq<Slot>, card: Item): bool {
    if pile == [] then Second(card) == 12 else valid(card, pile[|pile| - 1].item, false)
  }

  /** May `card` go on foundation pile `pile`? An empty pile takes an ace
      (value 0), otherwise `valid_move` decides against the top item. */
  function FitsFoundation(valid: Rule, pile: seq<Item>, card: Item): bool {
    if pile == [] then Second(card) == 0 else valid(card, pile[|pile| - 1], true)
  }

  /** For every tableau pile, whether `card` fits it. */
  function TableauFits(valid: Rule, tableau: seq<seq<Slot>>, card: Item): (ok: seq<bool>)
    ensures |ok| == |tableau|
    ensures forall t :: 0 <= t < |tableau| ==> (ok[t] <==> FitsTableau(valid, tableau[t], card))
  {
    seq(|tableau|, t requires 0 <= t < |tableau| => FitsTableau(valid, tableau[t], card))
  }

  /** For every foundation pile, whether `card` fits it. */
  function FoundationFits(valid: Rule, foundation: seq<seq<Item>>, card: Item): (ok: seq<bool>)
    ensures |ok| == |foundation|
    ensures forall f :: 0 <= f < |foundation| ==> (ok[f] <==> FitsFoundation(valid, foundation[f], card))
  {
    seq(|foundation|, f requires 0 <= f < |foundation| => FitsFoundation(valid, foundation[f], card))
  }

  predicate InRange(cands: seq<nat>, n: nat) {
    forall k :: 0 <= k < |cands| ==> cands[k] < n
  }

  /** The first candidate pile marked in `ok`, as the search loops of the
      moves find it. */
  function FirstOk(cands: seq<nat>, ok: seq<bool>): (r: Option<nat>)
    requires InRange(cands, |ok|)
    ensures r.Some? ==> r.value < |ok| && ok[r.value]
  {
    if cands == [] then None
    else if ok[cands[0]] then Some(cands[0])
    else FirstOk(cands[1..], ok)
  }

  /** The search stops at the first candidate marked in `ok`: it finds one
      exactly when some candidate is marked, and every candidate before the
      one it finds is unmarked. */
  lemma {:induction false} FirstOkMeaning(cands: seq<nat>, ok: seq<bool>)
    requires InRange(cands, |ok|)
    ensures FirstOk(cands, ok).None? <==> forall j :: 0 <= j < |cands| ==> !ok[cands[j]]
    ensures FirstOk(cands, ok).Some? ==>
      exists k :: 0 <= k < |cands| && cands[k] == FirstOk(cands, ok).value &&
        forall j :: 0 <= j < k ==> !ok[cands[j]]
  {
    if cands != [] && !ok[cands[0]] {
      var rest := cands[1..];
      FirstOkMeaning(rest, ok);
      if FirstOk(rest, ok).Some? {
        var k :| 0 <= k < |rest| && rest[k] == FirstOk(rest, ok).value &&
          forall j :: 0 <= j < k ==> !ok[rest[j]];
        assert cands[k + 1] == rest[k];
        forall j | 0 <= j < k + 1
          ensures !ok[cands[j]]
        {
          if j > 0 {
            assert cands[j] == rest[j - 1];
          }
        }
      }
      forall j | 0 < j < |cands|
        ensures cands[j] == rest[j - 1]
      {
      }
    } else if cands != [] {
      assert cands[0] == FirstOk(cands, ok).value;
    }
  }

  /** A search that has passed over the first `k` candidates stops at
      candidate `k` when it is marked, and finds nothing when none is left. */
  lemma {:induction false} FirstOkAt(cands: seq<nat>, ok: seq<bool>, k: nat)
    requires InRange(cands, |ok|) && k <= |cands|
    requires forall j :: 0 <= j < k ==> !ok[cands[j]]
    ensures k < |cands| && ok[cands[k]] ==> FirstOk(cands, ok) == Some(cands[k])
    ensures k == |cands| ==> FirstOk(cands, ok) == None
  {
    if k > 0 {
      var rest := cands[1..];
      forall j | 0 <= j < k - 1
        ensures !ok[rest[j]]
      {
        assert rest[j] == cands[j + 1];
      }
      FirstOkAt(rest, ok, k - 1);
    }
  }

  /** `waste_to_tableau(col)`: with an empty waste nothing happens; otherwise
      the top waste card goes, as the open entry `[card, 1]`, onto the first
      tableau pile it fits (all seven in order, or only `col`), the move is
      recorded and earns 5 points. */
  function WasteToTableauOutcome(valid: Rule, s: Snapshot, col: Option<nat>): (o: Outcome<bool>)
    requires Shaped(s)
    ensures Shaped(o.s)
    ensures o.r == Ok(false) ==> o.s == s
    ensures o.r.Err? ==> o.r.error == IndexError && o.s == s.(moves := s.moves + 1)
    ensures o.r == Ok(true) ==> s.waste != [] && o.s.moves == s.moves + 1 && o.s.points == s.points + 5
    ensures o.r == Ok(true) ==> o.s.waste == s.waste[..|s.waste| - 1] && o.s.stack == s.stack && o.s.foundation == s.foundation
  {
    if s.waste == [] then Outcome(Ok(false), s)
    else if col.Some? && col.value >= 7 then Outcome(Err(IndexError), s.(moves := s.moves + 1))
    else
      var wc := s.waste[|s.waste| - 1];
      match FirstOk(Areas.Candidates(7, col), TableauFits(valid, s.tableau, wc))
      case None => Outcome(Ok(false), s)
      case Some(t) => Outcome(Ok(true), WasteToTableauMove(s.(moves := s.moves + 1), t))
  }

  /** The piles, history and points after a successful waste-to-tableau
      move onto pile `t` (the move count is raised before). */
  function WasteToTableauMove(s: Snapshot, t: nat): (o: Snapshot)
    requires Shaped(s) && t < 7 && s.waste != []
    ensures Shaped(o)
  {
    var wc := s.waste[|s.waste| - 1];
    s.(tableau := s.tableau[t := s.tableau[t] + [Entry(wc, 1)]],
       waste := s.waste[..|s.waste| - 1],
       history := s.history + [Record(W, T(t), One(wc))],
       points := s.points + 5)
  }

  /** `waste_to_foundation(col)`: the top waste card goes onto the first
      foundation pile it fits (all four in order, or only `col`), the move is
      recorded and earns 10 points. */
  function WasteToFoundationOutcome(valid: Rule, s: Snapshot, col: Option<nat>): (o: Outcome<bool>)
    requires Shaped(s)
    ensures Shaped(o.s)
    ensures o.r == Ok(false) ==> o.s == s
    ensures o.r.Err? ==> o.r.error == IndexError && o.s == s.(moves := s.moves + 1)
    ensures o.r == Ok(true) ==> s.waste != [] && o.s.moves == s.moves + 1 && o.s.points == s.points + 10
    ensures o.r == Ok(true) ==> o.s.waste == s.waste[..|s.waste| - 1] && o.s.stack == s.stack && o.s.tableau == s.tableau
  {
    if s.waste == [] then Outcome(Ok(false), s)
    else if col.Some? && col.value >= 4 then Outcome(Err(IndexError), s.(moves := s.moves + 1))
    else
      var wc := s.waste[|s.waste| - 1];
      match FirstOk(Areas.Candidates(4, col), FoundationFits(valid, s.foundation, wc))
      case None => Outcome(Ok(false), s)
      case Some(f) => Outcome(Ok(true), WasteToFoundationMove(s.(moves := s.moves + 1), f))
  }

  /** The piles, history and points after a successful waste-to-foundation
      move onto pile `f` (the move count is raised before). */
  function WasteToFoundationMove(s: Snapshot, f: nat): (o: Snapshot)
    requires Shaped(s) && f < 4 && s.waste != []
    ensures Shaped(o)
  {
    var wc := s.waste[|s.waste| - 1];
    s.(foundation := s.foundation[f := s.foundation[f] + [wc]],
       waste := s.waste[..|s.waste| - 1],
       history := s.history + [Record(W, F(f), One(wc))],
       points := s.points + 10)
  }

  /** `foundation_to_tableau(col, tcol)`: the top card of foundation pile
      `col` goes, as an open entry, onto the first tableau pile it fits; the
      move costs 15 points, never going below 0. */
  function FoundationToTableauOutcome(valid: Rule, s: Snapshot, col: nat, tcol: Option<nat>): (o: Outcome<bool>)
    requires Shaped(s)
    ensures Shaped(o.s)
    ensures o.r == Ok(false) ==> o.s == s
    ensures o.r.Err? ==> o.r.error == IndexError && o.s == s.(moves := s.moves + 1)
    ensures o.r == Ok(true) ==> col < 4 && s.foundation[col] != [] && o.s.moves == s.moves + 1
    ensures o.r == Ok(true) ==> o.s.points == Max0(s.points - 15) && o.s.waste == s.waste && o.s.stack == s.stack
  {
    if col >= 4 then Outcome(Err(IndexError), s.(moves := s.moves + 1))
    else if s.foundation[col] == [] then Outcome(Ok(false), s)
    else if tcol.Some? && tcol.value >= 7 then Outcome(Err(IndexError), s.(moves := s.moves + 1))
    else
      var fnd := s.foundation[col];
      var card := fnd[|fnd| - 1];
      match FirstOk(Areas.Candidates(7, tcol), TableauFits(valid, s.tableau, card))
      case None => Outcome(Ok(false), s)
      case Some(t) => Outcome(Ok(true), FoundationToTableauMove(s.(moves := s.moves + 1), col, t))
  }

  /** The piles, history and points after a successful move from foundation
      pile `f` onto tableau pile `t` (the move count is raised before). */
  function FoundationToTableauMove(s: Snapshot, f: nat, t: nat): (o: Snapshot)
    requires Shaped(s) && f < 4 && t < 7 && s.foundation[f] != []
    ensures Shaped(o)
  {
    var fnd := s.foundation[f];
    var card := fnd[|fnd| - 1];
    s.(foundation := s.foundation[f := fnd[..|fnd| - 1]],
       tableau := s.tableau[t := s.tableau[t] + [Entry(card, 1)]],
       history := s.history + [Record(F(f), T(t), One(card))],
       points := Max0(s.points - 15))
  }

  /** A move from one pile to another. */
  datatype Pair = Pair(src: nat, dst: nat)

  /** The nested search of `tableau_to_foundation`: source piles in order,
      for each the first foundation pile its top card fits. Reading the top
      card of an empty source pile on the way raises `IndexError`. */
  function ScanToFoundation(valid: Rule, tableau: seq<seq<Slot>>, foundation: seq<seq<Item>>,
                            srcs: seq<nat>, dsts: seq<nat>): (r: Result<Option<Pair>>)
    requires InRange(srcs, |tableau|) && InRange(dsts, |foundation|)
    ensures r.Err? ==> r.error == IndexError
    ensures r.Ok? && r.value.Some? ==>
      var p := r.value.value;
      p.src < |tableau| && p.dst < |foundation| && tableau[p.src] != [] &&
      FitsFoundation(valid, foundation[p.dst], tableau[p.src][|tableau[p.src]| - 1].item)
  {
    if srcs == [] then Ok(None)
    else
      var tab := tableau[srcs[0]];
      if tab == [] then Err(IndexError)
      else match FirstOk(dsts, FoundationFits(valid, foundation, tab[|tab| - 1].item))
        case Some(f) => Ok(Some(Pair(srcs[0], f)))
        case None => ScanToFoundation(valid, tableau, foundation, srcs[1..], dsts)
  }

  /** `tableau_to_foundation(col, fcol)`: the card of the top entry of a
      tableau pile goes onto a foundation pile it fits, for 10 points. A named
      pile that is empty ends the move at once, without a search. */
  function TableauToFoundationOutcome(valid: Rule, s: Snapshot, col: Option<nat>, fcol: Option<nat>): (o: Outcome<bool>)
    requires Shaped(s)
    ensures Shaped(o.s)
    ensures o.r == Ok(false) ==> o.s == s
    ensures o.r.Err? ==> o.r.error == IndexError && o.s == s.(moves := s.moves + 1)
    ensures o.r == Ok(true) ==> o.s.moves == s.moves + 1 && o.s.points == s.points + 10
    ensures o.r == Ok(true) ==> o.s.waste == s.waste && o.s.stack == s.stack
  {
    if col.Some? && col.value >= 7 then Outcome(Err(IndexError), s.(moves := s.moves + 1))
    else if col.Some? && s.tableau[col.value] == [] then Outcome(Ok(false), s)
    else if fcol.Some? && fcol.value >= 4 then Outcome(Err(IndexError), s.(moves := s.moves + 1))
    else if fcol.Some? && s.foundation[fcol.value] == [] then Outcome(Ok(false), s)
    else match ScanToFoundation(valid, s.tableau, s.foundation, Areas.Candidates(7, col), Areas.Candidates(4, fcol))
      case Err(e) => Outcome(Err(e), s.(moves := s.moves + 1))
      case Ok(None) => Outcome(Ok(false), s)
      case Ok(Some(Pair(t, f))) => Outcome(Ok(true), TableauToFoundationMove(s.(moves := s.moves + 1), t, f))
  }

  /** The piles, history and points after a successful tableau-to-foundation
      move from pile `t` to pile `f` (the move count is raised before). */
  function TableauToFoundationMove(s: Snapshot, t: nat, f: nat): (o: Snapshot)
    requires Shaped(s) && t < 7 && f < 4 && s.tableau[t] != []
    ensures Shaped(o)
  {
    var tab := s.tableau[t];
    var card := tab[|tab| - 1].item;
    s.(foundation := s.foundation[f := s.foundation[f] + [card]],
       tableau := s.tableau[t := tab[..|tab| - 1]],
       history := s.history + [Record(T(t), F(f), One(card))],
       points := s.points + 10)
  }

  /** The target `tableau_to_tableau` finds for `card`, the first card of the
      run taken from pile `si`. Without `ecol` it is the first other pile the
      card fits. With `ecol` the source records the target under the label
      `scol`: when `scol` is given too the target counts as the source pile
      itself and is skipped; without `scol` a fitting target 0 yields
      `tableau[None]`, a `TypeError`. */
  function TableauTarget(valid: Rule, tableau: seq<seq<Slot>>, si: nat, card: Item,
                         scol: Option<nat>, ecol: Option<nat>): (r: Result<Option<nat>>)
    requires |tableau| == 7 && si < 7 && (ecol.Some? ==> ecol.value < 7)
    ensures r.Err? ==> r.error == TypeError && ecol == Some(0) && scol.None?
    ensures r.Ok? && r.value.Some? ==> r.value.value < 7 && FitsTableau(valid, tableau[r.value.value], card)
    ensures r.Ok? && r.value.Some? && ecol.None? ==> r.value.value != si
    ensures r.Ok? && r.value.Some? && ecol.Some? ==> r.value == ecol && scol.None?
  {
    if ecol.None? then Ok(FirstOk(Areas.Range(7), TableauFits(valid, tableau, card)[si := false]))
    else if scol.Some? then Ok(None)
    else if !FitsTableau(valid, tableau[ecol.value], card) then Ok(None)
    else if ecol.value == 0 then Err(TypeError)
    else Ok(Some(ecol.value))
  }

  /** The nested search of `tableau_to_tableau`: source piles in order; the
      run of each starts at row `srow` (Python indexing), and a source pile
      too short for `srow` raises `IndexError`. */
  function ScanToTableau(valid: Rule, tableau: seq<seq<Slot>>, srcs: seq<nat>,
                         scol: Option<nat>, ecol: Option<nat>, srow: int): (r: Result<Option<Pair>>)
    requires |tableau| == 7 && InRange(srcs, 7) && (ecol.Some? ==> ecol.value < 7)
    ensures r.Err? ==> r.error == IndexError || r.error == TypeError
    ensures r.Ok? && r.value.Some? ==>
      var p := r.value.value;
      p.src < 7 && p.dst < 7 && Py.PyIndex(|tableau[p.src]|, srow).Some? &&
      FitsTableau(valid, tableau[p.dst], tableau[p.src][Py.PyIndex(|tableau[p.src]|, srow).value].item)
    ensures r.Ok? && r.value.Some? && ecol.None? ==> r.value.value.src != r.value.value.dst
    ensures r.Ok? && r.value.Some? && ecol.Some? ==> scol.None? && r.value.value.dst == ecol.value
  {
    if srcs == [] then Ok(None)
    else
      var stab := tableau[srcs[0]];
      match Py.PyIndex(|stab|, srow)
      case None => Err(IndexError)
      case Some(k) =>
        match TableauTarget(valid, tableau, srcs[0], stab[k].item, scol, ecol)
        case Err(e) => Err(e)
        case Ok(Some(d)) => Ok(Some(Pair(srcs[0], d)))
        case Ok(None) => ScanToTableau(valid, tableau, srcs[1..], scol, ecol, srow)
  }

  /** The cards of a run of entries. */
  function Heads(run: seq<Slot>): (cs: seq<Item>)
    ensures |cs| == |run| && forall i :: 0 <= i < |run| ==> cs[i] == run[i].item
  {
    seq(|run|, i requires 0 <= i < |run| => run[i].item)
  }

  /** The tableau after moving the run `stab[srow:]` of pile `si` to pile
      `d`: the run is appended to `d`, then as many entries as
      `tableau[si][srow:]` now holds are popped from `si`. */
  function MoveRun(tableau: seq<seq<Slot>>, si: nat, d: nat, srow: int): (r: seq<seq<Slot>>)
    requires si < |tableau| && d < |tableau|
    ensures |r| == |tableau|
  {
    var stab := tableau[si];
    var grown := tableau[d := tableau[d] + stab[Py.SliceStart(|stab|, srow)..]];
    var p := grown[si];
    grown[si := p[..Py.SliceStart(|p|, srow)]]
  }

  /** Between two different piles the run leaves the source and lands, in
      order, on top of the target; the other piles keep their entries. */
  lemma MoveRunBetween(tableau: seq<seq<Slot>>, si: nat, d: nat, srow: int)
    requires si < |tableau| && d < |tableau| && si != d
    ensures var k := Py.SliceStart(|tableau[si]|, srow);
      MoveRun(tableau, si, d, srow)[si] == tableau[si][..k] &&
      MoveRun(tableau, si, d, srow)[d] == tableau[d] + tableau[si][k..] &&
      tableau[si][..k] + tableau[si][k..] == tableau[si]
    ensures forall u :: 0 <= u < |tableau| && u != si && u != d ==> MoveRun(tableau, si, d, srow)[u] == tableau[u]
  {
  }

  /** `tableau_to_tableau(scol, ecol, srow)`: moves the run from row `srow`
      of a source pile to the first target its first card fits, records the
      cards moved and leaves the points alone. */
  function TableauToTableauOutcome(valid: Rule, s: Snapshot, scol: Option<nat>, ecol: Option<nat>, srow: int): (o: Outcome<bool>)
    requires Shaped(s)
    ensures Shaped(o.s)
    ensures o.r == Ok(false) ==> o.s == s
    ensures o.r.Err? ==> (o.r.error == IndexError || o.r.error == TypeError) && o.s == s.(moves := s.moves + 1)
    ensures o.r == Ok(true) ==> o.s.moves == s.moves + 1 && o.s.points == s.points
    ensures o.r == Ok(true) ==> o.s.waste == s.waste && o.s.stack == s.stack && o.s.foundation == s.foundation
    ensures scol.Some? && ecol.Some? ==> o.r != Ok(true)
  {
    if scol.Some? && scol.value >= 7 then Outcome(Err(IndexError), s.(moves := s.moves + 1))
    else if ecol.Some? && ecol.value >= 7 then Outcome(Err(IndexError), s.(moves := s.moves + 1))
    else match ScanToTableau(valid, s.tableau, Areas.Candidates(7, scol), scol, ecol, srow)
      case Err(e) => Outcome(Err(e), s.(moves := s.moves + 1))
      case Ok(None) => Outcome(Ok(false), s)
      case Ok(Some(Pair(si, d))) => Outcome(Ok(true), TableauToTableauMove(s.(moves := s.moves + 1), si, d, srow))
  }

  /** The piles and history after a successful move of the run from row
      `srow` of tableau pile `si` onto pile `d` (the move count is raised
      before). */
  function TableauToTableauMove(s: Snapshot, si: nat, d: nat, srow: int): (o: Snapshot)
    requires Shaped(s) && si < 7 && d < 7
    ensures Shaped(o)
  {
    var stab := s.tableau[si];
    s.(tableau := MoveRun(s.tableau, si, d, srow),
       history := s.history + [Record(T(si), T(d), Many(Heads(stab[Py.SliceStart(|stab|, srow)..])))])
  }

  /** One more single-card draw moves the next card of the original stack
      onto the waste. */
  lemma DrawsStep(s: Snapshot, j: nat)
    requires j < |s.stack|
    requires Draws(s, j).stack == s.stack[..|s.stack| - j]
    requires Draws(s, j).waste == Reversed(s.stack[|s.stack| - j..])
    ensures Draws(s, j + 1).stack == s.stack[..|s.stack| - (j + 1)]
    ensures Draws(s, j + 1).waste == Reversed(s.stack[|s.stack| - (j + 1)..])
  {
    var n := |s.stack|;
    var d := Draws(s, j);
    assert d.stack != [];
    assert Draws(s, j + 1) == DrawOutcome(d, true).s;
    ReversedFrom(s.stack, n - j - 1);
    assert s.stack[..n - j][..n - j - 1] == s.stack[..n - j - 1];
  }

  /** `draw(draw_one)`: from a non-empty stack, one card (or three) goes
      from the top of the stack to the top of the waste, fewer when the stack
      runs out, and the result is 0. An empty stack is refilled from the
      waste in reverse order (the result is 1) at the cost of 100 points when
      drawing single cards, never going below 0. With both empty the result is
      -1 and nothing changes. */
  function DrawOutcome(s: Snapshot, drawOne: bool): (o: Outcome<int>)
    ensures o.r.Ok?
    ensures o.r.value == -1 <==> s.stack == [] && s.waste == []
    ensures o.r.value == -1 ==> o.s == s
    ensures o.r.value != -1 ==> o.s.moves == s.moves + 1
    ensures o.s.tableau == s.tableau && o.s.foundation == s.foundation && o.s.history == s.history
    ensures o.r.value == 0 ==> s.stack != [] && o.s.points == s.points
    ensures o.r.value == 1 ==> o.s.waste == [] && o.s.points == Max0(s.points - if drawOne then 100 else 0)
    ensures o.r.value == 0 && drawOne ==>
      o.s.stack == s.stack[..|s.stack| - 1] && o.s.waste == s.waste + [s.stack[|s.stack| - 1]]
  {
    if s.stack == [] then
      if s.waste == [] then Outcome(Ok(-1), s)
      else Outcome(Ok(1), s.(
        stack := Reversed(s.waste),
        waste := [],
        moves := s.moves + 1,
        points := Max0(s.points - if drawOne then 100 else 0)))
    else
      var n := if drawOne then 1 else 3;
      var k := if n <= |s.stack| then n else |s.stack|;
      Outcome(Ok(0), s.(
        stack := s.stack[..|s.stack| - k],
        waste := s.waste + Reversed(s.stack[|s.stack| - k..]),
        moves := s.moves + 1))
  }

  /** Drawing and refilling keep the cards of stack and waste together. */
  lemma DrawKeepsCards(s: Snapshot, drawOne: bool)
    ensures var o := DrawOutcome(s, drawOne).s;
      multiset(o.stack) + multiset(o.waste) == multiset(s.stack) + multiset(s.waste)
  {
    var o := DrawOutcome(s, drawOne).s;
    if s.stack == [] {
      ReversedKeeps(s.waste);
    } else {
      var k := |s.stack| - |o.stack|;
      var top := s.stack[|s.stack| - k..];
      assert s.stack == o.stack + top;
      ReversedKeeps(top);
      MultisetAppend(o.stack, top);
      MultisetAppend(s.waste, Reversed(top));
    }
  }

  /** The state after `n` single-card draws. */
  function Draws(s: Snapshot, n: nat): Snapshot {
    if n == 0 then s else DrawOutcome(Draws(s, n - 1), true).s
  }

  /** Drawing single cards through the whole stack turns it over onto the
      waste, so a refill afterwards restores the stack as it was dealt. */
  lemma {:induction false} DrawingThroughRestores(s: Snapshot)
    requires s.waste == []
    ensures Draws(s, |s.stack|).stack == [] && Draws(s, |s.stack|).waste == Reversed(s.stack)
    ensures s.stack != [] ==> DrawOutcome(Draws(s, |s.stack|), true).s.stack == s.stack
  {
    var n := |s.stack|;
    for j := 0 to n
      invariant Draws(s, j).stack == s.stack[..n - j]
      invariant Draws(s, j).waste == Reversed(s.stack[n - j..])
    {
      DrawsStep(s, j);
    }
    assert s.stack[n - n..] == s.stack;
    ReversedTwice(s.stack);
  }

  /** The pile a history tag names, popped: the waste (`'w'`), a tableau
      pile (`'t<i>'`) or a foundation pile (`'f<i>'`). A missing pile or an
      empty one raises `IndexError`. */
  datatype Taken = Taken(item: Item, s: Snapshot)

  function TakeFrom(s: Snapshot, from: Tag): (r: Result<Taken>)
    requires Shaped(s) && !from.S?
    ensures r.Err? ==> r.error == IndexError
    ensures r.Ok? ==> Shaped(r.value.s)
    ensures r.Ok? ==> r.value.s.stack == s.stack && r.value.s.history == s.history
    ensures r.Ok? ==> r.value.s.moves == s.moves && r.value.s.points == s.points
  {
    match from
    case W =>
      if s.waste == [] then Err(IndexError)
      else Ok(Taken(s.waste[|s.waste| - 1], s.(waste := s.waste[..|s.waste| - 1])))
    case T(i) =>
      if i >= 7 || s.tableau[i] == [] then Err(IndexError)
      else Ok(Taken(s.tableau[i][|s.tableau[i]| - 1], s.(tableau := s.tableau[i := s.tableau[i][..|s.tableau[i]| - 1]])))
    case F(i) =>
      if i >= 4 || s.foundation[i] == [] then Err(IndexError)
      else Ok(Taken(s.foundation[i][|s.foundation[i]| - 1], s.(foundation := s.foundation[i := s.foundation[i][..|s.foundation[i]| - 1]])))
  }

  /** `undo()`: drops the last history record and 15 points (never below
      0), then takes the top item of the record's `to` place back to its
      `from` place: the waste back onto the stack, an item back onto the
      waste or a foundation pile, or an item, wrapped as the open entry
      `[item, 1]`, back onto a tableau pile. An empty history, an empty waste
      for `'s'` and a pair of places no move produces raise `ValueError`; a
      missing or empty pile raises `IndexError`. */
  function UndoOutcome(s: Snapshot): (o: Outcome<bool>)
    requires Shaped(s)
    ensures Shaped(o.s)
    ensures o.s.moves == s.moves + 1
    ensures s.history == [] ==> o.r == Err(ValueError) && o.s == s.(moves := s.moves + 1)
    ensures s.history != [] ==> o.s.history == s.history[..|s.history| - 1] && o.s.points == Max0(s.points - 15)
    ensures o.r.Ok? ==> o.r.value
    ensures o.r.Err? ==> o.r.error == ValueError || o.r.error == IndexError
  {
    if s.history == [] then Outcome(Err(ValueError), s.(moves := s.moves + 1))
    else
      var rec := s.history[|s.history| - 1];
      Restore(s.(history := s.history[..|s.history| - 1], moves := s.moves + 1, points := Max0(s.points - 15)), rec)
  }

  /** The second half of `undo()`: the record `rec`, already dropped from
      the history of `s1`, is reverted. */
  function Restore(s1: Snapshot, rec: Record): (o: Outcome<bool>)
    requires Shaped(s1)
    ensures Shaped(o.s)
    ensures o.s.moves == s1.moves && o.s.history == s1.history && o.s.points == s1.points
    ensures o.r.Ok? ==> o.r.value
    ensures o.r.Err? ==> o.r.error == ValueError || o.r.error == IndexError
  {
    match rec.from
    case S =>
      if s1.waste == [] then Outcome(Err(ValueError), s1)
      else Outcome(Ok(true), s1.(stack := s1.stack + [s1.waste[|s1.waste| - 1]], waste := s1.waste[..|s1.waste| - 1]))
    case W =>
      if rec.to.W? || rec.to.S? then Outcome(Err(ValueError), s1)
      else (match TakeFrom(s1, rec.to)
        case Err(e) => Outcome(Err(e), s1)
        case Ok(Taken(c, s2)) => Outcome(Ok(true), s2.(waste := s2.waste + [c])))
    case F(d) =>
      if rec.to.F? || rec.to.S? then Outcome(Err(ValueError), s1)
      else (match TakeFrom(s1, rec.to)
        case Err(e) => Outcome(Err(e), s1)
        case Ok(Taken(c, s2)) =>
          if d >= 4 then Outcome(Err(IndexError), s2)
          else Outcome(Ok(true), s2.(foundation := s2.foundation[d := s2.foundation[d] + [c]])))
    case T(d) =>
      if rec.to.T? || rec.to.S? then Outcome(Err(ValueError), s1)
      else (match TakeFrom(s1, rec.to)
        case Err(e) => Outcome(Err(e), s1)
        case Ok(Taken(c, s2)) =>
          if d >= 7 then Outcome(Err(IndexError), s2)
          else Outcome(Ok(true), s2.(tableau := s2.tableau[d := s2.tableau[d] + [Entry(c, 1)]])))
  }

  /** Number of items on all piles. */
  function TotalCount(ps: seq<seq<Item>>): (n: nat)
    ensures ps == [] ==> n == 0
  {
    if ps == [] then 0 else TotalCount(ps[..|ps| - 1]) + |ps[|ps| - 1]|
  }

  /** `win_condition`: the foundation piles hold 52 items together. */
  predicate Won(s: Snapshot) {
    TotalCount(s.foundation) == 52
  }

  /** With at most 13 items on each of the four foundation piles, the game
      is won exactly when every foundation pile holds 13. */
  lemma WonIffFull(s: Snapshot)
    requires Shaped(s) && forall f :: 0 <= f < 4 ==> |s.foundation[f]| <= 13
    ensures Won(s) <==> forall f :: 0 <= f < 4 ==> |s.foundation[f]| == 13
  {
    var ps := s.foundation;
    assert TotalCount(ps[..1]) == |ps[0]| by {
      assert ps[..1][..0] == [];
    }
    assert TotalCount(ps[..2]) == |ps[0]| + |ps[1]| by {
      assert ps[..2][..1] == ps[..1];
    }
    assert TotalCount(ps[..3]) == |ps[0]| + |ps[1]| + |ps[2]| by {
      assert ps[..3][..2] == ps[..2];
    }
    assert ps[..4] == ps;
  }

  /** Undoing a waste-to-foundation move puts the card back on the waste:
      piles, stack and history are as before, the points are 15 below the
      move's 10 (never below 0) and both calls count as moves. */
  lemma UndoRevertsWasteToFoundation(valid: Rule, s: Snapshot, col: Option<nat>)
    requires Shaped(s) && WasteToFoundationOutcome(valid, s, col).r == Ok(true)
    ensures var u := UndoOutcome(WasteToFoundationOutcome(valid, s, col).s);
      u.r == Ok(true) && u.s.waste == s.waste && u.s.foundation == s.foundation &&
      u.s.tableau == s.tableau && u.s.stack == s.stack && u.s.history == s.history &&
      u.s.moves == s.moves + 2 && u.s.points == Max0(s.points - 5)
  {
    var wc := s.waste[|s.waste| - 1];
    var f := FirstOk(Areas.Candidates(4, col), FoundationFits(valid, s.foundation, wc)).value;
    assert WasteToFoundationOutcome(valid, s, col).s == WasteToFoundationMove(s.(moves := s.moves + 1), f);
    UndoAfterWasteToFoundation(s.(moves := s.moves + 1), f);
  }

  /** `UndoRevertsWasteToFoundation` for the move onto foundation pile `f`. */
  lemma UndoAfterWasteToFoundation(s: Snapshot, f: nat)
    requires Shaped(s) && f < 4 && s.waste != []
    ensures var u := UndoOutcome(WasteToFoundationMove(s, f));
      u.r == Ok(true) && u.s.waste == s.waste && u.s.foundation == s.foundation &&
      u.s.tableau == s.tableau && u.s.stack == s.stack && u.s.history == s.history &&
      u.s.moves == s.moves + 1 && u.s.points == Max0(s.points - 5)
  {
    var o := WasteToFoundationMove(s, f);
    UndoIntoWasteFromFoundation(o, f);
    assert o.history[..|o.history| - 1] == s.history;
    assert o.foundation[f][..|o.foundation[f]| - 1] == s.foundation[f];
    assert s.waste[..|s.waste| - 1] + [s.waste[|s.waste| - 1]] == s.waste;
  }

  /** Undoing a waste-to-tableau move empties the tableau pile again, but
      what returns to the waste is the tableau entry `[card, 1]`, not the
      card itself. */
  lemma UndoWrapsWasteToTableau(valid: Rule, s: Snapshot, col: Option<nat>)
    requires Shaped(s) && WasteToTableauOutcome(valid, s, col).r == Ok(true)
    ensures var u := UndoOutcome(WasteToTableauOutcome(valid, s, col).s);
      var wc := s.waste[|s.waste| - 1];
      u.r == Ok(true) && u.s.tableau == s.tableau && u.s.foundation == s.foundation &&
      u.s.waste == s.waste[..|s.waste| - 1] + [Entry(wc, 1)] && u.s.waste != s.waste &&
      u.s.stack == s.stack && u.s.history == s.history && u.s.points == Max0(s.points - 10)
  {
    var wc := s.waste[|s.waste| - 1];
    var t := FirstOk(Areas.Candidates(7, col), TableauFits(valid, s.tableau, wc)).value;
    assert WasteToTableauOutcome(valid, s, col).s == WasteToTableauMove(s.(moves := s.moves + 1), t);
    UndoAfterWasteToTableau(s.(moves := s.moves + 1), t);
  }

  /** `UndoWrapsWasteToTableau` for the move onto tableau pile `t`. */
  lemma UndoAfterWasteToTableau(s: Snapshot, t: nat)
    requires Shaped(s) && t < 7 && s.waste != []
    ensures var u := UndoOutcome(WasteToTableauMove(s, t));
      var wc := s.waste[|s.waste| - 1];
      u.r == Ok(true) && u.s.tableau == s.tableau && u.s.foundation == s.foundation &&
      u.s.waste == s.waste[..|s.waste| - 1] + [Entry(wc, 1)] && u.s.waste != s.waste &&
      u.s.stack == s.stack && u.s.history == s.history && u.s.points == Max0(s.points - 10)
  {
    var wc := s.waste[|s.waste| - 1];
    var o := WasteToTableauMove(s, t);
    UndoIntoWasteFromTableau(o, t);
    assert o.history[..|o.history| - 1] == s.history;
    assert o.tableau[t][..|o.tableau[t]| - 1] == s.tableau[t];
    assert Entry(wc, 1) != wc;
  }

  /** Undoing a foundation-to-tableau move empties the tableau pile again,
      but the foundation pile gets the entry `[card, 1]` back, not the card. */
  lemma UndoWrapsFoundationToTableau(valid: Rule, s: Snapshot, col: nat, tcol: Option<nat>)
    requires Shaped(s) && FoundationToTableauOutcome(valid, s, col, tcol).r == Ok(true)
    ensures var u := UndoOutcome(FoundationToTableauOutcome(valid, s, col, tcol).s);
      var fnd := s.foundation[col];
      u.r == Ok(true) && u.s.tableau == s.tableau &&
      u.s.foundation == s.foundation[col := fnd[..|fnd| - 1] + [Entry(fnd[|fnd| - 1], 1)]] &&
      u.s.waste == s.waste && u.s.stack == s.stack && u.s.history == s.history
  {
    var fnd := s.foundation[col];
    var card := fnd[|fnd| - 1];
    var t := FirstOk(Areas.Candidates(7, tcol), TableauFits(valid, s.tableau, card)).value;
    assert FoundationToTableauOutcome(valid, s, col, tcol).s == FoundationToTableauMove(s.(moves := s.moves + 1), col, t);
    UndoAfterFoundationToTableau(s.(moves := s.moves + 1), col, t);
  }

  /** `UndoWrapsFoundationToTableau` for the move onto tableau pile `t`. */
  lemma UndoAfterFoundationToTableau(s: Snapshot, f: nat, t: nat)
    requires Shaped(s) && f < 4 && t < 7 && s.foundation[f] != []
    ensures var u := UndoOutcome(FoundationToTableauMove(s, f, t));
      var fnd := s.foundation[f];
      u.r == Ok(true) && u.s.tableau == s.tableau &&
      u.s.foundation == s.foundation[f := fnd[..|fnd| - 1] + [Entry(fnd[|fnd| - 1], 1)]] &&
      u.s.waste == s.waste && u.s.stack == s.stack && u.s.history == s.history
  {
    var o := FoundationToTableauMove(s, f, t);
    UndoIntoFoundation(o, f, t);
    assert o.history[..|o.history| - 1] == s.history;
    assert o.tableau[t][..|o.tableau[t]| - 1] == s.tableau[t];
  }

  /** Undoing a tableau-to-foundation move returns the card to its tableau
      pile as an open entry: when that pile's top entry was open, tableau and
      foundation are restored. */
  lemma UndoRevertsTableauToFoundation(valid: Rule, s: Snapshot, col: Option<nat>, fcol: Option<nat>)
    requires Shaped(s) && TableauToFoundationOutcome(valid, s, col, fcol).r == Ok(true)
    requires forall t :: 0 <= t < 7 && s.tableau[t] != [] ==> s.tableau[t][|s.tableau[t]| - 1].open == 1
    ensures var u := UndoOutcome(TableauToFoundationOutcome(valid, s, col, fcol).s);
      u.r == Ok(true) && u.s.tableau == s.tableau && u.s.foundation == s.foundation &&
      u.s.waste == s.waste && u.s.stack == s.stack && u.s.history == s.history &&
      u.s.points == Max0(s.points - 5)
  {
    var p := ScanToFoundation(valid, s.tableau, s.foundation, Areas.Candidates(7, col), Areas.Candidates(4, fcol)).value.value;
    assert TableauToFoundationOutcome(valid, s, col, fcol).s == TableauToFoundationMove(s.(moves := s.moves + 1), p.src, p.dst);
    UndoAfterTableauToFoundation(s.(moves := s.moves + 1), p.src, p.dst);
  }

  /** `UndoRevertsTableauToFoundation` for the move from tableau pile `t`
      to foundation pile `f`, whose top entry is open. */
  lemma UndoAfterTableauToFoundation(s: Snapshot, t: nat, f: nat)
    requires Shaped(s) && t < 7 && f < 4 && s.tableau[t] != []
    requires s.tableau[t][|s.tableau[t]| - 1].open == 1
    ensures var u := UndoOutcome(TableauToFoundationMove(s, t, f));
      u.r == Ok(true) && u.s.tableau == s.tableau && u.s.foundation == s.foundation &&
      u.s.waste == s.waste && u.s.stack == s.stack && u.s.history == s.history &&
      u.s.points == Max0(s.points - 5)
  {
    var o := TableauToFoundationMove(s, t, f);
    UndoIntoTableau(o, t, f);
    var tab := s.tableau[t];
    var top := tab[|tab| - 1];
    assert o.history[..|o.history| - 1] == s.history;
    assert o.foundation[f][..|o.foundation[f]| - 1] == s.foundation[f];
    assert top == Entry(top.item, 1);
    assert tab[..|tab| - 1] + [top] == tab;
  }

  /** Undoing a record `('w', 'f<b>', _)` moves the top of foundation pile
      `b` back onto the waste. */
  lemma UndoIntoWasteFromFoundation(o: Snapshot, b: nat)
    requires Shaped(o) && b < 4 && o.foundation[b] != []
    requires o.history != [] && o.history[|o.history| - 1].from == W && o.history[|o.history| - 1].to == F(b)
    ensures var fb := o.foundation[b];
      UndoOutcome(o) == Outcome(Ok(true), o.(
        history := o.history[..|o.history| - 1],
        moves := o.moves + 1,
        points := Max0(o.points - 15),
        foundation := o.foundation[b := fb[..|fb| - 1]],
        waste := o.waste + [fb[|fb| - 1]]))
  {
  }

  /** Undoing a record `('w', 't<b>', _)` moves the top entry of tableau
      pile `b` back onto the waste. */
  lemma UndoIntoWasteFromTableau(o: Snapshot, b: nat)
    requires Shaped(o) && b < 7 && o.tableau[b] != []
    requires o.history != [] && o.history[|o.history| - 1].from == W && o.history[|o.history| - 1].to == T(b)
    ensures var tb := o.tableau[b];
      UndoOutcome(o) == Outcome(Ok(true), o.(
        history := o.history[..|o.history| - 1],
        moves := o.moves + 1,
        points := Max0(o.points - 15),
        tableau := o.tableau[b := tb[..|tb| - 1]],
        waste := o.waste + [tb[|tb| - 1]]))
  {
  }

  /** Undoing a record `('f<a>', 't<b>', _)` moves the top entry of tableau
      pile `b` back onto foundation pile `a`. */
  lemma UndoIntoFoundation(o: Snapshot, a: nat, b: nat)
    requires Shaped(o) && a < 4 && b < 7 && o.tableau[b] != []
    requires o.history != [] && o.history[|o.history| - 1].from == F(a) && o.history[|o.history| - 1].to == T(b)
    ensures var tb := o.tableau[b];
      UndoOutcome(o) == Outcome(Ok(true), o.(
        history := o.history[..|o.history| - 1],
        moves := o.moves + 1,
        points := Max0(o.points - 15),
        tableau := o.tableau[b := tb[..|tb| - 1]],
        foundation := o.foundation[a := o.foundation[a] + [tb[|tb| - 1]]]))
  {
  }

  /** Undoing a record `('t<a>', 'f<b>', _)` moves the top of foundation
      pile `b` back onto tableau pile `a` as an open entry. */
  lemma UndoIntoTableau(o: Snapshot, a: nat, b: nat)
    requires Shaped(o) && a < 7 && b < 4 && o.foundation[b] != []
    requires o.history != [] && o.history[|o.history| - 1].from == T(a) && o.history[|o.history| - 1].to == F(b)
    ensures var fb := o.foundation[b];
      UndoOutcome(o) == Outcome(Ok(true), o.(
        history := o.history[..|o.history| - 1],
        moves := o.moves + 1,
        points := Max0(o.points - 15),
        foundation := o.foundation[b := fb[..|fb| - 1]],
        tableau := o.tableau[a := o.tableau[a] + [Entry(fb[|fb| - 1], 1)]]))
  {
  }

  /** A tableau-to-tableau move cannot be undone: `undo` drops its record
      and 15 points, raises `ValueError`, and the cards stay where they
      went. */
  lemma UndoRefusesTableauToTableau(valid: Rule, s: Snapshot, scol: Option<nat>, ecol: Option<nat>, srow: int)
    requires Shaped(s) && TableauToTableauOutcome(valid, s, scol, ecol, srow).r == Ok(true)
    ensures var o := TableauToTableauOutcome(valid, s, scol, ecol, srow).s;
      var u := UndoOutcome(o);
      u.r == Err(ValueError) && u.s.history == s.history && u.s.tableau == o.tableau &&
      u.s.points == Max0(s.points - 15)
  {
    var o := TableauToTableauOutcome(valid, s, scol, ecol, srow).s;
    assert o.history[|o.history| - 1].from.T? && o.history[|o.history| - 1].to.T?;
    assert o.history[..|o.history| - 1] == s.history;
  }

  /** A dealt tableau entry `[card, open]`. */
  function EntryOf(d: Rules.Dealt): Slot {
    Entry(Face(d.card.0, d.card.1), d.open)
  }

  /** The cards of a list of faces. */
  function FacesOf(fs: seq<Rules.Face>): (cs: seq<Item>)
    ensures |cs| == |fs| && forall i :: 0 <= i < |fs| ==> cs[i] == Face(fs[i].0, fs[i].1)
  {
    seq(|fs|, i requires 0 <= i < |fs| => Face(fs[i].0, fs[i].1))
  }

  /** The table object. Its lists are replaced by updated copies; `moves`
      and `points` are counters. */
  class Table {
    const validMove: Rule
    var tableau: seq<seq<Slot>>
    var foundation: seq<seq<Item>>
    var stack: seq<Item>
    var waste: seq<Item>
    var history: seq<Record>
    var moves: int
    var points: int

    function State(): Snapshot
      reads this
    {
      Snapshot(tableau, foundation, stack, waste, history, moves, points)
    }

    ghost predicate Valid()
      reads this
    {
      Shaped(State())
    }

    /** A new table: seven empty tableau piles, four empty foundation piles,
        empty stack, waste and history, no moves and no points. */
    constructor (validMove: Rule)
      ensures Valid() && this.validMove == validMove
      ensures tableau == seq(7, _ => []) && foundation == seq(4, _ => [])
      ensures stack == [] && waste == [] && history == [] && moves == 0 && points == 0
    {
      this.validMove := validMove;
      tableau := seq(7, _ => []);
      foundation := seq(4, _ => []);
      stack, waste, history := [], [], [];
      moves, points := 0, 0;
    }

    /** `waste_card`: the top of the waste, or `None`. */
    function WasteCard(): (r: Option<Item>)
      reads this
      ensures r.None? <==> waste == []
      ensures r.Some? ==> r.value == waste[|waste| - 1]
    {
      if waste != [] then Some(waste[|waste| - 1]) else None
    }

    /** `win_condition`. */
    function WinCondition(): (r: bool)
      reads this
      ensures r <==> Won(State())
    {
      TotalCount(foundation) == 52
    }

    /** `start`: the move counter starts again from 0 (the clock is not
        part of this model). */
    method Start()
      modifies this`moves
      ensures moves == 0
    {
      moves := 0;
    }

    /** `deal`: tableau and stack as the deal of `deck` leaves them; waste,
        foundation and history are not touched. */
    method Deal(deck: seq<Rules.Face>)
      requires Valid() && |deck| >= 28
      modifies this`tableau, this`stack
      ensures Valid()
      ensures forall t :: 0 <= t < 7 ==> |tableau[t]| == t + 1
      ensures forall t, r :: 0 <= r <= t < 7 ==> tableau[t][r] == EntryOf(Rules.DealtAt(deck, t, r))
      ensures stack == FacesOf(deck[..|deck| - 28])
    {
      var dealt, rest := Rules.Deal(deck);
      tableau := seq(7, t requires 0 <= t < 7 =>
        seq(|dealt[t]|, r requires 0 <= r < |dealt[t]| => EntryOf(dealt[t][r])));
      stack := FacesOf(rest);
    }

    /** `draw(draw_one)`, proved against `DrawOutcome`. */
    method Draw(drawOne: bool) returns (r: int)
      requires Valid()
      modifies this
      ensures Valid()
      ensures Ok(r) == DrawOutcome(old(State()), drawOne).r
      ensures State() == DrawOutcome(old(State()), drawOne).s
    {
      moves := moves + 1;
      if stack == [] {
        if waste == [] {
          moves := moves - 1;
          return -1;
        }
        stack := Reversed(waste);
        waste := [];
        points := points - if drawOne then 100 else 0;
        points := if points > 0 then points else 0;
        return 1;
      }
      var n := if drawOne then 1 else 3;
      var st, wa := stack, waste;
      for i := 0 to n
        invariant var j := if i <= |stack| then i else |stack|;
          st == stack[..|stack| - j] && wa == waste + Reversed(stack[|stack| - j..])
      {
        if st != [] {
          wa := wa + [st[|st| - 1]];
          st := st[..|st| - 1];
        }
      }
      stack, waste := st, wa;
      return 0;
    }

    /** The search loop of the moves onto the tableau: the position in
        `cands` of the first pile `card` fits, `|cands|` if there is none. */
    method FindTableau(card: Item, cands: seq<nat>) returns (i: nat)
      requires Valid() && InRange(cands, 7)
      ensures i <= |cands|
      ensures FirstOk(cands, TableauFits(validMove, tableau, card)) == if i < |cands| then Some(cands[i]) else None
    {
      ghost var ok := TableauFits(validMove, tableau, card);
      i := 0;
      while i < |cands| && !FitsTableau(validMove, tableau[cands[i]], card)
        invariant i <= |cands|
        invariant forall j :: 0 <= j < i ==> !ok[cands[j]]
      {
        i := i + 1;
      }
      FirstOkAt(cands, ok, i);
    }

    /** The search loop of the moves onto a foundation pile. */
    method FindFoundation(card: Item, cands: seq<nat>) returns (i: nat)
      requires Valid() && InRange(cands, 4)
      ensures i <= |cands|
      ensures FirstOk(cands, FoundationFits(validMove, foundation, card)) == if i < |cands| then Some(cands[i]) else None
    {
      ghost var ok := FoundationFits(validMove, foundation, card);
      i := 0;
      while i < |cands| && !FitsFoundation(validMove, foundation[cands[i]], card)
        invariant i <= |cands|
        invariant forall j :: 0 <= j < i ==> !ok[cands[j]]
      {
        i := i + 1;
      }
      FirstOkAt(cands, ok, i);
    }

    /** `waste_to_tableau(col)`, proved against `WasteToTableauOutcome`. */
    method WasteToTableau(col: Option<nat>) returns (r: Result<bool>)
      requires Valid()
      modifies this
      ensures Valid()
      ensures r == WasteToTableauOutcome(validMove, old(State()), col).r
      ensures State() == WasteToTableauOutcome(validMove, old(State()), col).s
    {
      moves := moves + 1;
      if waste == [] {
        moves := moves - 1;
        return Ok(false);
      }
      if col.Some? && col.value >= 7 {
        return Err(IndexError);
      }
      var wc := waste[|waste| - 1];
      var cands := Areas.Candidates(7, col);
      var i := FindTableau(wc, cands);
      if i == |cands| {
        moves := moves - 1;
        return Ok(false);
      }
      WasteOntoTableau(cands[i]);
      return Ok(true);
    }

    /** The success branch of `waste_to_tableau`. */
    method WasteOntoTableau(t: nat)
      requires Valid() && t < 7 && waste != []
      modifies this
      ensures Valid()
      ensures State() == WasteToTableauMove(old(State()), t)
    {
      var wc := waste[|waste| - 1];
      tableau := tableau[t := tableau[t] + [Entry(wc, 1)]];
      waste := waste[..|waste| - 1];
      history := history + [Record(W, T(t), One(wc))];
      points := points + 5;
    }

    /** `waste_to_foundation(col)`, proved against
        `WasteToFoundationOutcome`. */
    method WasteToFoundation(col: Option<nat>) returns (r: Result<bool>)
      requires Valid()
      modifies this
      ensures Valid()
      ensures r == WasteToFoundationOutcome(validMove, old(State()), col).r
      ensures State() == WasteToFoundationOutcome(validMove, old(State()), col).s
    {
      moves := moves + 1;
      if waste == [] {
        moves := moves - 1;
        return Ok(false);
      }
      if col.Some? && col.value >= 4 {
        return Err(IndexError);
      }
      var wc := waste[|waste| - 1];
      var cands := Areas.Candidates(4, col);
      var i := FindFoundation(wc, cands);
      if i == |cands| {
        moves := moves - 1;
        return Ok(false);
      }
      WasteOntoFoundation(cands[i]);
      return Ok(true);
    }

    /** The success branch of `waste_to_foundation`. */
    method WasteOntoFoundation(f: nat)
      requires Valid() && f < 4 && waste != []
      modifies this
      ensures Valid()
      ensures State() == WasteToFoundationMove(old(State()), f)
    {
      var wc := waste[|waste| - 1];
      foundation := foundation[f := foundation[f] + [wc]];
      waste := waste[..|waste| - 1];
      history := history + [Record(W, F(f), One(wc))];
      points := points + 10;
    }

    /** `foundation_to_tableau(col, tcol)`, proved against
        `FoundationToTableauOutcome`. */
    method FoundationToTableau(col: nat, tcol: Option<nat>) returns (r: Result<bool>)
      requires Valid()
      modifies this
      ensures Valid()
      ensures r == FoundationToTableauOutcome(validMove, old(State()), col, tcol).r
      ensures State() == FoundationToTableauOutcome(validMove, old(State()), col, tcol).s
    {
      moves := moves + 1;
      if col >= 4 {
        return Err(IndexError);
      }
      if foundation[col] == [] {
        moves := moves - 1;
        return Ok(false);
      }
      if tcol.Some? && tcol.value >= 7 {
        return Err(IndexError);
      }
      var card := foundation[col][|foundation[col]| - 1];
      var cands := Areas.Candidates(7, tcol);
      var i := FindTableau(card, cands);
      if i == |cands| {
        moves := moves - 1;
        return Ok(false);
      }
      FoundationOntoTableau(col, cands[i]);
      return Ok(true);
    }

    /** The success branch of `foundation_to_tableau`. */
    method FoundationOntoTableau(f: nat, t: nat)
      requires Valid() && f < 4 && t < 7 && foundation[f] != []
      modifies this
      ensures Valid()
      ensures State() == FoundationToTableauMove(old(State()), f, t)
    {
      var card := foundation[f][|foundation[f]| - 1];
      foundation := foundation[f := foundation[f][..|foundation[f]| - 1]];
      tableau := tableau[t := tableau[t] + [Entry(card, 1)]];
      history := history + [Record(F(f), T(t), One(card))];
      points := Max0(points - 15);
    }

    /** The nested search loops of `tableau_to_foundation`. */
    method ScanFoundation(srcs: seq<nat>, dsts: seq<nat>) returns (r: Result<Option<Pair>>)
      requires Valid() && InRange(srcs, 7) && InRange(dsts, 4)
      ensures r == ScanToFoundation(validMove, tableau, foundation, srcs, dsts)
    {
      assert srcs[0..] == srcs;
      for k := 0 to |srcs|
        invariant ScanToFoundation(validMove, tableau, foundation, srcs[k..], dsts) ==
                  ScanToFoundation(validMove, tableau, foundation, srcs, dsts)
      {
        var tab := tableau[srcs[k]];
        if tab == [] {
          return Err(IndexError);
        }
        var i := FindFoundation(tab[|tab| - 1].item, dsts);
        if i < |dsts| {
          return Ok(Some(Pair(srcs[k], dsts[i])));
        }
        assert srcs[k..][1..] == srcs[k + 1..];
      }
      return Ok(None);
    }

    /** `tableau_to_foundation(col, fcol)`, proved against
        `TableauToFoundationOutcome`. */
    method TableauToFoundation(col: Option<nat>, fcol: Option<nat>) returns (r: Result<bool>)
      requires Valid()
      modifies this
      ensures Valid()
      ensures r == TableauToFoundationOutcome(validMove, old(State()), col, fcol).r
      ensures State() == TableauToFoundationOutcome(validMove, old(State()), col, fcol).s
    {
      moves := moves + 1;
      if col.Some? {
        if col.value >= 7 {
          return Err(IndexError);
        }
        if tableau[col.value] == [] {
          moves := moves - 1;
          return Ok(false);
        }
      }
      if fcol.Some? {
        if fcol.value >= 4 {
          return Err(IndexError);
        }
        if foundation[fcol.value] == [] {
          moves := moves - 1;
          return Ok(false);
        }
      }
      var found := ScanFoundation(Areas.Candidates(7, col), Areas.Candidates(4, fcol));
      match found
      case Err(e) =>
        return Err(e);
      case Ok(None) =>
        moves := moves - 1;
        return Ok(false);
      case Ok(Some(Pair(t, f))) =>
        TableauOntoFoundation(t, f);
        return Ok(true);
    }

    /** The success branch of `tableau_to_foundation`. */
    method TableauOntoFoundation(t: nat, f: nat)
      requires Valid() && t < 7 && f < 4 && tableau[t] != []
      modifies this
      ensures Valid()
      ensures State() == TableauToFoundationMove(old(State()), t, f)
    {
      var tab := tableau[t];
      var card := tab[|tab| - 1].item;
      foundation := foundation[f := foundation[f] + [card]];
      tableau := tableau[t := tab[..|tab| - 1]];
      history := history + [Record(T(t), F(f), One(card))];
      points := points + 10;
    }

    /** The inner search loop of `tableau_to_tableau` for the run of pile
        `si` whose first card is `card`. */
    method FindTarget(si: nat, card: Item, scol: Option<nat>, ecol: Option<nat>) returns (r: Result<Option<nat>>)
      requires Valid() && si < 7 && (ecol.Some? ==> ecol.value < 7)
      ensures r == TableauTarget(validMove, tableau, si, card, scol, ecol)
    {
      if ecol.Some? {
        if scol.Some? {
          return Ok(None);
        }
        if !FitsTableau(validMove, tableau[ecol.value], card) {
          return Ok(None);
        }
        if ecol.value == 0 {
          return Err(TypeError);
        }
        return Ok(Some(ecol.value));
      }
      ghost var ok := TableauFits(validMove, tableau, card)[si := false];
      var cands := Areas.Range(7);
      var i := 0;
      while i < 7 && (cands[i] == si || !FitsTableau(validMove, tableau[cands[i]], card))
        invariant i <= 7
        invariant forall j :: 0 <= j < i ==> !ok[cands[j]]
      {
        i := i + 1;
      }
      FirstOkAt(cands, ok, i);
      if i == 7 {
        return Ok(None);
      }
      return Ok(Some(cands[i]));
    }

    /** The nested search loops of `tableau_to_tableau`. */
    method ScanTableau(srcs: seq<nat>, scol: Option<nat>, ecol: Option<nat>, srow: int) returns (r: Result<Option<Pair>>)
      requires Valid() && InRange(srcs, 7) && (ecol.Some? ==> ecol.value < 7)
      ensures r == ScanToTableau(validMove, tableau, srcs, scol, ecol, srow)
    {
      assert srcs[0..] == srcs;
      for k := 0 to |srcs|
        invariant ScanToTableau(validMove, tableau, srcs[k..], scol, ecol, srow) ==
                  ScanToTableau(validMove, tableau, srcs, scol, ecol, srow)
      {
        var stab := tableau[srcs[k]];
        var row := Py.PyIndex(|stab|, srow);
        if row.None? {
          return Err(IndexError);
        }
        var target := FindTarget(srcs[k], stab[row.value].item, scol, ecol);
        match target
        case Err(e) =>
          return Err(e);
        case Ok(Some(d)) =>
          return Ok(Some(Pair(srcs[k], d)));
        case Ok(None) =>
          assert srcs[k..][1..] == srcs[k + 1..];
      }
      return Ok(None);
    }

    /** `tableau_to_tableau(scol, ecol, srow)`, proved against
        `TableauToTableauOutcome`. */
    method TableauToTableau(scol: Option<nat>, ecol: Option<nat>, srow: int) returns (r: Result<bool>)
      requires Valid()
      modifies this
      ensures Valid()
      ensures r == TableauToTableauOutcome(validMove, old(State()), scol, ecol, srow).r
      ensures State() == TableauToTableauOutcome(validMove, old(State()), scol, ecol, srow).s
    {
      moves := moves + 1;
      if scol.Some? && scol.value >= 7 {
        return Err(IndexError);
      }
      if ecol.Some? && ecol.value >= 7 {
        return Err(IndexError);
      }
      var found := ScanTableau(Areas.Candidates(7, scol), scol, ecol, srow);
      match found
      case Err(e) =>
        return Err(e);
      case Ok(None) =>
        moves := moves - 1;
        return Ok(false);
      case Ok(Some(Pair(si, d))) =>
        RunOntoTableau(si, d, srow);
        return Ok(true);
    }

    /** The success branch of `tableau_to_tableau`: the run is appended to
        the target entry by entry, then popped from the source. */
    method RunOntoTableau(si: nat, d: nat, srow: int)
      requires Valid() && si < 7 && d < 7
      modifies this
      ensures Valid()
      ensures State() == TableauToTableauMove(old(State()), si, d, srow)
    {
      var stab := tableau[si];
      var run := stab[Py.SliceStart(|stab|, srow)..];
      var ts, cards := MoveEntries(tableau, si, d, run);
      tableau := PopEntries(ts, si, srow);
      history := history + [Record(T(si), T(d), Many(cards))];
    }

    /** Pops the top item of the place `from` names (`'w'`, `'t<i>'` or
        `'f<i>'`), proved against `TakeFrom`. */
    method Take(from: Tag) returns (r: Result<Item>)
      requires Valid() && !from.S?
      modifies this
      ensures Valid()
      ensures TakeFrom(old(State()), from).Err? ==> r.Err? && r.error == IndexError && State() == old(State())
      ensures TakeFrom(old(State()), from).Ok? ==>
        r == Ok(TakeFrom(old(State()), from).value.item) && State() == TakeFrom(old(State()), from).value.s
    {
      match from
      case W =>
        if waste == [] {
          return Err(IndexError);
        }
        r := Ok(waste[|waste| - 1]);
        waste := waste[..|waste| - 1];
      case T(i) =>
        if i >= 7 || tableau[i] == [] {
          return Err(IndexError);
        }
        r := Ok(tableau[i][|tableau[i]| - 1]);
        tableau := tableau[i := tableau[i][..|tableau[i]| - 1]];
      case F(i) =>
        if i >= 4 || foundation[i] == [] {
          return Err(IndexError);
        }
        r := Ok(foundation[i][|foundation[i]| - 1]);
        foundation := foundation[i := foundation[i][..|foundation[i]| - 1]];
    }

    /** `undo()`, proved against `UndoOutcome`. */
    method Undo() returns (r: Result<bool>)
      requires Valid()
      modifies this
      ensures Valid()
      ensures r == UndoOutcome(old(State())).r
      ensures State() == UndoOutcome(old(State())).s
    {
      moves := moves + 1;
      if history == [] {
        return Err(ValueError);
      }
      var rec := history[|history| - 1];
      history := history[..|history| - 1];
      points := Max0(points - 15);
      r := RestoreRecord(rec);
    }

    /** The second half of `undo()`, proved against `Restore`. */
    method RestoreRecord(rec: Record) returns (r: Result<bool>)
      requires Valid()
      modifies this
      ensures Valid()
      ensures r == Restore(old(State()), rec).r
      ensures State() == Restore(old(State()), rec).s
    {
      match rec.from
      case S =>
        if waste == [] {
          return Err(ValueError);
        }
        stack := stack + [waste[|waste| - 1]];
        waste := waste[..|waste| - 1];
        return Ok(true);
      case W =>
        if rec.to.W? || rec.to.S? {
          return Err(ValueError);
        }
        var c := Take(rec.to);
        if c.Err? {
          return Err(c.error);
        }
        waste := waste + [c.value];
        return Ok(true);
      case F(d) =>
        if rec.to.F? || rec.to.S? {
          return Err(ValueError);
        }
        var c := Take(rec.to);
        if c.Err? {
          return Err(c.error);
        }
        if d >= 4 {
          return Err(IndexError);
        }
        foundation := foundation[d := foundation[d] + [c.value]];
        return Ok(true);
      case T(d) =>
        if rec.to.T? || rec.to.S? {
          return Err(ValueError);
        }
        var c := Take(rec.to);
        if c.Err? {
          return Err(c.error);
        }
        if d >= 7 {
          return Err(IndexError);
        }
        tableau := tableau[d := tableau[d] + [Entry(c.value, 1)]];
        return Ok(true);
    }
  }

  /** The first loop of a tableau-to-tableau move: each entry of `run` is
      appended to pile `d`, and its card to the list of moved cards. */
  method MoveEntries(tableau: seq<seq<Slot>>, si: nat, d: nat, run: seq<Slot>) returns (ts: seq<seq<Slot>>, cards: seq<Item>)
    requires si < |tableau| && d < |tableau|
    ensures ts == tableau[d := tableau[d] + run]
    ensures cards == Heads(run)
  {
    ts, cards := tableau, [];
    assert run[..0] == [];
    AppendEmpty(tableau[d]);
    UpdateBack(tableau, d, tableau[d]);
    for j := 0 to |run|
      invariant ts == tableau[d := tableau[d] + run[..j]]
      invariant cards == Heads(run[..j])
    {
      assert run[..j + 1] == run[..j] + [run[j]];
      AppendAssoc(tableau[d], run[..j], [run[j]]);
      ts := ts[d := ts[d] + [run[j]]];
      cards := cards + [run[j].item];
    }
    assert run[..|run|] == run;
  }

  /** The second loop of a tableau-to-tableau move: as many entries as
      `ts[si][srow:]` holds are popped from pile `si`. */
  method PopEntries(ts: seq<seq<Slot>>, si: nat, srow: int) returns (r: seq<seq<Slot>>)
    requires si < |ts|
    ensures r == ts[si := ts[si][..Py.SliceStart(|ts[si]|, srow)]]
  {
    var p := ts[si];
    var m := |p| - Py.SliceStart(|p|, srow);
    var q := p;
    for j := 0 to m
      invariant q == p[..|p| - j]
    {
      q := q[..|q| - 1];
    }
    r := ts[si := q];
  }
}

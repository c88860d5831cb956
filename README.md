# pyos core, modelled in Dafny

This project models the logic core of pyos, a Klondike solitaire app
written in Python, and proves properties of the model. It has four parts.

- **Spatial index and geometry.**
  - The region quadtree (`Quadtree`, `Children`, `quadtree_from_pairs`) is a class tree of nodes. Each node holds its items, its child objects and four lazily created children.
  - A pure tree value mirrors it; the properties are proved on that value.
  - `AABB` comparisons are pure functions on the stored 4-tuple.
  - Both `Vector` modules are modelled. The newer one keeps the result type of the left operand and caches the length. In the older one every operator yields a plain `Vector`.
  - The `NodePath` scene graph is a class over a node arena. It models dirty propagation, relative values, traversal, reparenting, attaching, removal and the validating setters.
- **Klondike rules.**
  - Cards and their validity tests.
  - Piles, and the two areas (tableau and foundation) with their move search.
  - The deal over a given deck.
  - The older `Table` state machine: points, move counter, draw and recycle, undo history.
- **Binary codecs.**
  - The little-endian packing of ids, game type, challenge status and result, leaderboard entries, accept messages and day deals.
  - The hash string check and the user id list parser of the multiplayer client.
- **Engine state machines and widget bookkeeping.**
  - `FSM`, `TaskManager` (the clock is a parameter) and `EventHandler` (events are an input sequence).
  - `ButtonList` paging.
  - The `TableLayout` animation queue, drag depths and `v_offset`.

Python exceptions are modelled as `Err(...)`/`Raised(...)` values of the
`Outcomes` module. Dynamically typed arguments, which the setters check
with `isinstance`, are `Py.Value`. Coordinates, angles and scales are
`real`. Card values and ids are unbounded integers, with the packing
ranges written out where `struct` enforces them.

## Model

| member | source | states |
|---|---|---|
| Aabb.Compare | pyos/engine/tools/aabb.py:57-97 | raises `ValueError` exactly for an operand that is not a box, a `Point` or a 2-element list/tuple; a box operand gets the box test of the operator, a point or pair the point test |
| Aabb.LessEqual | pyos/engine/tools/aabb.py:62-65 | `t <= o` holds iff `o` lies inside `t` with touching allowed; against a point iff the point lies in `t` boundary included |
| Aabb.Less | pyos/engine/tools/aabb.py:66-68 | `t < o` holds iff `o` lies strictly inside `t` on all four sides; against a point iff the point is strictly interior |
| Aabb.Greater | pyos/engine/tools/aabb.py:69-75 | `t > o` holds iff `o`'s min corner or max corner is strictly inside `t`, or `t` lies strictly inside `o`; against a point the test is inclusive |
| Aabb.GreaterEqual | pyos/engine/tools/aabb.py:76-82 | `t >= o` holds iff `o`'s min or max corner lies in `t` boundary included, or `o` encloses `t`; against a point the test is inclusive |
| Aabb.Index | pyos/engine/tools/aabb.py:114-117 | `aabb[i]` returns the i-th stored coordinate exactly for an int `0 <= i < 4` (the length is 4) and raises `IndexError` otherwise |
| Aabb.EnclosesIffPointwise | pyos/engine/tools/aabb.py:62-65 | for a normalised `o`, `t <= o` holds iff every point of `o` is a point of `t` |
| Aabb.EnclosesStrictlyIffPointwise | pyos/engine/tools/aabb.py:66-68 | for a normalised `o`, `t < o` holds iff every point of `o` is strictly inside `t` |
| Aabb.StrictImpliesInclusive | pyos/engine/tools/aabb.py:57-97 | `<` implies `<=` and `>` implies `>=`; `<=` implies `>=`; for normalised boxes `<` implies `>` |
| Aabb.GreaterEqualSharesPoint | pyos/engine/tools/aabb.py:76-82 | for normalised boxes `t >= o` implies the boxes share a point: the overlap test has no false positives |
| Aabb.CrossingBoxesNotDetected | pyos/engine/tools/aabb.py:69-82 | two boxes crossing like a plus sign share a point yet `>=` is false in both directions: the overlap test has false negatives |
| Aabb.ReversedBoxIsEmpty | pyos/engine/tools/aabb.py:54-55 | the tuple is stored as given, so a box with `x1 < x0` holds no point and encloses no normalised box |
| Py.PyIndex | pyos/tableau.py:67 | Python list indexing `s[i]`: defined iff `-n <= i < n`, a negative index counting from the end |
| Cards.NewCard | pyos/card.py:42-45 | a new card has the given suit and value and lies face down |
| Cards.SetVisible | pyos/card.py:68-72 | the `visible` setter raises `TypeError` exactly for a non-bool and otherwise sets visibility to the given bool, suit and value unchanged |
| Cards.TableauValid | pyos/card.py:92-103 | false on a face-down card; on a face-up card true iff the suit parities differ and `o.value == value - 1` |
| Cards.FoundationValid | pyos/card.py:105-114 | true iff the suits are equal and `o.value == value + 1`, whatever the visibility |
| Cards.Index | pyos/card.py:85-90 | the index is `((suit, value), 0)` for a face-up card and `((suit, value), 1)` for a face-down one |
| Cards.Equal | pyos/card.py:116-118 | `==` holds iff suit, value and visibility agree |
| Cards.IndexInjective | pyos/card.py:85-90 | two cards with the same index are equal |
| Cards.TableauRunDescends | pyos/card.py:92-103 | in a run built by tableau-valid placements the values step down by one and the suit parities alternate |
| Cards.FoundationRunCounts | pyos/card.py:105-114 | in a run built from an ace by foundation-valid placements card i has value i and the ace's suit |
| Piles.Accepted | pyos/tableau.py:137-151 | base piles accept nothing; an empty tableau pile accepts only a king, an empty foundation pile only an ace; a non-empty pile asks its top card's tableau or foundation test |
| Piles.KingRunGrows | pyos/tableau.py:137-151 | adding an accepted card to a king-headed run keeps it one, with values 12, 11, ... |
| Piles.FoundationRunGrows | pyos/foundation.py:59-73 | adding an accepted card to a foundation run keeps it one, with card i of value i |
| Piles.CountVisible | pyos/tableau.py:160-166 | the number of face-up cards is at most the pile size |
| Piles.CountHidden | pyos/tableau.py:160-166 | the number of face-down cards is at most the pile size |
| Piles.CountsAddUp | pyos/tableau.py:160-167 | visible and hidden counts add up to the pile size |
| Piles.NoneVisible | pyos/tableau.py:170-179 | the visible count is 0 iff no card lies face up |
| Piles.OneVisible | pyos/tableau.py:160-167 | the visible count is 1 iff exactly one card lies face up |
| Piles.TableauStartShape | pyos/tableau.py:153-167 | a tableau pile is in its start state iff it holds `pos + 1` cards of which exactly one is face up |
| Piles.Pile.constructor | pyos/pile.py:43-44 | a new pile is empty, with the given kind and position |
| Piles.Pile.Add | pyos/pile.py:46-53 | the card is pushed on top and nothing else changes |
| Piles.Pile.Remove | pyos/pile.py:55-59 | exactly the top card is popped; an empty pile raises `IndexError` unchanged |
| Piles.Pile.TopCard | pyos/pile.py:82-89 | `None` for an empty pile, the last card otherwise |
| Piles.Pile.Get | pyos/pile.py:98-99 | `pile[i]` is defined iff `-n <= i < n`, with negative indices from the end, and raises `IndexError` otherwise |
| Piles.Pile.Accepts | pyos/pile.py:62-72 | `valid` of the pile's class, as given by `Accepted` |
| Piles.Pile.IsStart | pyos/tableau.py:153-167 | the counting loop returns exactly the start-state predicate of the pile's kind (foundation: empty; base: never) |
| Piles.Pile.IsSolved | pyos/tableau.py:169-179 | true iff every card of the pile lies face up |
| Areas.Range | pyos/area.py:78 | `range(n)` lists `0..n-1` in order |
| Areas.Candidates | pyos/area.py:78 | all piles in order, or only the requested one |
| Areas.ScanMeaning | pyos/area.py:79-83 | the search returns the first candidate, not skipped, whose pile accepts the card, with every earlier candidate passed over; -1 iff every candidate is passed over; `IndexError` only for a candidate past the last pile |
| Areas.ScanInRange | pyos/area.py:78-83 | scanning existing piles never raises |
| Areas.MoveTail | pyos/tableau.py:71 | the moved cards are the last `n` cards of the source |
| Areas.MovePiles | pyos/tableau.py:71-75 | the destination grows by the moved tail, the source loses `n` cards and every other pile is unchanged |
| Areas.MoveResult | pyos/tableau.py:62-77 | `ValueError` when source and destination are equal; -1 for an empty source; otherwise a destination index or -1, or `IndexError` for a missing pile |
| Areas.PopsFit | pyos/tableau.py:67 | when the check card `s[-n]` exists the move takes at most the whole pile and a non-empty tail |
| Areas.MoveApply | pyos/tableau.py:62-77 | a move returning -1 or raising leaves every pile unchanged |
| Areas.MoveTarget | pyos/tableau.py:66-76 | a successful move returns a pile other than the source (the requested one if given) that accepts the card `n` from the top; the top `n` cards move in order and no other pile changes |
| Areas.MovePilesConserves | pyos/tableau.py:71-75 | moving at least one card between two piles (every call moves at least one, pyos/game.py:348) keeps the multiset of all cards |
| Areas.MoveConserves | pyos/tableau.py:62-77 | a tableau move of at least one card (every call, pyos/game.py:348) neither creates nor loses a card |
| Areas.ForceResult | pyos/tableau.py:79-102 | a forced move succeeds only for two different existing piles and a source with at least `n` cards |
| Areas.FlipResult | pyos/tableau.py:104-115 | `flip` raises for a missing pile and returns true iff the pile's top card exists and lies face down |
| Areas.FlipTop | pyos/tableau.py:110-112 | the top card turns face up keeping suit and value; the rest of the pile is unchanged |
| Areas.FlipOnce | pyos/tableau.py:104-115 | after a successful flip a second flip returns false |
| Areas.Area.Piles | pyos/area.py:107-112 | `piles` lists each pile's card list in order |
| Areas.Area.NewPiles | pyos/area.py:49 | `num_piles` fresh, distinct, empty piles of the area's kind, pile i given position i |
| Areas.Area.constructor | pyos/area.py:46-49 | the area holds `num_piles` fresh empty piles |
| Areas.Area.Tableau | pyos/tableau.py:42-43 | the tableau holds seven fresh empty tableau piles |
| Areas.Area.Foundation | pyos/foundation.py:40-41 | the foundation holds four fresh empty foundation piles |
| Areas.Area.Reset | pyos/area.py:51-53 | the piles are replaced by fresh empty ones |
| Areas.Area.AddCardForce | pyos/area.py:55-63 | the card is added to pile `pos` without validation; a missing pile raises `IndexError` |
| Areas.Area.AddCard | pyos/area.py:65-83 | the result is the scan's first accepting pile, which alone gains the card; on -1 nothing changes |
| Areas.Area.Remove | pyos/area.py:85-89 | the top card of the pile is popped; a missing or empty pile raises `IndexError` unchanged |
| Areas.Area.TopCard | pyos/area.py:91-95 | `None` for an empty pile, the last card otherwise, `IndexError` for a missing pile |
| Areas.Area.IsStart | pyos/area.py:97-105 | true iff every pile is in its start state |
| Areas.Area.MoveCards | pyos/tableau.py:71-75 | the two loops leave the piles as `MovePiles` describes |
| Areas.Area.MovePile | pyos/tableau.py:45-77 | returns `MoveResult` and leaves the piles as `MoveApply` describes |
| Areas.Area.MovePileForce | pyos/tableau.py:79-102 | returns `ForceResult`; on success the piles are `MovePiles`, otherwise unchanged |
| Areas.Area.Flip | pyos/tableau.py:104-115 | returns `FlipResult`; only a successful flip changes a pile, turning its top card face up |
| Areas.Area.IsSolved | pyos/tableau.py:117-126 | true iff every card of every pile lies face up |
| Areas.Area.IsFinished | pyos/foundation.py:43-51 | true iff every pile holds 13 cards |
| Areas.FinishedFoundationIsComplete | pyos/foundation.py:43-51 | a finished foundation built by accepted moves holds ace to king of one suit in each pile |
| Areas.AddCardKeepsFoundationRuns | pyos/area.py:65-83 | `add_card` on a foundation keeps every pile a foundation run |
| ButtonList.NumPages | pyos/buttonlist.py:202 | definition of `num_pages = ceil(len(data) / itpp)`; its contract is stated by `NumPagesMeaning` |
| ButtonList.NumPagesMeaning | pyos/buttonlist.py:202 | `ceil(len / itpp)` pages: none for an empty list, enough to hold every entry, and the last page not empty |
| ButtonList.Shown | pyos/buttonlist.py:205-214 | button i shows entry `offset + i` when `offset + i < len(data)` (read with Python's negative-index rule) and is hidden with its text kept otherwise |
| ButtonList.Display | pyos/buttonlist.py:205-224 | definition of the display part of `update_content`; its contract is stated by `DisplayMeaning` |
| ButtonList.DisplayMeaning | pyos/buttonlist.py:205-224 | `IndexError` with nothing changed exactly when some button's read `data[page * itpp + i]` is out of Python's index range, which happens only on page -1 with fewer than `itpp` entries; otherwise the buttons show the page (on page -1 the last `itpp` entries), and label and arrows are shown iff there is more than one page, the label reading `page+1/pages` |
| ButtonList.ReadsMeaning | pyos/buttonlist.py:205-210 | some button's read raises iff the first one's does, iff the page is -1 and the list holds fewer than `itpp` entries |
| ButtonList.Refresh | pyos/buttonlist.py:198-224 | definition of `update_content`; its contract is stated by `RefreshMeaning` |
| ButtonList.RefreshMeaning | pyos/buttonlist.py:198-224 | `update_content` fails only on page -1 with fewer than `itpp` entries; on success the page is 0 after a reset, kept in range (page -1 included), pulled back to `max(pages - 1, 0)` past the end; the buttons show it and label and arrows are shown iff pages > 1 |
| ButtonList.SettledPage | pyos/buttonlist.py:200-204 | definition of the page settling; its contract is stated by `SettledPageMeaning` |
| ButtonList.SettledPageMeaning | pyos/buttonlist.py:200-204 | the settled page is 0 after a reset, kept in range, the last page past the end, and negative only if it already was |
| ButtonList.ShownDisplays | pyos/buttonlist.py:205-214 | after switching to a page every button i shows the entry Python reads at `page * itpp + i` iff that index is below `len(data)` |
| ButtonList.Turn | pyos/buttonlist.py:228-233 | definition of the page turn; its contract is stated by `TurnWraps` and `ChangePageMeaning` |
| ButtonList.TurnWraps | pyos/buttonlist.py:226-233 | paging wraps: forward from the last page gives 0, backward from 0 gives the last page, and a step is undone by the opposite step |
| ButtonList.ChangePageStep | pyos/buttonlist.py:226-235 | definition of `_change_page`; its contract is stated by `ChangePageMeaning` |
| ButtonList.ChangePageMeaning | pyos/buttonlist.py:226-235 | on a non-empty list `_change_page` succeeds and lands on the wrapped page; on an empty list paging back leaves page -1 and raises `IndexError` while paging forward stays on page 0 |
| ButtonList.ClickStep | pyos/buttonlist.py:237-238 | definition of `_cb_redirect`; its contract is stated by `ClickReportsShown` |
| ButtonList.ClickReportsShown | pyos/buttonlist.py:237-238 | a click on a shown list button reports an index at which Python's `data[index]` is exactly the entry that button shows; off page -1 that index is a plain position |
| ButtonList.RefillAfterBackPage | pyos/buttonlist.py:198-235 | paging back over an empty list leaves page -1 and raises; after the caller refills the list in place with at least `itpp` entries, `update_content()` succeeds on page -1, shows the last `itpp` entries and labels the page `0/n` |
| ButtonList.ShrinkClampsPage | pyos/buttonlist.py:200-204 | after the caller shortens the list in place below the current page, `update_content()` pulls the page back to the new last page and displays it |
| ButtonList.SlashSplits | pyos/buttonlist.py:217 | in `digits/rest` the first `/` follows the digits, so the label splits back into its two numbers |
| ButtonList.SlashUnique | pyos/buttonlist.py:217 | two `digits/rest` strings that are equal have equal digits and equal rests |
| ButtonList.LabelNamesPage | pyos/buttonlist.py:217 | the page label determines the page and the page count |
| ButtonList.FilterClickStep | pyos/buttonlist.py:240-243 | definition of `_filtercb_redirect`; its contract is stated by `FilterClickMeaning` |
| ButtonList.FilterClickMeaning | pyos/buttonlist.py:240-258 | a filter click reports `page * itpp + pos`, makes `pos` the active filter and highlights exactly that filter button |
| ButtonList.List.constructor | pyos/buttonlist.py:142-153 | the widget starts on page 0 with button i showing entry i (or an empty text) and no filter highlighted |
| ButtonList.List.Create | pyos/buttonlist.py:97-100 | raises `ValueError` iff filters are given without a filter callback or the filters list has length 1; otherwise the widget starts on page 0 with button `i` showing entry `i` (or an empty text), arrows and an empty label shown, no filter highlighted and nothing reported |
| ButtonList.List.SetData | pyos/mpmenu.py:246-252 | a caller changing the list it handed in (here appending 36 entries after construction) changes only the widget's list |
| ButtonList.List.UpdateFilter | pyos/buttonlist.py:249-258 | with filter buttons exactly the active one is highlighted; without, nothing changes |
| ButtonList.List.FillSlots | pyos/buttonlist.py:205-214 | the button loop reads each entry through Python's index rule: it raises `IndexError`, unchanged, exactly when `page * itpp < -len(data)`, and otherwise shows the current page |
| ButtonList.List.SetPaging | pyos/buttonlist.py:215-223 | label and arrows are shown iff there is more than one page |
| ButtonList.List.Settle | pyos/buttonlist.py:200-204 | the page becomes the settled page and the widget stays sane |
| ButtonList.List.Show | pyos/buttonlist.py:205-224 | the new state and status are those `DisplayMeaning` describes |
| ButtonList.List.UpdateContent | pyos/buttonlist.py:198-224 | the new state and status are those `RefreshMeaning` describes, for whatever list the caller left in place |
| ButtonList.List.ChangePage | pyos/buttonlist.py:226-235 | the new state and status are those `ChangePageMeaning` describes |
| ButtonList.List.Click | pyos/buttonlist.py:237-238 | the list callback is called with `page * itpp + pos`, nothing else changes |
| ButtonList.List.FilterClick | pyos/buttonlist.py:240-243 | the new state and status are those `FilterClickMeaning` describes |
| EventHandler.Insert | pyos/engine/eventhandler.py:69-72 | insertion step of the stable sort by priority: one entry longer |
| EventHandler.InsertKeeps | pyos/engine/eventhandler.py:69-72 | inserting adds exactly the one entry to the multiset |
| EventHandler.InsertSorted | pyos/engine/eventhandler.py:69-72 | inserting into an ascending list keeps it ascending |
| EventHandler.SortAsc | pyos/engine/eventhandler.py:69-72 | `sorted(..., key=priority)` is an ascending permutation of the entries |
| EventHandler.OrderMeaning | pyos/engine/eventhandler.py:69-73 | `reversed(sorted(...))` runs callbacks in descending priority, each registered entry exactly once |
| EventHandler.Drop | pyos/engine/eventhandler.py:60-62 | the priority map loses exactly the entries of the name |
| EventHandler.ListenStep | pyos/engine/eventhandler.py:52-56 | definition of `listen` as written; its contract is stated by `ListenDuplicate`, `ListenKeeps` and `LateListenerIgnored` |
| EventHandler.ListenIntended | pyos/engine/eventhandler.py:39-56 | definition of the corrected `listen` (see Findings); its contract is stated by `ListenIntendedKeeps` and `ListenIntendedCalled` |
| EventHandler.ListenKeeps | pyos/engine/eventhandler.py:52-56 | `listen` as written keeps every mapped name registered and the names of each priority map distinct |
| EventHandler.ListenIntendedKeeps | pyos/engine/eventhandler.py:39-56 | the corrected `listen` keeps that consistency: a new name is in no map yet |
| EventHandler.ListenIntendedCalled | pyos/engine/eventhandler.py:39-76 | after the corrected `listen`, the next event of that type calls the new callback exactly once with that event, and every callback registered for the type before is still called |
| EventHandler.ForgetStep | pyos/engine/eventhandler.py:58-64 | definition of `forget`; its contract is stated by `ForgetKeeps` and `ForgottenSilent` |
| EventHandler.ForgetKeeps | pyos/engine/eventhandler.py:58-64 | `forget` keeps that consistency |
| EventHandler.DropDistinct | pyos/engine/eventhandler.py:60-62 | removing a name from a priority map keeps the remaining names distinct |
| EventHandler.Deliver | pyos/engine/eventhandler.py:74-76 | definition of one callback call; its contract is stated by `DeliverAllLog` and `DeliverAllMarks` |
| EventHandler.DeliverAll | pyos/engine/eventhandler.py:73-76 | definition of the callback loop for one event; its contract is stated by `DeliverAllLog`, `DeliverAllMarks` and `DeliverAllKeeps` |
| EventHandler.Handle | pyos/engine/eventhandler.py:68-76 | definition of the handling of one event; its contract is stated by `HandleMeaning` and `HandleCallsEach` |
| EventHandler.HandleAll | pyos/engine/eventhandler.py:66-76 | definition of `handler()` over a batch; its contract is stated by `HandleAllKeeps` and `OnlyMappedNamesCalled` |
| EventHandler.DeliverAllKeeps | pyos/engine/eventhandler.py:73-76 | delivering events changes neither the maps nor the registered names |
| EventHandler.HandleAllKeeps | pyos/engine/eventhandler.py:66-76 | handling a batch changes neither the maps nor the registered names and keeps consistency |
| EventHandler.ListenDuplicate | pyos/engine/eventhandler.py:52-53 | `listen` with a registered name raises `ValueError` and changes nothing |
| EventHandler.DeliverAllLog | pyos/engine/eventhandler.py:73-76 | the callbacks are called in the given order, one call per entry, each with its name's callback and the event |
| EventHandler.DeliverAllMarks | pyos/engine/eventhandler.py:74-75 | every callback handed the event has it as its `event` keyword afterwards; other registrations are unchanged |
| EventHandler.HandleCallsEach | pyos/engine/eventhandler.py:68-76 | each event of a mapped type calls every callback in the type's map exactly once |
| EventHandler.HandleMeaning | pyos/engine/eventhandler.py:66-76 | an event of an unmapped type changes nothing; otherwise the type's callbacks run in descending priority, each once, each receiving the event as `event` |
| EventHandler.OnlyMappedNamesCalled | pyos/engine/eventhandler.py:66-76 | a batch only appends to the log, and only names in their event type's priority map are called |
| EventHandler.HandleMapped | pyos/engine/eventhandler.py:68-76 | handling one event only calls names mapped for its type |
| EventHandler.DeliveriesNamed | pyos/engine/eventhandler.py:73-76 | each delivery of an event names an entry it was handed to |
| EventHandler.LateListenerIgnored | pyos/engine/eventhandler.py:54-56 | a second name for an already mapped event type is registered but never called, whatever events arrive |
| EventHandler.ForgottenSilent | pyos/engine/eventhandler.py:58-64 | a forgotten name is unregistered and never called again |
| EventHandler.Handler.constructor | pyos/engine/eventhandler.py:35-37 | a new handler has no maps and no registrations |
| EventHandler.Handler.Listen | pyos/engine/eventhandler.py:39-56 | the new state is `ListenIntended` of the old one, the corrected `listen` (see Findings), and consistency is kept |
| EventHandler.Handler.Forget | pyos/engine/eventhandler.py:58-64 | the loop over event types leaves the state `ForgetStep` of the old one |
| EventHandler.Handler.DeliverEach | pyos/engine/eventhandler.py:73-76 | the loop over the callbacks of one event leaves the state `DeliverAll` of the old one |
| EventHandler.Handler.Dispatch | pyos/engine/eventhandler.py:66-76 | the loops over events and callbacks leave the state `HandleAll` of the old one |
| Fsm.LowerChar | pyos/engine/fsm.py:57 | the ASCII lower-casing the model uses: maps `A..Z` to `a..z`, leaves no such letter and keeps every other character |
| Fsm.Lower | pyos/engine/fsm.py:57 | the ASCII lower-casing of a string keeps its length |
| Fsm.LowerAt | pyos/engine/fsm.py:57 | `str.lower()` works character by character |
| Fsm.LowerFixed | pyos/engine/fsm.py:61-62 | a string is its own lower-case form iff it has no upper-case letter |
| Fsm.LowerIdempotent | pyos/engine/fsm.py:57 | lower-casing twice is lower-casing once, so keys are stable |
| Fsm.AddStateStep | pyos/engine/fsm.py:41-58 | definition of `add_state`; its contract is stated by `AddStateKeeps`, `AddStateChecksHooks` and `AddStateOverwrites` |
| Fsm.AddStateKeeps | pyos/engine/fsm.py:41-58 | `add_state` keeps every key lower-case and the active state registered |
| Fsm.AddStateChecksHooks | pyos/engine/fsm.py:48-56 | `add_state` fails iff `enter` or `exit` is missing or not callable, and then raises `ValueError` with nothing changed |
| Fsm.AddStateOverwrites | pyos/engine/fsm.py:57-58 | adding a second object of the same class (up to case) is as if the first had not been added |
| Fsm.RequestStep | pyos/engine/fsm.py:60-68 | definition of `request`; its contract is stated by `RequestKeeps`, `RequestSucceeds`, `RequestUnknown` and `RequestMixedCase` |
| Fsm.RequestKeeps | pyos/engine/fsm.py:60-68 | `request` keeps the machine consistent whether it succeeds or not |
| Fsm.RequestSucceeds | pyos/engine/fsm.py:60-68 | with hooks that return, `request` succeeds iff the name is registered as given; it exits the active state, then enters the named one and makes it active |
| Fsm.RequestUnknown | pyos/engine/fsm.py:61-64 | a name unknown after lower-casing raises `ValueError` before any hook runs |
| Fsm.RequestMixedCase | pyos/engine/fsm.py:61-67 | a registered name with an upper-case letter raises `KeyError` after the active state was exited, and that state stays active |
| Fsm.Machine.constructor | pyos/engine/fsm.py:37-39 | a new machine has no states and none active |
| Fsm.Machine.AddState | pyos/engine/fsm.py:41-58 | the new state is `AddStateStep` of the old one, and consistency is kept |
| Fsm.Machine.Request | pyos/engine/fsm.py:60-68 | with hooks that return, the new state is `RequestStep` of the old one, and consistency is kept |
| LegacyTable.Max0 | pyos/table.py:315 | `max(0, x)` is non-negative, at least `x`, and either 0 or `x` |
| LegacyTable.TableauFits | pyos/table.py:180-182 | pile t fits the card iff it is empty and the card is a king, or `valid_move` accepts it against the card of the top entry |
| LegacyTable.FoundationFits | pyos/table.py:206-208 | pile f fits the card iff it is empty and the card is an ace, or `valid_move(card, top, True)` |
| LegacyTable.FirstOk | pyos/table.py:179-182 | the search returns a candidate pile that fits |
| LegacyTable.FirstOkMeaning | pyos/table.py:179-192 | the search finds a pile iff some candidate fits, and every earlier candidate does not |
| LegacyTable.FirstOkAt | pyos/table.py:179-192 | after passing over the first k candidates the search stops at candidate k if it fits, and finds nothing when none is left |
| LegacyTable.WasteToTableauOutcome | pyos/table.py:168-192 | with an empty waste or no fitting pile nothing changes (the move count is taken back); a missing `col` raises `IndexError`; success pops the waste, raises the move count and earns 5 points, leaving stack and foundation alone |
| LegacyTable.WasteToTableauMove | pyos/table.py:183-187 | the success branch appends `[card, 1]` to the pile, pops the waste and logs the move |
| LegacyTable.WasteToFoundationOutcome | pyos/table.py:194-218 | like the tableau move, with foundation piles and 10 points, leaving stack and tableau alone |
| LegacyTable.WasteToFoundationMove | pyos/table.py:209-213 | the success branch appends the card to the pile, pops the waste and logs the move |
| LegacyTable.FoundationToTableauOutcome | pyos/table.py:298-320 | with an empty foundation pile or no fitting target nothing changes; success takes the top card of pile `col`, raises the move count and sets points to `max(0, points - 15)` |
| LegacyTable.FoundationToTableauMove | pyos/table.py:311-315 | the success branch pops the foundation pile, appends `[card, 1]` to the tableau pile and logs the move |
| LegacyTable.ScanToFoundation | pyos/table.py:238-253 | a pair found by the nested search has a non-empty source whose top card fits the foundation pile; the top of an empty source raises `IndexError` |
| LegacyTable.TableauToFoundationOutcome | pyos/table.py:220-256 | failure changes nothing; success raises the move count and earns 10 points, leaving waste and stack alone |
| LegacyTable.TableauToFoundationMove | pyos/table.py:246-251 | the success branch appends the card to the foundation pile, pops the tableau pile and logs the move |
| LegacyTable.TableauTarget | pyos/table.py:264-284 | the target found fits the card; without `ecol` it differs from the source; with `ecol` it is `ecol` and is found only without `scol`; a fitting target 0 without `scol` raises `TypeError` |
| LegacyTable.ScanToTableau | pyos/table.py:269-284 | a pair found has a run start `srow` inside the source whose card fits the target; a source too short for `srow` raises `IndexError` |
| LegacyTable.Heads | pyos/table.py:288 | the cards of the moved entries, in order |
| LegacyTable.MoveRun | pyos/table.py:286-290 | moving a run keeps the number of piles |
| LegacyTable.MoveRunBetween | pyos/table.py:286-290 | between different piles the run leaves the source and lands in order on the target; the other piles are unchanged |
| LegacyTable.TableauToTableauOutcome | pyos/table.py:258-296 | failure changes nothing; success raises the move count and leaves points, waste, stack and foundation alone; with both `scol` and `ecol` given no move is ever made |
| LegacyTable.TableauToTableauMove | pyos/table.py:283-291 | the success branch moves the run and logs the list of moved cards |
| LegacyTable.DrawsStep | pyos/table.py:335-339 | one more single-card draw moves the next card of the original stack onto the waste |
| LegacyTable.DrawOutcome | pyos/table.py:322-341 | -1 iff stack and waste are empty, with nothing changed; 1 refills the stack and empties the waste at `max(0, points - 100)` when drawing one (points kept otherwise); 0 moves the top stack card onto the waste when drawing one |
| LegacyTable.DrawKeepsCards | pyos/table.py:322-341 | drawing and refilling keep the multiset of stack and waste cards |
| LegacyTable.DrawingThroughRestores | pyos/table.py:329-339 | drawing single cards through the whole stack reverses it onto the waste, and the refill then restores the stack as dealt |
| LegacyTable.TakeFrom | pyos/table.py:354-375 | popping the named place leaves stack, history, moves and points alone; a missing or empty pile raises `IndexError` |
| LegacyTable.UndoOutcome | pyos/table.py:343-380 | an empty history raises `ValueError`; otherwise the last record is dropped and points become `max(0, points - 15)`; success returns true; the move count rises in every case |
| LegacyTable.Restore | pyos/table.py:348-380 | reverting a record keeps moves, history and points; failures are `ValueError` or `IndexError` |
| LegacyTable.TotalCount | pyos/table.py:116 | no piles hold no items |
| LegacyTable.Won | pyos/table.py:114-116 | definition of `win_condition`; its contract is stated by `WonIffFull` |
| LegacyTable.WonIffFull | pyos/table.py:114-116 | with at most 13 items per foundation pile the game is won iff every foundation pile holds 13 |
| LegacyTable.UndoRevertsWasteToFoundation | pyos/table.py:353-361 | undoing a waste-to-foundation move restores piles, stack, waste and history, at `max(0, points - 5)` |
| LegacyTable.UndoAfterWasteToFoundation | pyos/table.py:353-361 | the same for the move onto a given foundation pile |
| LegacyTable.UndoWrapsWasteToTableau | pyos/table.py:353-361 | undoing a waste-to-tableau move empties the pile again, but the waste gets back the entry `[card, 1]`, not the card |
| LegacyTable.UndoAfterWasteToTableau | pyos/table.py:353-361 | the same for the move onto a given tableau pile |
| LegacyTable.UndoWrapsFoundationToTableau | pyos/table.py:362-370 | undoing a foundation-to-tableau move empties the tableau pile again, but the foundation gets back `[card, 1]` |
| LegacyTable.UndoAfterFoundationToTableau | pyos/table.py:362-370 | the same for a given pair of piles |
| LegacyTable.UndoRevertsTableauToFoundation | pyos/table.py:371-379 | undoing a tableau-to-foundation move restores tableau and foundation when the source's top entry was open |
| LegacyTable.UndoAfterTableauToFoundation | pyos/table.py:371-379 | the same for a given pair of piles |
| LegacyTable.UndoIntoWasteFromFoundation | pyos/table.py:353-361 | a record `('w', 'f<b>', _)` moves the top of foundation pile b back onto the waste |
| LegacyTable.UndoIntoWasteFromTableau | pyos/table.py:353-361 | a record `('w', 't<b>', _)` moves the top entry of tableau pile b back onto the waste |
| LegacyTable.UndoIntoFoundation | pyos/table.py:362-370 | a record `('f<a>', 't<b>', _)` moves the top entry of tableau pile b back onto foundation pile a |
| LegacyTable.UndoIntoTableau | pyos/table.py:371-379 | a record `('t<a>', 'f<b>', _)` moves the top of foundation pile b back onto tableau pile a as `[card, 1]` |
| LegacyTable.UndoRefusesTableauToTableau | pyos/table.py:371-380 | a tableau-to-tableau move cannot be undone: `undo` drops its record and 15 points and raises `ValueError`, the cards staying where they went |
| LegacyTable.FacesOf | pyos/table.py:118-121 | the stack's cards are the dealt faces, in order |
| LegacyTable.Table.constructor | pyos/table.py:37-49 | seven empty tableau piles, four empty foundation piles, empty stack, waste and history, no moves and no points |
| LegacyTable.Table.WasteCard | pyos/table.py:90-92 | the top of the waste, `None` for an empty waste |
| LegacyTable.Table.WinCondition | pyos/table.py:114-116 | true iff the foundation piles hold 52 items together |
| LegacyTable.Table.Start | pyos/table.py:123-125 | the move counter restarts at 0 |
| LegacyTable.Table.Deal | pyos/table.py:118-121 | tableau pile t gets t + 1 dealt entries and the stack holds the rest of the deck in order |
| LegacyTable.Table.Draw | pyos/table.py:322-341 | the loop leaves the result and state `DrawOutcome` describes |
| LegacyTable.Table.FindTableau | pyos/table.py:179-182 | the loop stops at the first candidate pile the card fits, as `FirstOk` finds it |
| LegacyTable.Table.FindFoundation | pyos/table.py:205-208 | the loop stops at the first candidate foundation pile the card fits |
| LegacyTable.Table.WasteToTableau | pyos/table.py:162-192 | result and state are `WasteToTableauOutcome` |
| LegacyTable.Table.WasteOntoTableau | pyos/table.py:183-187 | state is `WasteToTableauMove` |
| LegacyTable.Table.WasteToFoundation | pyos/table.py:194-218 | result and state are `WasteToFoundationOutcome` |
| LegacyTable.Table.WasteOntoFoundation | pyos/table.py:209-213 | state is `WasteToFoundationMove` |
| LegacyTable.Table.FoundationToTableau | pyos/table.py:298-320 | result and state are `FoundationToTableauOutcome` |
| LegacyTable.Table.FoundationOntoTableau | pyos/table.py:311-315 | state is `FoundationToTableauMove` |
| LegacyTable.Table.ScanFoundation | pyos/table.py:238-253 | the nested loops find what `ScanToFoundation` finds |
| LegacyTable.Table.TableauToFoundation | pyos/table.py:220-256 | result and state are `TableauToFoundationOutcome` |
| LegacyTable.Table.TableauOntoFoundation | pyos/table.py:246-251 | state is `TableauToFoundationMove` |
| LegacyTable.Table.FindTarget | pyos/table.py:272-284 | the inner loop finds what `TableauTarget` finds |
| LegacyTable.Table.ScanTableau | pyos/table.py:269-284 | the nested loops find what `ScanToTableau` finds |
| LegacyTable.Table.TableauToTableau | pyos/table.py:258-296 | result and state are `TableauToTableauOutcome` |
| LegacyTable.Table.RunOntoTableau | pyos/table.py:283-291 | state is `TableauToTableauMove` |
| LegacyTable.Table.Take | pyos/table.py:354-375 | pops what `TakeFrom` pops, raising `IndexError` unchanged for a missing or empty pile |
| LegacyTable.Table.Undo | pyos/table.py:343-380 | result and state are `UndoOutcome` |
| LegacyTable.Table.RestoreRecord | pyos/table.py:348-380 | result and state are `Restore` |
| LegacyTable.MoveEntries | pyos/table.py:286-288 | the run is appended to the target and its cards are collected in order |
| LegacyTable.PopEntries | pyos/table.py:289-290 | the source loses as many entries as `stab[srow:]` holds |
| Vectors.Trunc | pyos/engine/tools/vector.py:100 | `int(r)` truncates toward zero: it keeps the sign and drops less than one unit |
| Vectors.Add | pyos/engine/tools/vector.py:109-115 | a number is added to both coordinates, a vector componentwise; the result has the left operand's result type; anything else raises `TypeError` |
| Vectors.Sub | pyos/engine/tools/vector.py:117-123 | the same for subtraction |
| Vectors.Mul | pyos/engine/tools/vector.py:125-129 | only a number scales the vector, keeping the left operand's result type; anything else raises `TypeError` |
| Vectors.RMul | pyos/engine/tools/vector.py:131-135 | a number on the left scales both coordinates, keeping the vector's result type; anything else raises `TypeError` |
| Vectors.TrueDiv | pyos/engine/tools/vector.py:137-141 | division by a non-zero number gives the quotient coordinates; by zero `ZeroDivisionError`; a non-number `TypeError` |
| Vectors.FloorDiv | pyos/engine/tools/vector.py:143-147 | `//` gives the whole-number floor of each quotient; by zero `ZeroDivisionError`; a non-number `TypeError` |
| Vectors.Dot | pyos/engine/tools/vector.py:93-95 | `x*x' + y*y'` for a vector operand, `None` otherwise |
| Vectors.AsInt | pyos/engine/tools/vector.py:97-100 | coordinates truncated by `int`, same result type |
| Vectors.Index | pyos/engine/tools/vector.py:102-107 | keys equal to 0 or `'x'` give x, keys equal to 1 or `'y'` give y, any other key raises `IndexError` |
| Vectors.SubUndoesAdd | pyos/engine/tools/vector.py:109-123 | adding and then subtracting the same operand restores the vector |
| Vectors.Equal | pyos/engine/tools/vector.py:149-153 | definition of `==`; its contract is stated by `EqualIgnoresKind` |
| Vectors.EqualIgnoresKind | pyos/engine/tools/vector.py:149-153 | `==` is exact coordinate equality with a vector or point and false for a number |
| Vectors.ScalingCommutes | pyos/engine/tools/vector.py:125-135 | `v * s == s * v` for every number s |
| Vectors.DotSymmetric | pyos/engine/tools/vector.py:93-95 | the dot product is symmetric |
| Vectors.DotSelf | pyos/engine/tools/vector.py:78-91 | `v.dot(v)` is never negative and is zero only for the zero vector, which `normalize` rejects |
| Vectors.AsIntMovesTowardZero | pyos/engine/tools/vector.py:97-100 | `asint` moves each coordinate toward zero, never past it |
| Vectors.Vector.constructor | pyos/engine/tools/vector.py:33-39 | a new vector or point holds the coordinates with the cache marked stale |
| Vectors.Vector.Legacy | pyos/engine/vector.py:33-38 | an older-module vector holds the coordinates with a stale cache and its setters raise `ValueError` |
| Vectors.Vector.SetX | pyos/engine/tools/vector.py:55-61 | a number sets x and marks the cache stale; anything else raises and changes nothing |
| Vectors.Vector.SetY | pyos/engine/tools/vector.py:63-69 | a number sets y and marks the cache stale; anything else raises and changes nothing |
| Vectors.Vector.SquaredLength | pyos/engine/tools/vector.py:71-76 | the length is recomputed only when stale, then the cache is fresh and equals the squared coordinates' sum |
| Vectors.Vector.Normalize | pyos/engine/tools/vector.py:84-91 | the zero vector raises `ValueError` unchanged; otherwise the vector is rescaled, the cache marked stale and true returned |
| Vectors.Vector.Normalized | pyos/engine/tools/vector.py:78-82 | the zero vector raises `ValueError`; otherwise a new plain vector is returned and this one keeps its coordinates |
| LegacyVectors.Legacy | pyos/engine/vector.py:108-146 | the older module's outcome: same coordinates, always a plain `Vector`, and `ValueError` where the newer one raises `TypeError` |
| LegacyVectors.Add | pyos/engine/vector.py:108-114 | a plain `Vector` for a number or vector operand, `ValueError` otherwise |
| LegacyVectors.Sub | pyos/engine/vector.py:116-122 | a plain `Vector` for a number or vector operand, `ValueError` otherwise |
| LegacyVectors.Mul | pyos/engine/vector.py:124-128 | scaling by a number gives a plain `Vector`; anything else raises `ValueError` |
| LegacyVectors.RMul | pyos/engine/vector.py:130-134 | a number on the left gives a plain `Vector` with both coordinates scaled; anything else raises `ValueError` |
| LegacyVectors.TrueDiv | pyos/engine/vector.py:136-140 | the quotient as a plain `Vector`; by zero `ZeroDivisionError`; a non-number `ValueError` |
| LegacyVectors.FloorDiv | pyos/engine/vector.py:142-146 | the floored quotient as a plain `Vector`; by zero `ZeroDivisionError`; a non-number `ValueError` |
| LegacyVectors.AsInt | pyos/engine/vector.py:96-99 | truncated coordinates, always a plain `Vector` |
| LegacyVectors.AgreesWithNewerModule | pyos/engine/vector.py:108-146 | both modules compute the same coordinates for `+`, `-`, `*`, `o * a`, `/`, `//` and `asint`; a bad operand raises `ValueError` here and `TypeError` there; a point times a number is a point there and a plain vector here |
| LegacyVectors.SubUndoesAdd | pyos/engine/vector.py:108-122 | adding then subtracting the same operand restores the coordinates, as a plain vector |
| MpClient.UseridsAsWritten | pyos/mpclient.py:543-550 | `[]` for replies shorter than five bytes or whose ids do not fill whole words; otherwise `(len - 1) / 4` ids, each a `uint32`, the i-th read from `data[4i .. 4i+4)` |
| MpClient.UseridList | pyos/mpclient.py:543-550 | the loop returns exactly `UseridsAsWritten` |
| MpClient.UseridsReadTag | pyos/mpclient.py:547-549 | the first id read has the tag byte as its lowest byte |
| MpClient.UseridsSkipLast | pyos/mpclient.py:547-549 | the last byte of a reply is never read |
| MpClient.UseridsAsWrittenExample | pyos/mpclient.py:543-550 | the reply `[7, 1, 0, 0, 0]` lists the id 263 as written, and 1 with the corrected window |
| MpClient.Userids | pyos/mpclient.py:543-550 | the corrected parser, reading the i-th id from `data[1+4i .. 5+4i)`: same length rules and `uint32` ids |
| MpClient.UseridsRoundTrip | pyos/mpclient.py:543-550 | the corrected parser lists exactly the ids of a non-empty reply built from a tag and the encoded ids |
| Quadtrees.Quadtree.constructor | pyos/engine/tools/quadtree.py:68-75 | a new node over `box` with the given level budget and no items, children or child objects |
| Quadtrees.Quadtree.ItemCount | pyos/engine/tools/quadtree.py:81-86 | the loop over the children returns the node's `item_count`, which `QuadtreeModel.CountIsSize` shows is the number of stored objects |
| Quadtrees.Quadtree.GetItems | pyos/engine/tools/quadtree.py:88-104 | `ValueError` for an operand the region test cannot compare; otherwise exactly the model's query result, with the tree unchanged |
| Quadtrees.Quadtree.Collect | pyos/engine/tools/quadtree.py:95-103 | the loop collects the node's own items followed by each child's query result, in child order |
| Quadtrees.Quadtree.Add | pyos/engine/tools/quadtree.py:106-121 | `ValueError` with the tree unchanged for an operand that cannot be compared; otherwise the new tree and flag are those of `QuadtreeModel.Add`, and the object graph stays valid |
| Quadtrees.Quadtree.Place | pyos/engine/tools/quadtree.py:109-121 | the body of `add` after the region test: new tree and flag as `QuadtreeModel.Add` |
| Quadtrees.Quadtree.PlaceInChild | pyos/engine/tools/quadtree.py:115-118 | delegates to `__add_to_child__` and records the quadrant in `child_objects` only when the child accepted the object |
| Quadtrees.Quadtree.Append | pyos/engine/tools/quadtree.py:111 | appends the object to the node's own items and changes nothing else |
| Quadtrees.Quadtree.Record | pyos/engine/tools/quadtree.py:117 | maps the object to the quadrant index in `child_objects` and changes nothing else |
| Quadtrees.Quadtree.FirstFit | pyos/engine/tools/quadtree.py:113-114 | returns the first quadrant whose region holds `pos`, or 4 when none does |
| Quadtrees.Quadtree.AddToChild | pyos/engine/tools/quadtree.py:143-151 | new tree and flag as `QuadtreeModel.AddToChild`: refuses at level 0 without children, otherwise creates the four children on first need and adds to child `i` |
| Quadtrees.Quadtree.AddToGrownChild | pyos/engine/tools/quadtree.py:151 | with four children present, replaces child `i` by its tree after `add` and keeps every other child, the items and `child_objects` |
| Quadtrees.Quadtree.CreateChildren | pyos/engine/tools/quadtree.py:149-150 | the node's children become four empty leaves over its quadrants, one level down |
| Quadtrees.Quadtree.NewLeaves | pyos/engine/tools/quadtree.py:149-150 | four fresh, valid, pairwise disjoint leaves over the four quadrants |
| Quadtrees.Quadtree.Prune | pyos/engine/tools/quadtree.py:135-141 | the new tree is `QuadtreeModel.Prune` of the old one, on the same objects |
| Quadtrees.Quadtree.PruneChild | pyos/engine/tools/quadtree.py:140-141 | prunes child `k` in place and keeps every other child, the items and `child_objects` |
| Quadtrees.Quadtree.Remove | pyos/engine/tools/quadtree.py:123-133 | `IndexError` with the tree unchanged where the model raises; otherwise the flag and the new tree of `QuadtreeModel.Remove` |
| Quadtrees.Quadtree.RemoveFromChild | pyos/engine/tools/quadtree.py:130 | removes from child `i` as `QuadtreeModel.Remove` does on that child, keeping the other children, the items and `child_objects` |
| Quadtrees.Quadtree.Lookup | pyos/engine/tools/quadtree.py:153-169 | `quadtree[key]` returns exactly `QuadtreeModel.Lookup` of the node's tree |
| Quadtrees.BoundsOf | pyos/engine/tools/quadtree.py:244-248 | the loop computes the running minimum and maximum edges of all boxes, `None` for no pairs |
| Quadtrees.FromPairs | pyos/engine/tools/quadtree.py:238-255 | the corrected `quadtree_from_pairs`: `None` exactly when the model returns `None`, otherwise a fresh valid tree equal to the model's |
| QuadtreeModel.ChildAt | pyos/engine/tools/quadtree.py:179-229 | `Children(box)[item]` succeeds exactly for an integer 0..3 or one of `ul`, `ur`, `dl`, `dr`, giving the matching quadrant; anything else raises `IndexError` |
| QuadtreeModel.QuadrantsInside | pyos/engine/tools/quadtree.py:179-217 | each quadrant of a normalized box is normalized and lies inside the box |
| QuadtreeModel.QuadrantsCover | pyos/engine/tools/quadtree.py:179-217 | every point of a normalized box lies in at least one quadrant |
| QuadtreeModel.RegionTestsAreComparisons | pyos/engine/tools/quadtree.py:94-99 | the region tests of `add` and `get_items` hold exactly when the `AABB` comparisons `<=` and `>=` return `True` |
| QuadtreeModel.Leaves | pyos/engine/tools/quadtree.py:149-150 | four empty leaves, leaf `i` over quadrant `i`, at the given level |
| QuadtreeModel.FirstQuadrant | pyos/engine/tools/quadtree.py:113-114 | the first quadrant from `i` on whose region holds `pos`: no earlier quadrant holds it, and 4 means none does |
| QuadtreeModel.Add | pyos/engine/tools/quadtree.py:106-121 | `add` keeps the node's region and level budget |
| QuadtreeModel.AddToChild | pyos/engine/tools/quadtree.py:143-151 | `__add_to_child__` keeps the node's region, level, items and `child_objects` |
| QuadtreeModel.IndexOf | pyos/engine/tools/quadtree.py:127 | `items.index(obj)` is the first position holding `obj` |
| QuadtreeModel.RemoveFirst | pyos/engine/tools/quadtree.py:127 | popping that position takes exactly one copy of `obj` out of the items |
| QuadtreeModel.Prune | pyos/engine/tools/quadtree.py:135-141 | `__prune__` keeps the node's region, level, items and `child_objects` |
| QuadtreeModel.PruneAll | pyos/engine/tools/quadtree.py:140-141 | prunes every child, position by position |
| QuadtreeModel.Remove | pyos/engine/tools/quadtree.py:123-133 | `remove` keeps region, level and `child_objects`, and the only exception it raises is `IndexError` |
| QuadtreeModel.Lookup | pyos/engine/tools/quadtree.py:153-169 | a stored object is returned as a one-element list; a single position is a containment query; an unhashable key raises `TypeError`, a hashable key of no accepted kind `IndexError` |
| QuadtreeModel.CountAllStep | pyos/engine/tools/quadtree.py:84-85 | each loop step of `item_count` adds one child's count |
| QuadtreeModel.QueryAllStep | pyos/engine/tools/quadtree.py:96-97 | each loop step of `get_items` appends one child's result |
| QuadtreeModel.Widen | pyos/engine/tools/quadtree.py:245-248 | one step of the bounds loop gives edges at or beyond both the box's corners and the running edges |
| QuadtreeModel.BoundsEncloseAll | pyos/engine/tools/quadtree.py:244-248 | the bounds of a non-empty list are normalized and enclose every pair's box |
| QuadtreeModel.AddAll | pyos/engine/tools/quadtree.py:253-254 | adding the pairs in order keeps the node well formed, with the same region and level |
| QuadtreeModel.FromPairsAsWritten | pyos/engine/tools/quadtree.py:240-243 | as written, `quadtree_from_pairs` returns `None` exactly for the empty list and raises for every other list |
| QuadtreeModel.FromPairsStoresAll | pyos/engine/tools/quadtree.py:249-255 | the corrected tree, when built, covers the bounds and holds every pair |
| QuadtreeModel.AddAllCounts | pyos/engine/tools/quadtree.py:253-254 | adding pairs whose boxes lie inside the node raises `item_count` by the number of pairs |
| QuadtreeModel.FromPairsOnTestData | pyos/test/test_tools.py:105-125 | on the test's four pairs, the code as written raises `TypeError`; the corrected tree covers (-1.1, -1.1, 1.9, 1.9) and holds 4 objects |
| QuadtreeModel.CountIsSize | pyos/engine/tools/quadtree.py:81-86 | `item_count` equals the number of stored objects |
| QuadtreeModel.CountAllIsSize | pyos/engine/tools/quadtree.py:84-85 | the same for a list of children |
| QuadtreeModel.ItemsAllConcat | pyos/engine/tools/quadtree.py:84-85 | listing two runs of children one after the other lists their objects one after the other |
| QuadtreeModel.ItemsAllStep | pyos/engine/tools/quadtree.py:84-85 | one more child adds exactly that child's objects |
| QuadtreeModel.ItemsAllAround | pyos/engine/tools/quadtree.py:151 | the children's objects are those before child `i`, then child `i`'s, then those after it |
| QuadtreeModel.ItemsAllGrowOne | pyos/engine/tools/quadtree.py:151 | giving one child one more object adds exactly that object to the children's objects |
| QuadtreeModel.ItemsAllOfEmpty | pyos/engine/tools/quadtree.py:149-150 | freshly created children list no objects |
| QuadtreeModel.QueryWithinItems | pyos/engine/tools/quadtree.py:88-104 | a query returns only stored objects, each at most as often as it is stored |
| QuadtreeModel.QueryAllWithinItems | pyos/engine/tools/quadtree.py:96-102 | the same for a list of children |
| QuadtreeModel.QueryOfEnclosingRegion | pyos/engine/tools/quadtree.py:88-104 | when every node passes the region test, a query returns every stored object in preorder: nodes filter, items are never filtered |
| QuadtreeModel.QueryAllOfEnclosingRegion | pyos/engine/tools/quadtree.py:96-102 | the same for a list of children |
| QuadtreeModel.GrownWF | pyos/engine/tools/quadtree.py:149-150 | the created children are four well-formed empty leaves one level down |
| QuadtreeModel.WFWithKids | pyos/engine/tools/quadtree.py:149-151 | a node with four well-formed children in its quadrants is well formed |
| QuadtreeModel.AddKeepsWF | pyos/engine/tools/quadtree.py:106-121 | `add` keeps the node well formed: no children or four, each in its quadrant one level down, and every `child_objects` index below 4 |
| QuadtreeModel.RecordKeepsWF | pyos/engine/tools/quadtree.py:117 | recording a quadrant index keeps the node well formed |
| QuadtreeModel.AddToChildKeepsWF | pyos/engine/tools/quadtree.py:143-151 | `__add_to_child__` keeps the node well formed |
| QuadtreeModel.AddAcceptsIffInside | pyos/engine/tools/quadtree.py:106-121 | `add` returns `True` exactly when the node's own region holds `pos`: inside the region some node always takes the object |
| QuadtreeModel.AddStoresOnce | pyos/engine/tools/quadtree.py:106-121 | a successful `add` stores exactly one more copy of the object and keeps all others; a failed one changes nothing |
| QuadtreeModel.AddRaisesCount | pyos/engine/tools/quadtree.py:106-121 | a successful `add` raises `item_count` by one |
| QuadtreeModel.AddToChildStoresOnce | pyos/engine/tools/quadtree.py:143-151 | when child `i`'s quadrant holds `pos` and the node may still nest, `__add_to_child__` succeeds and stores exactly one more copy |
| QuadtreeModel.NodeGrowsOne | pyos/engine/tools/quadtree.py:151 | replacing one child by a child with one more object gives the node exactly that one more object |
| QuadtreeModel.AddedIsFound | pyos/engine/tools/quadtree.py:88-121 | an object added at `pos` is returned by the containment query for `pos` |
| QuadtreeModel.QueryAllHasChild | pyos/engine/tools/quadtree.py:96-102 | an object found by one child's query is in the children's query |
| QuadtreeModel.PruneKeepsItems | pyos/engine/tools/quadtree.py:135-141 | pruning never loses an object: the preorder listing is unchanged |
| QuadtreeModel.PruneAllKeepsItems | pyos/engine/tools/quadtree.py:140-141 | the same for a list of children |
| QuadtreeModel.PruneKeepsWF | pyos/engine/tools/quadtree.py:135-141 | pruning keeps the node well formed |
| QuadtreeModel.RemoveDeletesOnce | pyos/engine/tools/quadtree.py:123-133 | a removal reported as done deletes exactly one copy of the object; one reported as not done changes nothing |
| QuadtreeModel.RemoveFromChildDeletesOnce | pyos/engine/tools/quadtree.py:129-133 | the same when the object is found through `child_objects` |
| QuadtreeModel.RemoveLowersCount | pyos/engine/tools/quadtree.py:123-133 | a reported removal means the object was stored, and lowers `item_count` by one |
| QuadtreeModel.RemoveKeepsWF | pyos/engine/tools/quadtree.py:123-133 | `remove` keeps the node well formed |
| QuadtreeModel.ScenarioAdd | pyos/engine/tools/quadtree.py:106-151 | adding 7 at (0.25, 0.25) to a level-1 unit tree creates the four children and stores 7 in the upper-left one |
| QuadtreeModel.ScenarioRemove | pyos/engine/tools/quadtree.py:123-141 | removing 7 again succeeds, and the prune drops the now empty children |
| QuadtreeModel.RemoveAfterPruneRaises | pyos/engine/tools/quadtree.py:129-131 | `child_objects` keeps the entry after the prune, so removing the same object a second time raises `IndexError` instead of returning `False` |
| Rules.StandardDeck | pyos/rules.py:40 | the unshuffled deck has 52 cards, card `i` being suit `i / 13` and value `i % 13` |
| Rules.StandardDeckContents | pyos/rules.py:40 | the deck holds exactly the pairs with suit 0..3 and value 0..12, each once |
| Rules.OffsetTotal | pyos/rules.py:57-62 | the seven rounds pop 7 + 6 + ... + 1 = 28 cards |
| Rules.OffsetBound | pyos/rules.py:57-62 | every pop of the deal takes one of the last 28 cards of the deck |
| Rules.Faces | pyos/rules.py:51-53 | the cards of the tableau piles without the open flags, pile by pile and position by position |
| Rules.FacesAppend | pyos/rules.py:61 | appending an entry to a pile appends its card to that pile's cards |
| Rules.DealStep | pyos/rules.py:59-62 | one pop of the inner loop takes the card the deal's outcome places at that pile and height, open exactly for the first pile of the round |
| Rules.DealStepConserves | pyos/rules.py:60-61 | moving the last card of the stack onto a pile keeps the multiset of all cards |
| Rules.RoundDone | pyos/rules.py:57-59 | the end of one round is the start state of the next |
| Rules.Deal | pyos/rules.py:46-63 | for a given deck, pile `t` gets `t + 1` entries, the one of round `s` at height `s` is the card popped then, the stack is the deck without its last 28 cards, and no card is lost or gained |
| Rules.Turned | pyos/rules.py:51-53 | a dealt pile read as cards, each face up exactly when its open flag is 1 |
| Rules.DealIsStart | pyos/rules.py:46-63 | after the deal only the top entry of each pile is open, so every pile is in the start state the tableau pile's `isstart` accepts |
| TableLayout.KeepLast | pyos/table_layout.py:118-123 | definition of the de-duplication of the queue; its contract is stated by `KeepLastMeaning`, `KeepLastOrder`, `KeepLastCovers` and `KeepLastDistinct` |
| TableLayout.KeepLastMeaning | pyos/table_layout.py:113-124 | an entry survives the de-duplication exactly when no later entry of the queue is for the same card |
| TableLayout.KeepLastOrder | pyos/table_layout.py:113-124 | surviving entries keep their relative queue order |
| TableLayout.KeepLastCovers | pyos/table_layout.py:113-124 | every card with a queued entry keeps one surviving entry |
| TableLayout.KeepLastDistinct | pyos/table_layout.py:113-124 | no two surviving entries are for the same card |
| TableLayout.Played | pyos/table_layout.py:113-124 | definition of what `animate` plays; its contract is stated by `PlayedLatest`, `PlayedNewestFirst` and `PlayedOnce` |
| TableLayout.PlayedLatest | pyos/table_layout.py:113-124 | `animate` plays an entry exactly when it is the most recent one queued for its card |
| TableLayout.PlayedNewestFirst | pyos/table_layout.py:119 | `animate` plays in reverse queue order: of two played entries the earlier played was queued later |
| TableLayout.PlayedOnce | pyos/table_layout.py:113-124 | every queued card gets exactly one sequence played |
| TableLayout.AnimationQueue.constructor | pyos/table_layout.py:106-107 | the queue starts empty and nothing has been played |
| TableLayout.AnimationQueue.Add | pyos/table_layout.py:109-111 | appends the card's sequence to the queue and plays nothing |
| TableLayout.AnimationQueue.Animate | pyos/table_layout.py:113-124 | plays the sequences `Played` picks from the queue, in that order, and empties the queue |
| TableLayout.Replay | pyos/table_layout.py:118-123 | the loop over the reversed queue with its dictionary of seen cards returns exactly `Played` of the queue |
| TableLayout.VOffset | pyos/table_layout.py:384-392 | definition of `v_offset`; its contract is stated by `VOffsetEnds` and `VOffsetShrinks` |
| TableLayout.VOffsetEnds | pyos/table_layout.py:384-392 | the spacing is the upper bound for an empty pile and the lower bound for 19 cards |
| TableLayout.VOffsetShrinks | pyos/table_layout.py:384-392 | with the lower bound at most the upper, a larger pile never gets a larger spacing |
| TableLayout.CardNode.constructor | pyos/table_layout.py:88-93 | a card node with the given place in its pile, depth and position |
| TableLayout.Lookup | pyos/table_layout.py:316 | `[self._cards[k] for k in child_cards]`: the node of each key, in order, all among the layout's nodes |
| TableLayout.DragDepth | pyos/table_layout.py:314-319 | definition of the depths after a drag starts; its contract is stated by `DragDepthMeaning` |
| TableLayout.DragDepthMeaning | pyos/table_layout.py:314-319 | for distinct children other than the dragged card, the dragged card gets depth 200, child `i` gets 201 + i, and every other card keeps its depth |
| TableLayout.DragPos | pyos/table_layout.py:301-304 | definition of the positions the drag task sets; its contract is stated by `DragPosMeaning` |
| TableLayout.DragPosMeaning | pyos/table_layout.py:301-304 | for distinct child nodes, child `i` is placed `i + 1` spacings below the dragged card, and every other node keeps its position |
| TableLayout.Layout.constructor | pyos/table_layout.py:195-218 | a layout over distinct card nodes with no drag on record: inactive, no dragged card, no children, spacing 0 |
| TableLayout.Layout.OnDrag | pyos/table_layout.py:306-321 | the drag becomes active first; an unknown dragged card raises `KeyError` with nothing else changed; an unknown child raises `KeyError` after the dragged card is raised to depth 200; otherwise the children's nodes, the spacing for `pile_size` and the depths of `DragDepth` are recorded; no position moves |
| TableLayout.Layout.RaiseDrag | pyos/table_layout.py:314 | sets the dragged card's depth to 200 and changes no other depth or position |
| TableLayout.Layout.SetDepths | pyos/table_layout.py:318-319 | the loop leaves every card at the depth `DragDepth` gives it |
| TableLayout.Layout.OnDrop | pyos/table_layout.py:323-334 | without an active drag nothing changes; otherwise the drag ends and the dragged card and its children return to the depth of their place in the pile, `AttributeError` being raised when no dragged card is on record; no position moves |
| TableLayout.Layout.ResetDepths | pyos/table_layout.py:333-334 | each listed node gets the depth of its place in the pile, every other node keeps its depth |
| TableLayout.Layout.DragTask | pyos/table_layout.py:297-304 | while an active drag has children, child `i` moves to `i + 1` spacings below the dragged card; otherwise nothing moves; depths never change |
| TableLayout.Layout.PlaceChildren | pyos/table_layout.py:303-304 | the loop leaves every node at the position `DragPos` gives it |
| TaskManager.TaskCheck | pyos/engine/taskmanager.py:33-39 | the constructor's checks pass exactly for a string name, a callable callback and an `int`/`float` delay that is not negative; every failure is `ValueError` |
| TaskManager.Fire | pyos/engine/taskmanager.py:64-69 | definition of one call as written; its contract is stated by `DisabledIgnores`, `FiresEarly` and `StallsForever` |
| TaskManager.FireIntended | pyos/engine/taskmanager.py:64-69 | definition of one call under the corrected comparison (see Findings); its contract is stated by `IntendedPaced` and `IntendedRunsWhenDue` |
| TaskManager.Run | pyos/engine/taskmanager.py:64-69 | definition of a sequence of calls as written; its contract is stated by `DisabledIgnores`, `StallsForever` and `StallExample` |
| TaskManager.RunIntended | pyos/engine/taskmanager.py:64-69 | definition of a sequence of calls as intended; its contract is stated by `IntendedPaced` and `StallExample` |
| TaskManager.Paced | pyos/engine/taskmanager.py:83 | definition of "runs at least `delay` apart"; `IntendedPaced` proves the corrected rule keeps it |
| TaskManager.DisabledIgnores | pyos/engine/taskmanager.py:64-66 | a disabled task ignores every call, as written and as intended |
| TaskManager.FiresEarly | pyos/engine/taskmanager.py:67-69 | as written, an enabled task runs on a call that comes sooner than `delay` after its last run, which the intended rule refuses |
| TaskManager.StallsForever | pyos/engine/taskmanager.py:67-69 | as written, a task whose calls all come more than `delay` after its last run never runs again |
| TaskManager.StallExample | pyos/engine/taskmanager.py:67-69 | a task with delay 1 last run at 0 and called at 0.5, 2 and 3 runs only at 0.5 as written, and at 2 and 3 as intended |
| TaskManager.IntendedPaced | pyos/engine/taskmanager.py:83 | with the intended rule, recorded runs are never closer than `delay` to each other or to the start, and the delay is unchanged |
| TaskManager.IntendedRunsWhenDue | pyos/engine/taskmanager.py:83 | with the intended rule, a task that is due on a call runs on it and records that clock reading |
| TaskManager.Task.constructor | pyos/engine/taskmanager.py:40-46 | an enabled task with the given name and delay, last run at the creation clock reading, not yet run |
| TaskManager.Task.Create | pyos/engine/taskmanager.py:33-46 | raises `ValueError` exactly when the constructor's checks fail; otherwise a fresh enabled task with the given name and delay, last run at creation |
| TaskManager.Task.SetDelay | pyos/engine/taskmanager.py:52-55 | a number, negative ones included, becomes the delay; any other value leaves the `Task` unchanged |
| TaskManager.Task.Disable | pyos/engine/taskmanager.py:61-62 | the `Task` becomes disabled and nothing else changes |
| TaskManager.Task.Call | pyos/engine/taskmanager.py:64-69 | a disabled task does nothing; an enabled one runs once `delay` has passed since its last run and records the clock reading (the corrected comparison, see Findings) |
| TaskManager.Manager.constructor | pyos/engine/taskmanager.py:73-75 | no tasks registered |
| TaskManager.Manager.AddTask | pyos/engine/taskmanager.py:77-90 | a name in use raises `ValueError`; otherwise the `Task` checks decide; a failure changes nothing; a success registers a fresh task under the name, last in the visiting order, and returns it |
| TaskManager.Manager.RemoveTask | pyos/engine/taskmanager.py:92-94 | a registered task is disabled and unregistered, with every other task unchanged; an unknown name changes nothing |
| TaskManager.Manager.Tick | pyos/engine/taskmanager.py:96-100 | every registered task is called once with the same clock reading, by the corrected rule |
| TaskManager.Manager.Get | pyos/engine/taskmanager.py:102-105 | the registered task, or `IndexError` for an unknown name |
| TaskManager.Without | pyos/engine/taskmanager.py:93-94 | definition of the name list without a removed task; its contract is stated by `WithoutSpec` |
| TaskManager.WithoutSpec | pyos/engine/taskmanager.py:93-94 | dropping a name from the distinct names in visiting order keeps exactly the other names, still distinct |
| Util.LE | pyos/util.py:56 | the little-endian encoding of a number below 256^n has exactly `n` bytes |
| Util.Unpack | pyos/util.py:65 | the unsigned little-endian value of `n` bytes is below 256^n |
| Util.UnpackLE | pyos/util.py:53-68 | reading back an encoding gives the number |
| Util.LEUnpack | pyos/util.py:53-68 | encoding the value read from some bytes gives those bytes back |
| Util.PackValue | pyos/util.py:55-58 | `struct.pack` of one value as an `n`-byte unsigned integer succeeds exactly for an `int` (or `bool`) in range, with `n` bytes that read back as it; anything else is `ValueError` |
| Util.PackUInt | pyos/util.py:55-58 | the same for an integer argument |
| Util.EncodeId | pyos/util.py:53-59 | succeeds exactly for ids in 0..2^32-1, with four bytes; otherwise `ValueError` |
| Util.ParseId | pyos/util.py:62-68 | succeeds exactly for four bytes, giving a `uint32`; otherwise `ValueError` |
| Util.IdRoundTrip | pyos/util.py:53-68 | every id in range survives `encode_id` then `parse_id` |
| Util.IdBytesRoundTrip | pyos/util.py:53-68 | every four bytes survive `parse_id` then `encode_id` |
| Util.High | pyos/util.py:77 | `val >> 4` of a byte is its high nibble |
| Util.Low | pyos/util.py:78 | `val - (score << 4)` is its low nibble |
| Util.PackNibbles | pyos/util.py:84-89 | packing `low + (high << 4)` as one byte succeeds exactly when that sum is a byte, otherwise `ValueError` |
| Util.NibblesRoundTrip | pyos/util.py:77-89 | two nibbles packed into a byte are read back unchanged |
| Util.ParseGameType | pyos/util.py:71-79 | succeeds exactly for one byte, giving the low nibble as draw count and the high nibble as score type |
| Util.EncodeGameType | pyos/util.py:82-89 | succeeds exactly when `draw + 16 * score` is a byte, otherwise `ValueError` |
| Util.GameTypeRoundTrip | pyos/util.py:71-89 | draw counts and score types below 16 survive encoding then parsing |
| Util.GameTypeBytesRoundTrip | pyos/util.py:71-89 | every game-type byte survives parsing then encoding |
| Util.GameTypeSpills | pyos/util.py:84 | the encoder does not check its fields: a draw count 16 higher encodes like a score one higher |
| Util.ParseChallengeResult | pyos/util.py:219-227 | succeeds exactly for one byte, the user's result being the low nibble and the other's the high nibble |
| Util.EncodeChallengeResult | pyos/util.py:230-236 | succeeds exactly when `user + 16 * other` is a byte, otherwise `ValueError` |
| Util.ChallengeResultRoundTrip | pyos/util.py:219-236 | results below 16 survive encoding then parsing |
| Util.ParseChallengeStatus | pyos/util.py:152-162 | succeeds exactly for nine bytes: a `uint32` challenge id, a status byte holding waiting in bit 0, the round number in bits 1-3 and the rounds in the high nibble, and a `uint32` user id |
| Util.EncodeChallengeStatus | pyos/util.py:165-175 | succeeds exactly for a `uint32` challenge id and a status that fits a byte, with five bytes; otherwise `ValueError` |
| Util.ChallengeStatusRoundTrip | pyos/util.py:152-175 | a status with round number below 8 and rounds below 16, followed by an encoded user id, parses back to all five fields |
| Util.ParseAccept | pyos/util.py:199-207 | succeeds exactly for at least five bytes; the id is the first four; the request counts as accepted only when the flag byte is set and there are exactly six bytes, with the sixth as extra data; otherwise `(id, False, b'')` |
| Util.EncodeAccept | pyos/util.py:210-216 | succeeds exactly for a `uint32` id, with five bytes |
| Util.AcceptRoundTrip | pyos/util.py:199-216 | an accept message plus one byte parses back to its id, its decision and, when accepted, that byte |
| Util.AcceptAloneRefuses | pyos/util.py:205-207 | the five-byte message alone parses as a refusal whatever the decision |
| Util.EncodeDaydeal | pyos/util.py:110-116 | succeeds exactly for a draw count that is a byte and a day offset below 2^16, giving three bytes: the draw count, then the offset little-endian; otherwise `ValueError` |
| Util.EncodeLeaderboard | pyos/util.py:119-125 | succeeds exactly for three `uint32` fields, giving twelve bytes that unpack to them |
| Util.Leaderboard | pyos/util.py:128-140 | nothing when the length is not a multiple of 12, otherwise one entry per 12 bytes |
| Util.ParseLeaderboard | pyos/util.py:128-140 | the loop over the 12-byte windows returns `Leaderboard` of the data |
| Util.EntryBytes | pyos/util.py:119-125 | an entry with `uint32` fields encodes to twelve bytes that unpack to it |
| Util.LeaderboardRoundTrip | pyos/util.py:119-140 | parsing the concatenated encodings of entries gives those entries |
| Util.EntryBytesOf | pyos/util.py:119-140 | every 12-byte window is the encoding of the entry it holds |
| Util.LeaderboardBytesRoundTrip | pyos/util.py:119-140 | every reply whose length is a multiple of 12 is the encoding of what it parses to |
| Util.PackAll | pyos/util.py:245 | packing several values as `n`-byte integers succeeds exactly when each one packs, with `n` bytes per value |
| Util.Words | pyos/util.py:254 | unpacking `4n` bytes gives `n` words |
| Util.PackWords | pyos/util.py:245-254 | packing the words of some bytes gives the bytes back |
| Util.Split | pyos/util.py:241 | `str.split(',')` always gives at least one field |
| Util.SplitJoin | pyos/util.py:241-257 | splitting a comma join of comma-free fields gives the fields back |
| Util.Decimal | pyos/util.py:257 | `str(n)` is a non-empty string of decimal digits |
| Util.DecimalValue | pyos/util.py:239-248 | a field converts iff it is a non-empty run of decimal digits (narrower than `int()`, see Left out), so a converted field holds no comma |
| Util.DecimalRoundTrip | pyos/util.py:239-257 | `int(str(n)) == n` |
| Util.DecimalValues | pyos/util.py:239-248 | converting the fields gives one number per field |
| Util.DecimalsRoundTrip | pyos/util.py:239-257 | converting the decimal strings of numbers gives the numbers back |
| Util.EncodeHash | pyos/util.py:251-257 | succeeds exactly for a 48-byte digest, otherwise `ValueError` |
| Util.ParseHashAsWritten | pyos/util.py:239-248 | as written: a result only for twelve comma-separated fields, every failure being `ValueError` |
| Util.ParseHashAsWrittenFails | pyos/util.py:244-248 | as written, `parse_hash` accepts no input, since the fields reach `struct.pack` as strings |
| Util.ParseHash | pyos/util.py:239-248 | corrected: a result only for twelve comma-separated fields, and then a 48-byte digest; every failure is `ValueError` |
| Util.HashRoundTrip | pyos/util.py:239-257 | every digest survives `encode_hash` then the corrected `parse_hash`, while the code as written rejects it |
| NodePaths.Up | pyos/engine/scene/nodepath.py:298-299 | the nodes the `dirty` setter's recursion visits: a path from the node through parents to a root, within the given number of nested calls |
| NodePaths.UpFinds | pyos/engine/scene/nodepath.py:298-299 | the recursion finds any path to a root that fits the budget |
| NodePaths.UpSufficientFuel | pyos/engine/scene/nodepath.py:298-299 | one nested call per node is enough: a recursion that reaches a root with any budget reaches the same root with that one |
| NodePaths.MarkDirty | pyos/engine/scene/nodepath.py:298-300 | marking a path keeps the number of nodes |
| NodePaths.DirtyStep | pyos/engine/scene/nodepath.py:293-300 | definition of the `dirty` setter; its contract is stated by `DirtyMarksAncestors`, `DirtyRecursion` and `DirtyFalseLocal` |
| NodePaths.DirtyMarksAncestors | pyos/engine/scene/nodepath.py:293-300 | setting `dirty` to `True` succeeds and marks exactly the node and its ancestors up to the root |
| NodePaths.DirtyRecursion | pyos/engine/scene/nodepath.py:293-300 | setting `True` raises `RecursionError` exactly when no path leads from the node to a root, and then changes nothing |
| NodePaths.DirtyFalseLocal | pyos/engine/scene/nodepath.py:293-300 | setting `False` clears this node's flag only; anything but a bool raises `TypeError` and changes nothing |
| NodePaths.Relative | pyos/engine/scene/nodepath.py:302-316 | definition of `update_relative`; its contract is stated by `RelAlongChain` |
| NodePaths.RelAlongChain | pyos/engine/scene/nodepath.py:302-316 | when every node on the way to the root is up to date, a node's relative angle and depth are the sums, and its relative scale the product, of the own values along that way |
| NodePaths.Touch | pyos/engine/scene/nodepath.py:326-327 | `update_relative` then `dirty = False` on one node keeps the number of nodes |
| NodePaths.Visit | pyos/engine/scene/nodepath.py:326-333 | the walk below the root check keeps the number of nodes |
| NodePaths.VisitAll | pyos/engine/scene/nodepath.py:332-333 | the loop over the children keeps the number of nodes |
| NodePaths.VisitSetsNone | pyos/engine/scene/nodepath.py:318-340 | a walk sets no dirty flag |
| NodePaths.VisitAllSetsNone | pyos/engine/scene/nodepath.py:332-333 | the same for the loop over the children |
| NodePaths.VisitClears | pyos/engine/scene/nodepath.py:318-340 | a completed walk lists exactly the nodes it leaves clean; no other node changes |
| NodePaths.VisitAllClears | pyos/engine/scene/nodepath.py:332-333 | the same for the loop over the children |
| NodePaths.VisitPreorder | pyos/engine/scene/nodepath.py:318-340 | a walk lists the node itself first and every later node after its parent, which is visible; a hidden node lists only itself |
| NodePaths.VisitAllPreorder | pyos/engine/scene/nodepath.py:332-333 | the loop appends each child's list after the parent, keeping that order |
| NodePaths.TraverseStep | pyos/engine/scene/nodepath.py:318-340 | definition of `traverse`; its contract is stated by `TraverseCleanRoot` and `TraverseMeaning` |
| NodePaths.TraverseCleanRoot | pyos/engine/scene/nodepath.py:324-325 | `traverse` returns `False` and changes nothing exactly for a root that is not dirty |
| NodePaths.TraverseMeaning | pyos/engine/scene/nodepath.py:318-340 | a completed traversal lists the node first and every other node after its visible parent; every listed node ends clean and no other node changes; the list goes to the quadtree exactly for a root; no traversal sets a dirty flag |
| NodePaths.Detach | pyos/engine/scene/nodepath.py:345-346 | `old_parent.remove(self)` takes the node out of the old parent's children and changes nothing else |
| NodePaths.Relink | pyos/engine/scene/nodepath.py:347-348 | the node names the new parent and is appended to its children; nothing else changes |
| NodePaths.Settle | pyos/engine/scene/nodepath.py:349-350 | the end of `reparent_to` keeps the number of nodes |
| NodePaths.SettleChanges | pyos/engine/scene/nodepath.py:349-350 | only the root's quadtree and the node's root status change |
| NodePaths.MovedLinked | pyos/engine/scene/nodepath.py:342-352 | moving a node to the end of another node's children keeps the graph linked |
| NodePaths.RelinkMoves | pyos/engine/scene/nodepath.py:345-348 | detaching and relinking moves the node between children lists and keeps every node's own values |
| NodePaths.ReparentStep | pyos/engine/scene/nodepath.py:342-352 | definition of `reparent_to`; its contract is stated by `ReparentMoves`, `ReparentRoot`, `ReparentUnder` and `ReparentFails` |
| NodePaths.ReparentMoves | pyos/engine/scene/nodepath.py:342-352 | the node moves to the end of the new parent's children and out of every other list, names the new parent and is no longer a root; no other node's parent, root status or own values change; the graph stays linked; the only failure is `RecursionError` |
| NodePaths.ReparentRoot | pyos/engine/scene/nodepath.py:342-352 | reparenting a root succeeds and gives it the new parent's quadtree; no other quadtree changes |
| NodePaths.ReparentUnder | pyos/engine/scene/nodepath.py:342-352 | reparenting a non-root under a node whose way up avoids it succeeds, and that root takes the new parent's quadtree |
| NodePaths.RelinkedChain | pyos/engine/scene/nodepath.py:349 | the way up from the relinked node continues through the new parent, and the part above it avoids the node |
| NodePaths.ReparentFails | pyos/engine/scene/nodepath.py:342-352 | anything but a node path is refused with `False`; the call raises `RecursionError` exactly when the node is not a root and the new parent lies below it or is the node itself |
| NodePaths.AttachStep | pyos/engine/scene/nodepath.py:354-376 | definition of `attach_new_node_path`; its contract is stated by `AttachMeaning` |
| NodePaths.AttachMeaning | pyos/engine/scene/nodepath.py:354-376 | the new node path is the last node: a dirty child of `p` with the given values, relative values up to date, in `p`'s quadtree, last among `p`'s children; nothing else changes and the graph stays linked |
| NodePaths.RemoveStep | pyos/engine/scene/nodepath.py:381-383 | `remove` keeps the number of nodes |
| NodePaths.RemoveMeaning | pyos/engine/scene/nodepath.py:381-383 | afterwards the node path is no longer a child, the other children stay, nothing else changes, and a node path that was not a child changes nothing |
| NodePaths.RemoveKeepsLinked | pyos/engine/scene/nodepath.py:381-383 | `remove` keeps the graph linked |
| NodePaths.OwnChangeKeepsLinked | pyos/engine/scene/nodepath.py:152-197 | the setters of own values keep the graph linked |
| NodePaths.SceneGraph.constructor | pyos/engine/scene/nodepath.py:58-99 | an empty scene with no quadtrees |
| NodePaths.SceneGraph.NewRoot | pyos/engine/scene/nodepath.py:58-99 | a node path without a parent is a new root with the given values, no children and a quadtree of its own, dirty, with relative values equal to its own |
| NodePaths.SceneGraph.Attach | pyos/engine/scene/nodepath.py:354-376 | the new graph is `AttachStep` of the old one and no quadtree is created |
| NodePaths.SceneGraph.SetDirty | pyos/engine/scene/nodepath.py:293-300 | the status and the new flags are those of `DirtyStep`; the nodes are unchanged |
| NodePaths.SceneGraph.Propagate | pyos/engine/scene/nodepath.py:298-300 | the recursion marks the path `Up` finds, or raises `RecursionError` with nothing changed |
| NodePaths.SceneGraph.SetDepth | pyos/engine/scene/nodepath.py:178-184 | an `int` (or `bool`) is stored; anything else raises `TypeError` and changes nothing |
| NodePaths.SceneGraph.SetAngle | pyos/engine/scene/nodepath.py:152-158 | an `int` or `float` is stored as a float; anything else raises `TypeError` and changes nothing |
| NodePaths.SceneGraph.SetScale | pyos/engine/scene/nodepath.py:165-171 | an `int` or `float` is stored as a float; anything else raises `TypeError` and changes nothing |
| NodePaths.SceneGraph.SetCenter | pyos/engine/scene/nodepath.py:190-197 | one of the three anchors is stored; any other value raises `ValueError` and changes nothing |
| NodePaths.SceneGraph.UpdateRelative | pyos/engine/scene/nodepath.py:302-316 | the node's relative values become `Relative` of the graph; nothing else changes |
| NodePaths.SceneGraph.Descend | pyos/engine/scene/nodepath.py:326-333 | the outcome and the new flags are those of `Visit` |
| NodePaths.SceneGraph.Traverse | pyos/engine/scene/nodepath.py:318-340 | the outcome and the new flags are those of `TraverseStep`; a root with a non-degenerate list takes a new quadtree built by the corrected `quadtree_from_pairs`, and nothing else changes the nodes; as written, every dirty root raises `TypeError` there instead (see Left out and Findings) |
| NodePaths.SceneGraph.Remove | pyos/engine/scene/nodepath.py:381-383 | the new nodes are `RemoveStep` of the old ones |
| NodePaths.SceneGraph.HandTree | pyos/engine/scene/nodepath.py:277-286 | a root stores the quadtree, any other node hands it to its parent: the root at the end of `Up` takes it, or `RecursionError` with nothing changed |
| NodePaths.SceneGraph.Move | pyos/engine/scene/nodepath.py:345-348 | the new nodes are `Relink(Detach(...))` of the old ones |
| NodePaths.SceneGraph.ReparentTo | pyos/engine/scene/nodepath.py:342-352 | the status and the new nodes are those of `ReparentStep` |
| SeqFacts.Reversed | pyos/table.py:329 | `list(reversed(waste))`: same length, element `i` taken from position `len - 1 - i` |
| SeqFacts.ReversedKeeps | pyos/table.py:329 | turning the waste over into the stack keeps every card |
| SeqFacts.ReversedTwice | pyos/table.py:329-337 | turning the pile over twice gives it back |
| SeqFacts.RemoveFirst | pyos/engine/scene/nodepath.py:381-383 | `list.pop(list.index(x))` takes out one occurrence of `x`, and a list without `x` is left as it is |
| SeqFacts.RemoveFirstDistinct | pyos/engine/scene/nodepath.py:381-383 | on a list without repetitions it leaves exactly the other elements, still without repetitions |
| SeqFacts.LastIndexOf | pyos/table_layout.py:318-319 | the last position holding `x`, or -1 exactly when `x` does not occur: in a loop that writes per element, the last write wins |

## Left out

- Networking, processes and databases: the sockets, selectors and threads of the multiplayer client and server, the rest of `pyos/mpclient.py`, the solver service, the build scripts, and the SQLAlchemy/sqlite queries of the statistics and multiplayer databases. None of it has logic that does not go through I/O.
- The user interface: menus, dialogues, the HUD, the toolbar, rendering, sprites, images, the scene `Node`, the viewport, and the widget construction, layout and `click_area` of `ButtonList` and `TableLayout`. They are drawing and asset code.
- The unfinished solver in `pyos/solver.py`: its functions return nothing or are `pass`.
- Floating point: the float32 `encode_result`/`parse_result` (and `encode_challenge_round`, which uses them) and the interval interpolation. Reals are exact here.
- `encode_challenge_req` and `parse_challenge_round` (pyos/util.py:143-184) are not part of this model. They are fixed-layout packings of the same kind as the ones modelled.
- Randomness: `shuffled_deck` shuffles with a seeded `random`, so `Rules.Deal` deals from a given deck. `Rules.StandardDeck` is the deck before the shuffle.
- Clocks: `time.perf_counter`/`time.clock` readings are parameters. The table's timing (`time`, `pause`, `resume`, `result` with its time `bonus`), `get_state`/`set_state` and `log` are not modelled.
- Hashing: the SHA3-384 `generate_hash` and `util.timestamp` are not modelled. `EncodeHash` takes any 48 bytes as the digest.
- `valid_move`, which `pyos/table.py` calls but the repository does not define, is a parameter of `LegacyTable`.
- Vectors.Vector.SquaredLength: the cache holds the squared length, because the square root is not modelled.
- Vectors.Vector.Normalize: the new coordinates after the division by the length are not stated. Only the error case, the stale cache and the result are.
- Vectors.Vector.Normalized: the returned coordinates are not stated, for the same reason.
- Vectors.AsInt: `asint(rounding=True)` is not modelled. Python's round-half-even has no counterpart here; only the truncating default is modelled.
- The self-recursive `visible` and `asset_pixel_ratio` setters of `NodePath` (pyos/engine/scene/nodepath.py:110 and 223) never terminate and are not modelled.
- NodePaths.Relative: positions, `rotate`/`aspoint`, `rotation_center`, `size`, the sprite loader and the scene `node` of a `NodePath` are not modelled. `update_relative` covers angle, scale and depth only; the position path calls vector methods that do not exist.
- NodePaths.SceneGraph.Traverse: the boxes handed to `quadtree_from_pairs` are not computed. Whether their hull has zero or infinite area is the `degenerate` parameter, and the new quadtree is a fresh handle.
- NodePaths.SceneGraph.Traverse: it uses the corrected `quadtree_from_pairs` (see Findings). As written, the pair list of a dirty root always holds the root's own pair (pyos/engine/scene/nodepath.py:330), so the call at line 335 raises `TypeError` for every dirty root, after `update_relative()` and `dirty = False` have already run on the visited nodes. That failing outcome is not modelled.
- NodePaths.TraverseStep: Python's recursion limit is modelled as one nested call per node. A deeper graph, which Python would also walk, is not distinguished from a cycle.
- NodePaths.SceneGraph.NewRoot: `center` is stored without a check, as in the constructor. The three layout constants are symbolic (`Center`, `TopLeft`, `BottomRight`), not their integer values.
- `query` of `NodePath` is `Quadtrees.Quadtree.GetItems` on the root's quadtree and has no member of its own.
- Quadtrees.Quadtree.constructor: `max_level` is a `nat`. A negative level never reaches 0 and would recurse without end on point positions.
- Quadtrees.Quadtree.Add: positions are a box, a point, a list/tuple of reals or something else. Python objects that happen to compare with `AABB` are not modelled.
- QuadtreeModel.Lookup: a key of a Python type that is not hashable is a flag on the key (`hashable`), not derived from the type.
- TaskManager.Manager.AddTask: an unhashable name would raise `TypeError` at the dictionary test. Names are strings or other hashable values here.
- Card `location` updates and the animation sequences' effects in `TableLayout` are not modelled. A sequence is an opaque number, and a card node's place in its pile is fixed at construction.
- TableLayout.Layout.OnDrag: an empty list and `None` for `child_cards` are the same input (an empty `kids`). Python treats both as "no children".
- Fsm.RequestSucceeds: the `enter` and `exit` hooks are foreign code and are modelled as calls that always return. In Python a raising `exit()` leaves the old state active and `enter` is never called, and a raising `enter()` leaves the exited state recorded as active (pyos/engine/fsm.py:31-32 warns of both). "Succeeds iff registered" holds only under this assumption, and the same holds for `Fsm.Machine.Request`. The event callbacks of `EventHandler` (pyos/engine/eventhandler.py:76) and the `Task` callback (pyos/engine/taskmanager.py:69, called after `last_exec` is already updated) are modelled the same way: a raised exception, which would stop the remaining callbacks or tasks, is not modelled.
- Fsm.LowerChar: only the ASCII letters `A..Z` are lower-cased. Python's `str.lower()` is Unicode and also lower-cases other letters (`'É'` becomes `'é'`), and can change the length (`'İ'` becomes two characters); that is not modelled. State names are class names. `Fsm.Lower` is ASCII-only in the same way.
- Fsm.RequestMixedCase: `request` looks the name up without lower-casing it, while `add_state` stores lower-cased names. It is modelled as written and stated as a property, not corrected.
- Util.DecimalValue: a field counts as a number only when it is made of decimal digits. Python's `int()` also accepts a sign, surrounding whitespace and underscores (`'+5'`, `' 7'`, `'1_0'`), so the corrected `ParseHash` refuses some inputs that `int()` would accept. The round trip is unaffected, since `encode_hash` writes plain digits.
- TableLayout.Layout.OnDrag: the spacing bounds `lo` and `hi` are constants of a layout. The source recomputes `_v_offset` in `setup` on every resize (pyos/table_layout.py:447 and 496), and that layout code is not modelled.
- Test assertions in `pyos/test/test_tools.py` (lines 45-46, 49-50, 55, 71, 94-96), `pyos/test/test_scene.py` and `pyos/test/test_taskmanager.py:57-60` target another version of the API and are not modelled.
- ButtonList.List.Create: requires `itpp >= 1`, as does `ButtonList.List.constructor`. With `itpp = 0` the source raises `ZeroDivisionError` (the spacing in `_setup_layout`, pyos/buttonlist.py:128, or `num_pages`, line 202); no caller passes 0.
- ButtonList.List.SetData: the caller's list changing in place is modelled as replacing the list value; the aliasing of one Python list object between caller and widget is not modelled.
- Areas.Area.Flip: cards are values. The source's `Card` objects are shared between lists and flipped in place; that aliasing is not modelled.

## Findings

| source | as written | input that shows it | evidently intended | confidence | as-written member | corrected member |
|---|---|---|---|---|---|---|
| pyos/engine/tools/quadtree.py:242-243 | `x_min, y_min = inf` unpacks a single float, which raises `TypeError` for every non-empty list | the four pairs of `test_quadtree_from_pairs` (pyos/test/test_tools.py:105-124) | both names start at `inf` (and the maxima at `-inf`), giving the tree over (-1.1, -1.1, 1.9, 1.9) that holds all pairs | high, not executed | QuadtreeModel.FromPairsOnTestData | QuadtreeModel.FromPairsStoresAll |
| pyos/mpclient.py:547-549 | the `i`-th id is read from `data[4i .. 4i+4)`, a window that starts at the tag byte | the reply `[7, 1, 0, 0, 0]` (tag 7, id 1) lists the id 263 | the `i`-th id is read from `data[1+4i .. 5+4i)`, after the tag | high, not executed | MpClient.UseridsAsWrittenExample | MpClient.UseridsRoundTrip |
| pyos/util.py:245 | the comma-separated fields reach `struct.pack('<12I', ...)` as strings, which always fails, so `parse_hash` raises `ValueError` for every input | the output of `encode_hash` for any 48-byte digest | each field converted by `int` before packing, so that `parse_hash` inverts `encode_hash` | high, not executed | Util.ParseHashAsWrittenFails | Util.HashRoundTrip |
| pyos/engine/taskmanager.py:67 | an enabled task runs when `last_exec + delay >= clk`, that is while it is NOT yet due, and stalls once a call comes later than `delay` | delay 1, last run at 0, calls at 0.5, 2 and 3: runs only at 0.5 | run when `clk >= last_exec + delay` ("number of seconds between execution", line 83), which runs at 2 and 3; pyos/test/test_taskmanager.py:48-60 expects 49 runs of a task with delay 0.02 over one second | high, not executed | TaskManager.StallExample | TaskManager.IntendedPaced |
| pyos/engine/eventhandler.py:54-55 | a name enters the priority map of an event type only when the type is new, so a second listener of a known type is never called | `listen('a', K, f)` then `listen('b', K, g)`: an event of type K calls only `f` | every listener of the type is called, in order of priority (docstring, line 41) | high, not executed | EventHandler.LateListenerIgnored | EventHandler.ListenIntendedCalled |

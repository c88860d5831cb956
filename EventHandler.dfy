/** The engine's event handler (pyos/engine/eventhandler.py). Callbacks are
    registered under unique names for an event type with a priority; each
    incoming event of a registered type is handed to the type's callbacks,
    highest priority first, as the `event` keyword argument. Events arrive as
    an input sequence, and since callbacks are foreign code the handler
    records the deliveries it makes. */
module EventHandler {
  import opened Outcomes
  import opened SeqFacts

  /** An input event: its type and an opaque payload. */
  datatype Event = Event(kind: int, payload: nat)

  /** A name with its priority, as stored in a type's priority map. */
  datatype Entry = Entry(name: string, priority: int)

  /** What `listen` stores under a name: the callback (by identity) and the
      `event` keyword its stored keyword arguments last received. */
  datatype Registration = Registration(callback: nat, lastEvent: Option<Event>)

  /** One call of a callback with an event. */
  datatype Delivery = Delivery(name: string, callback: nat, event: Event)

  /** The handler as a value. Each type's priority map is a list of entries
      in insertion order, which is the order Python iterates a dictionary. */
  datatype Config = Config(events: map<int, seq<Entry>>, unique: map<string, Registration>, log: seq<Delivery>)

  datatype Step = Step(status: Status, next: Config)

  // ----- dispatch order -----

  predicate Ascending(s: seq<Entry>) {
    forall i, j :: 0 <= i < j < |s| ==> s[i].priority <= s[j].priority
  }

  predicate Descending(s: seq<Entry>) {
    forall i, j :: 0 <= i < j < |s| ==> s[i].priority >= s[j].priority
  }

  /** `x` put into an ascending list after every entry of equal or lower
      priority. */
  function Insert(x: Entry, s: seq<Entry>): (r: seq<Entry>)
    ensures |r| == |s| + 1
  {
    if s == [] then [x]
    else if s[0].priority > x.priority then [x] + s
    else [s[0]] + Insert(x, s[1..])
  }

  /** Inserting adds exactly the one entry. */
  lemma {:induction false} InsertKeeps(x: Entry, s: seq<Entry>)
    ensures multiset(Insert(x, s)) == multiset(s) + multiset{x}
  {
    if s != [] && s[0].priority <= x.priority {
      InsertKeeps(x, s[1..]);
      assert s == [s[0]] + s[1..];
    }
  }

  /** Inserting into an ascending list keeps it ascending. */
  lemma {:induction false} InsertSorted(x: Entry, s: seq<Entry>)
    requires Ascending(s)
    ensures Ascending(Insert(x, s))
  {
    if s != [] && s[0].priority <= x.priority {
      InsertSorted(x, s[1..]);
      InsertKeeps(x, s[1..]);
      var r := Insert(x, s[1..]);
      forall j | 0 <= j < |r|
        ensures s[0].priority <= r[j].priority
      {
        assert r[j] in multiset(s[1..]) + multiset{x};
      }
    }
  }

  /** `sorted(entries, key=priority)`: a stable sort, ascending. */
  function SortAsc(s: seq<Entry>): (r: seq<Entry>)
    ensures multiset(r) == multiset(s)
    ensures Ascending(r)
  {
    if s == [] then []
    else
      var f := s[..|s| - 1];
      assert s == f + [s[|s| - 1]];
      InsertKeeps(s[|s| - 1], SortAsc(f));
      InsertSorted(s[|s| - 1], SortAsc(f));
      Insert(s[|s| - 1], SortAsc(f))
  }

  /** The names in a priority map. */
  function Names(s: seq<Entry>): set<string> {
    set e | e in s :: e.name
  }

  /** `reversed(sorted(...))`: the order in which a type's callbacks run. */
  function Order(s: seq<Entry>): seq<Entry> {
    Reversed(SortAsc(s))
  }

  /** Callbacks run in descending priority, and each registered entry runs
      exactly once. */
  lemma OrderMeaning(s: seq<Entry>)
    ensures Descending(Order(s))
    ensures multiset(Order(s)) == multiset(s)
    ensures Names(Order(s)) == Names(s)
  {
    ReversedKeeps(SortAsc(s));
    assert forall e :: e in Order(s) <==> e in multiset(Order(s));
  }

  // ----- the operations as values -----

  /** `listen(name, kind, callback, priority)`: a name already registered
      raises `ValueError`. Otherwise the name is registered, and it enters
      the priority map of `kind` only when `kind` has no map yet. */
  function ListenStep(c: Config, name: string, kind: int, callback: nat, priority: int): Step {
    if name in c.unique then Step(Raised(ValueError), c)
    else
      var events := if kind !in c.events then c.events[kind := [Entry(name, priority)]] else c.events;
      Step(Done, c.(events := events, unique := c.unique[name := Registration(callback, None)]))
  }

  /** `listen` as its documentation promises ("adds a callback to be
      executed at every call"): the name joins the priority map of `kind`,
      which is created when missing, after the names already there. */
  function ListenIntended(c: Config, name: string, kind: int, callback: nat, priority: int): Step {
    if name in c.unique then Step(Raised(ValueError), c)
    else
      var before := if kind in c.events then c.events[kind] else [];
      Step(Done, c.(events := c.events[kind := before + [Entry(name, priority)]],
                    unique := c.unique[name := Registration(callback, None)]))
  }

  /** A priority map without `name`. */
  function Drop(s: seq<Entry>, name: string): (r: seq<Entry>)
    ensures forall e :: e in r <==> e in s && e.name != name
    ensures |r| <= |s|
  {
    if s == [] then []
    else (if s[0].name == name then [] else [s[0]]) + Drop(s[1..], name)
  }

  /** `forget(name)`: the name leaves every priority map and the registry;
      an unknown name changes nothing. Maps left empty stay in place. */
  function ForgetStep(c: Config, name: string): Config {
    c.(events := map k | k in c.events :: Drop(c.events[k], name), unique := c.unique - {name})
  }

  /** The callback registered under the entry's name receives the event. */
  function Deliver(c: Config, e: Entry, ev: Event): Config {
    if e.name !in c.unique then c
    else
      var r := c.unique[e.name];
      c.(unique := c.unique[e.name := r.(lastEvent := Some(ev))],
         log := c.log + [Delivery(e.name, r.callback, ev)])
  }

  /** The event handed to each entry of `s` in turn. */
  function DeliverAll(c: Config, s: seq<Entry>, ev: Event): Config {
    if s == [] then c else Deliver(DeliverAll(c, s[..|s| - 1], ev), s[|s| - 1], ev)
  }

  /** One incoming event: ignored unless its type has a priority map, else
      handed to that map's entries in dispatch order. */
  function Handle(c: Config, ev: Event): Config {
    if ev.kind in c.events then DeliverAll(c, Order(c.events[ev.kind]), ev) else c
  }

  /** `handler()` on a batch of incoming events, in order. */
  function HandleAll(c: Config, evs: seq<Event>): Config {
    if evs == [] then c else Handle(HandleAll(c, evs[..|evs| - 1]), evs[|evs| - 1])
  }

  // ----- what the handler keeps true -----

  /** No name occurs twice in a priority map. */
  predicate DistinctNames(s: seq<Entry>) {
    forall i, j | 0 <= i < j < |s| :: s[i].name != s[j].name
  }

  /** Every name in a priority map is registered. */
  predicate Registered(c: Config) {
    forall k | k in c.events :: forall e | e in c.events[k] :: e.name in c.unique
  }

  /** Every name in a priority map is registered, and no map holds a name
      twice. */
  predicate Consistent(c: Config) {
    Registered(c) && forall k | k in c.events :: DistinctNames(c.events[k])
  }

  lemma ListenKeeps(c: Config, name: string, kind: int, callback: nat, priority: int)
    requires Consistent(c)
    ensures Consistent(ListenStep(c, name, kind, callback, priority).next)
  {
  }

  /** The corrected `listen` keeps the handler consistent: a new name is in
      no map yet, so appending it keeps the names of its map distinct. */
  lemma ListenIntendedKeeps(c: Config, name: string, kind: int, callback: nat, priority: int)
    requires Consistent(c)
    ensures Consistent(ListenIntended(c, name, kind, callback, priority).next)
  {
    if name !in c.unique && kind in c.events {
      var s := c.events[kind];
      var t := s + [Entry(name, priority)];
      forall i, j | 0 <= i < j < |t|
        ensures t[i].name != t[j].name
      {
        if j == |s| {
          assert t[i] in s;
        }
      }
    }
  }

  lemma ForgetKeeps(c: Config, name: string)
    requires Consistent(c)
    ensures Consistent(ForgetStep(c, name))
  {
    forall k | k in c.events
      ensures DistinctNames(Drop(c.events[k], name))
    {
      DropDistinct(c.events[k], name);
    }
  }

  /** Dropping a name keeps the remaining names distinct. */
  lemma {:induction false} DropDistinct(s: seq<Entry>, name: string)
    requires DistinctNames(s)
    ensures DistinctNames(Drop(s, name))
  {
    if s != [] {
      var t := Drop(s[1..], name);
      DropDistinct(s[1..], name);
      if s[0].name != name {
        var r := [s[0]] + t;
        forall i, j | 0 <= i < j < |r|
          ensures r[i].name != r[j].name
        {
          if i == 0 {
            var m :| 0 <= m < |s[1..]| && s[1..][m] == r[j];
            assert s[1 + m] == r[j];
          }
        }
      }
    }
  }

  /** Delivering events changes neither the maps nor which names are
      registered, so it keeps the handler consistent. */
  lemma {:induction false} DeliverAllKeeps(c: Config, s: seq<Entry>, ev: Event)
    ensures DeliverAll(c, s, ev).events == c.events
    ensures DeliverAll(c, s, ev).unique.Keys == c.unique.Keys
    ensures Consistent(c) ==> Consistent(DeliverAll(c, s, ev))
  {
    if s != [] {
      DeliverAllKeeps(c, s[..|s| - 1], ev);
    }
  }

  lemma {:induction false} HandleAllKeeps(c: Config, evs: seq<Event>)
    ensures HandleAll(c, evs).events == c.events
    ensures HandleAll(c, evs).unique.Keys == c.unique.Keys
    ensures Consistent(c) ==> Consistent(HandleAll(c, evs))
  {
    if evs != [] {
      var c1 := HandleAll(c, evs[..|evs| - 1]);
      HandleAllKeeps(c, evs[..|evs| - 1]);
      var ev := evs[|evs| - 1];
      if ev.kind in c1.events {
        DeliverAllKeeps(c1, Order(c1.events[ev.kind]), ev);
      }
    }
  }

  // ----- what the operations promise -----

  /** A name can be registered only once. */
  lemma ListenDuplicate(c: Config, name: string, kind: int, callback: nat, priority: int)
    requires name in c.unique
    ensures ListenStep(c, name, kind, callback, priority) == Step(Raised(ValueError), c)
  {
  }

  /** Events handed to registered entries reach their callbacks in the
      given order: the log grows by one delivery per
      entry, each with that name's callback. */
  lemma {:induction false} DeliverAllLog(c: Config, s: seq<Entry>, ev: Event)
    requires forall e | e in s :: e.name in c.unique
    ensures DeliverAll(c, s, ev).log ==
      c.log + seq(|s|, i requires 0 <= i < |s| => Delivery(s[i].name, c.unique[s[i].name].callback, ev))
  {
    if s != [] {
      var f := s[..|s| - 1];
      assert forall e | e in f :: e in s;
      DeliverAllLog(c, f, ev);
      DeliverAllKeeps(c, f, ev);
      DeliverAllMarks(c, f, ev);
    }
  }

  /** Every callback handed the event has it as its `event` keyword
      afterwards; callbacks stay as registered, and names not handed the
      event keep their registration unchanged. */
  lemma {:induction false} DeliverAllMarks(c: Config, s: seq<Entry>, ev: Event)
    ensures forall n | n in c.unique ::
      n in DeliverAll(c, s, ev).unique &&
      DeliverAll(c, s, ev).unique[n] == if n in Names(s) then c.unique[n].(lastEvent := Some(ev)) else c.unique[n]
  {
    if s != [] {
      var f := s[..|s| - 1];
      DeliverAllMarks(c, f, ev);
      DeliverAllKeeps(c, f, ev);
      assert Names(s) == Names(f) + {s[|s| - 1].name};
    }
  }

  /** Handling one event in a consistent handler: an event of a type with
      no priority map changes nothing; otherwise the type's callbacks run
      in descending priority, each registered entry exactly once, and each
      receives the event as its `event` keyword. */
  lemma HandleMeaning(c: Config, ev: Event)
    requires Registered(c)
    ensures ev.kind !in c.events ==> Handle(c, ev) == c
    ensures ev.kind in c.events ==>
      var s := Order(c.events[ev.kind]);
      Descending(s) && multiset(s) == multiset(c.events[ev.kind]) &&
      (forall e | e in s :: e.name in c.unique) &&
      Handle(c, ev).log == c.log + seq(|s|, i requires 0 <= i < |s| => Delivery(s[i].name, c.unique[s[i].name].callback, ev)) &&
      forall e | e in c.events[ev.kind] :: e.name in Handle(c, ev).unique && Handle(c, ev).unique[e.name].lastEvent == Some(ev)
  {
    if ev.kind in c.events {
      var s := Order(c.events[ev.kind]);
      OrderMeaning(c.events[ev.kind]);
      assert forall e | e in s :: e in multiset(c.events[ev.kind]);
      DeliverAllLog(c, s, ev);
      DeliverAllMarks(c, s, ev);
    }
  }

  /** The delivery names an entry of its event type's priority map. */
  predicate Mapped(c: Config, d: Delivery) {
    d.event.kind in c.events && d.name in Names(c.events[d.event.kind])
  }

  /** Only names in the event type's priority map are ever called: every
      delivery made while handling a batch names an entry of its event's
      type. */
  lemma {:induction false} OnlyMappedNamesCalled(c: Config, evs: seq<Event>)
    ensures |HandleAll(c, evs).log| >= |c.log|
    ensures HandleAll(c, evs).log[..|c.log|] == c.log
    ensures forall i | |c.log| <= i < |HandleAll(c, evs).log| :: Mapped(c, HandleAll(c, evs).log[i])
  {
    if evs != [] {
      var c1 := HandleAll(c, evs[..|evs| - 1]);
      OnlyMappedNamesCalled(c, evs[..|evs| - 1]);
      HandleAllKeeps(c, evs[..|evs| - 1]);
      HandleMapped(c, c1, evs[|evs| - 1]);
    }
  }

  /** Handling one event only calls names mapped for its type. */
  lemma HandleMapped(c: Config, c1: Config, ev: Event)
    requires c1.events == c.events
    ensures |Handle(c1, ev).log| >= |c1.log|
    ensures Handle(c1, ev).log[..|c1.log|] == c1.log
    ensures forall i | |c1.log| <= i < |Handle(c1, ev).log| :: Mapped(c, Handle(c1, ev).log[i])
  {
    if ev.kind in c1.events {
      var s := c1.events[ev.kind];
      OrderMeaning(s);
      DeliveriesNamed(c1, Order(s), ev);
    }
  }

  /** Each delivery of one event names an entry it was handed to. */
  lemma {:induction false} DeliveriesNamed(c: Config, s: seq<Entry>, ev: Event)
    ensures |DeliverAll(c, s, ev).log| >= |c.log|
    ensures DeliverAll(c, s, ev).log[..|c.log|] == c.log
    ensures forall i | |c.log| <= i < |DeliverAll(c, s, ev).log| ::
      DeliverAll(c, s, ev).log[i].event == ev && DeliverAll(c, s, ev).log[i].name in Names(s)
  {
    if s != [] {
      var f := s[..|s| - 1];
      DeliveriesNamed(c, f, ev);
      assert Names(f) <= Names(s);
      assert s[|s| - 1] in s;
    }
  }

  /** A second name registered for an event type that already has a map is
      stored but never called, however many events arrive. */
  lemma LateListenerIgnored(c: Config, name: string, kind: int, callback: nat, priority: int, evs: seq<Event>)
    requires Consistent(c) && name !in c.unique && kind in c.events
    ensures ListenStep(c, name, kind, callback, priority).status == Done
    ensures name in ListenStep(c, name, kind, callback, priority).next.unique
    ensures var c1 := ListenStep(c, name, kind, callback, priority).next;
      forall i | |c1.log| <= i < |HandleAll(c1, evs).log| :: HandleAll(c1, evs).log[i].name != name
  {
    var c1 := ListenStep(c, name, kind, callback, priority).next;
    OnlyMappedNamesCalled(c1, evs);
  }

  /** After the corrected `listen`, the next event of that type calls the
      new callback once with that event, whatever was registered for the
      type before, and every callback registered before is still called. */
  lemma ListenIntendedCalled(c: Config, name: string, kind: int, callback: nat, priority: int, payload: nat)
    requires Consistent(c) && name !in c.unique
    ensures ListenIntended(c, name, kind, callback, priority).status == Done
    ensures var c1 := ListenIntended(c, name, kind, callback, priority).next;
      var log := Handle(c1, Event(kind, payload)).log;
      |log| >= |c1.log| &&
      multiset(log[|c1.log|..])[Delivery(name, callback, Event(kind, payload))] == 1 &&
      forall e | kind in c.events && e in c.events[kind] ::
        Delivery(e.name, c.unique[e.name].callback, Event(kind, payload)) in log[|c1.log|..]
  {
    var c1 := ListenIntended(c, name, kind, callback, priority).next;
    var ev := Event(kind, payload);
    ListenIntendedKeeps(c, name, kind, callback, priority);
    var m := c1.events[kind];
    assert m[|m| - 1] == Entry(name, priority);
    HandleCallsEach(c1, ev);
    var log := Handle(c1, ev).log;
    forall e | kind in c.events && e in c.events[kind]
      ensures Delivery(e.name, c.unique[e.name].callback, ev) in log[|c1.log|..]
    {
      assert e in m;
      assert c1.unique[e.name] == c.unique[e.name];
    }
  }

  /** Each event of a type with a priority map calls every callback in
      that map exactly once. */
  lemma HandleCallsEach(c: Config, ev: Event)
    requires Consistent(c) && ev.kind in c.events
    ensures |Handle(c, ev).log| >= |c.log|
    ensures forall e | e in c.events[ev.kind] ::
      e.name in c.unique &&
      multiset(Handle(c, ev).log[|c.log|..])[Delivery(e.name, c.unique[e.name].callback, ev)] == 1
  {
    var m := c.events[ev.kind];
    var s := Order(m);
    HandleMeaning(c, ev);
    OrderDistinct(m);
    var d := Handle(c, ev).log[|c.log|..];
    assert |d| == |s| && forall i | 0 <= i < |s| :: d[i] == Delivery(s[i].name, c.unique[s[i].name].callback, ev);
    forall e | e in m
      ensures multiset(d)[Delivery(e.name, c.unique[e.name].callback, ev)] == 1
    {
      assert e in multiset(s);
      var k :| 0 <= k < |s| && s[k] == e;
      DeliveryOnce(d, s, k);
    }
  }

  /** Dispatch order keeps the names of a map distinct. */
  lemma OrderDistinct(s: seq<Entry>)
    requires DistinctNames(s)
    ensures DistinctNames(Order(s))
  {
    OrderMeaning(s);
    PermutationDistinct(Order(s), s);
  }

  /** A permutation of a map with distinct names has distinct names. */
  lemma PermutationDistinct(r: seq<Entry>, s: seq<Entry>)
    requires multiset(r) == multiset(s) && DistinctNames(s)
    ensures DistinctNames(r)
  {
    forall i, j | 0 <= i < j < |r|
      ensures r[i].name != r[j].name
    {
      assert r[i] in multiset(s) && r[j] in multiset(s);
      var a :| 0 <= a < |s| && s[a] == r[i];
      var b :| 0 <= b < |s| && s[b] == r[j];
      if r[i] == r[j] {
        MultisetTwoPositions(r, s, i, j);
        EntryOnce(s, a);
      }
    }
  }

  /** Two positions of a permutation that hold the same entry are matched
      by two positions of the original. */
  lemma MultisetTwoPositions(r: seq<Entry>, s: seq<Entry>, i: int, j: int)
    requires multiset(r) == multiset(s) && 0 <= i < j < |r| && r[i] == r[j]
    ensures multiset(s)[r[i]] >= 2
  {
    var x := r[i];
    assert r == r[..j] + r[j..];
    assert x in r[..j];
    assert x in r[j..];
    assert multiset(r)[x] == multiset(r[..j])[x] + multiset(r[j..])[x];
  }

  /** With distinct names, the entry at position `k` occurs once. */
  lemma EntryOnce(s: seq<Entry>, k: int)
    requires DistinctNames(s) && 0 <= k < |s|
    ensures multiset(s)[s[k]] == 1
  {
    var x := s[k];
    assert s == s[..k] + [x] + s[k + 1..];
    forall i | 0 <= i < |s| && i != k
      ensures s[i] != x
    {
    }
    assert x !in s[..k];
    assert x !in s[k + 1..];
  }

  /** With distinct names, the delivery at position `k` occurs once. */
  lemma DeliveryOnce(d: seq<Delivery>, s: seq<Entry>, k: int)
    requires DistinctNames(s) && 0 <= k < |s| && |d| == |s|
    requires forall i | 0 <= i < |s| :: d[i].name == s[i].name
    ensures multiset(d)[d[k]] == 1
  {
    var x := d[k];
    assert d == d[..k] + [x] + d[k + 1..];
    forall i | 0 <= i < |d| && i != k
      ensures d[i] != x
    {
      assert d[i].name == s[i].name != s[k].name;
    }
    assert x !in d[..k];
    assert x !in d[k + 1..];
  }

  /** A forgotten name is never called again. */
  lemma ForgottenSilent(c: Config, name: string, evs: seq<Event>)
    ensures var c1 := ForgetStep(c, name);
      name !in c1.unique &&
      forall i | |c1.log| <= i < |HandleAll(c1, evs).log| :: HandleAll(c1, evs).log[i].name != name
  {
    OnlyMappedNamesCalled(ForgetStep(c, name), evs);
  }

  /** The maps of `forget` are those of `c` with the name dropped from
      each. */
  lemma ForgetEvents(c: Config, name: string, m: map<int, seq<Entry>>)
    requires m.Keys == c.events.Keys
    requires forall k | k in m :: m[k] == Drop(c.events[k], name)
    ensures m == ForgetStep(c, name).events
  {
    var target := ForgetStep(c, name).events;
    assert m.Keys == target.Keys;
    assert forall k | k in m :: m[k] == target[k];
  }

  /** Some element of a non-empty set of event types. */
  method Pick(s: set<int>) returns (k: int)
    requires s != {}
    ensures k in s
  {
    if forall x :: x !in s {
      assert false;
    }
    k :| k in s;
  }

  /** The event handler object. */
  class Handler {
    var events: map<int, seq<Entry>>
    var unique: map<string, Registration>
    /** The callback calls made so far, oldest first. */
    var log: seq<Delivery>

    function State(): Config
      reads this
    {
      Config(events, unique, log)
    }

    ghost predicate Valid()
      reads this
    {
      Consistent(State())
    }

    constructor ()
      ensures State() == Config(map[], map[], [])
      ensures Valid()
    {
      events := map[];
      unique := map[];
      log := [];
    }

    /** `listen(name, kind, callback, priority)`, with the new name joining
        the priority map of its type as documented (see `ListenIntended`;
        the code as written is `ListenStep`). */
    method Listen(name: string, kind: int, callback: nat, priority: int) returns (st: Status)
      requires Valid()
      modifies this
      ensures st == ListenIntended(old(State()), name, kind, callback, priority).status
      ensures State() == ListenIntended(old(State()), name, kind, callback, priority).next
      ensures Valid()
    {
      ListenIntendedKeeps(State(), name, kind, callback, priority);
      if name in unique {
        return Raised(ValueError);
      }
      if kind !in events {
        assert [] + [Entry(name, priority)] == [Entry(name, priority)];
        events := events[kind := [Entry(name, priority)]];
      } else {
        events := events[kind := events[kind] + [Entry(name, priority)]];
      }
      unique := unique[name := Registration(callback, None)];
      st := Done;
    }

    /** `forget(name)` */
    method Forget(name: string)
      requires Valid()
      modifies this
      ensures State() == ForgetStep(old(State()), name)
      ensures Valid()
    {
      var pending := events.Keys;
      while pending != {}
        invariant events.Keys == old(events.Keys)
        invariant pending <= events.Keys
        invariant forall k | k in events :: events[k] == if k in pending then old(events[k]) else Drop(old(events[k]), name)
        invariant unique == old(unique) && log == old(log)
        decreases pending
      {
        var k := Pick(pending);
        events := events[k := Drop(events[k], name)];
        pending := pending - {k};
      }
      if name in unique {
        unique := unique - {name};
      }
      assert unique == old(unique) - {name};
      ForgetEvents(old(State()), name, events);
      ForgetKeeps(old(State()), name);
    }

    /** The inner loop of `handler()`: the event handed to the entries of
        `order` one after another. */
    method DeliverEach(order: seq<Entry>, ev: Event)
      requires forall e | e in order :: e.name in unique
      modifies this
      ensures State() == DeliverAll(old(State()), order, ev)
    {
      ghost var c0 := State();
      for j := 0 to |order|
        invariant State() == DeliverAll(c0, order[..j], ev)
      {
        assert order[..j + 1][..j] == order[..j];
        DeliverAllKeeps(c0, order[..j], ev);
        var n := order[j].name;
        assert order[j] in order;
        var r := unique[n];
        unique := unique[n := r.(lastEvent := Some(ev))];
        log := log + [Delivery(n, r.callback, ev)];
      }
      assert order[..|order|] == order;
    }

    /** `handler()` with the incoming events `evs`. */
    method Dispatch(evs: seq<Event>)
      requires Valid()
      modifies this
      ensures State() == HandleAll(old(State()), evs)
      ensures Valid()
    {
      HandleAllKeeps(State(), evs);
      for i := 0 to |evs|
        invariant State() == HandleAll(old(State()), evs[..i])
      {
        assert evs[..i + 1][..i] == evs[..i];
        HandleAllKeeps(old(State()), evs[..i]);
        var ev := evs[i];
        if ev.kind in events {
          var order := Order(events[ev.kind]);
          OrderMeaning(events[ev.kind]);
          assert forall e | e in order :: e in multiset(events[ev.kind]);
          DeliverEach(order, ev);
        }
      }
      assert evs[..|evs|] == evs;
    }
  }
}

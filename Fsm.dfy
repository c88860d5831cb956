/** The engine's finite state machine (pyos/engine/fsm.py). States are objects
    with `enter` and `exit` hooks, registered under their lower-cased class
    name; a request leaves the active state and enters the named one. The hooks
    themselves are foreign code, so the machine records the calls it makes to
    them, in order. */
module Fsm {
  import opened Outcomes

  /** What the object offers under the name `enter` or `exit`. */
  datatype Attr = Missing | NotCallable | Method

  /** An object handed to `add_state`: the name of its class and its hooks. */
  datatype StateObject = StateObject(className: string, enter: Attr, exit: Attr)

  /** A call of a registered state's hook. */
  datatype Call = Enter(state: string) | Exit(state: string)

  /** The machine as a value: the registered states, the active state's name
      and the hook calls made so far. */
  datatype Config = Config(states: map<string, StateObject>, active: Option<string>, calls: seq<Call>)

  /** The outcome of one operation and the machine it leaves behind. */
  datatype Step = Step(status: Status, next: Config)

  predicate IsUpper(c: char) { 'A' <= c <= 'Z' }

  /** `c.lower()` for the ASCII letters. */
  function LowerChar(c: char): (r: char)
    ensures !IsUpper(r)
    ensures !IsUpper(c) ==> r == c
    ensures IsUpper(c) ==> r as int == c as int + 32
  {
    if IsUpper(c) then (c as int + 32) as char else c
  }

  /** `s.lower()`: every upper-case ASCII letter replaced by its lower-case
      form, nothing else changed. */
  function Lower(s: string): (r: string)
    ensures |r| == |s|
  {
    if s == [] then [] else [LowerChar(s[0])] + Lower(s[1..])
  }

  lemma {:induction false} LowerAt(s: string, i: int)
    requires 0 <= i < |s|
    ensures Lower(s)[i] == LowerChar(s[i])
  {
    if i > 0 {
      LowerAt(s[1..], i - 1);
    }
  }

  /** A string is its own lower-case form exactly when it has no upper-case
      letter. */
  lemma {:induction false} LowerFixed(s: string)
    ensures Lower(s) == s <==> forall i :: 0 <= i < |s| ==> !IsUpper(s[i])
  {
    if s != [] {
      LowerFixed(s[1..]);
      if Lower(s) == s {
        forall i | 0 <= i < |s|
          ensures !IsUpper(s[i])
        {
          LowerAt(s, i);
        }
      }
    }
  }

  /** Lower-casing twice is lower-casing once. */
  lemma {:induction false} LowerIdempotent(s: string)
    ensures Lower(Lower(s)) == Lower(s)
  {
    var r := Lower(s);
    forall i | 0 <= i < |r|
      ensures !IsUpper(r[i])
    {
      LowerAt(s, i);
    }
    LowerFixed(r);
  }

  /** A state object the machine accepts: both hooks exist and are callable. */
  predicate HasHooks(obj: StateObject) {
    obj.enter == Method && obj.exit == Method
  }

  /** What the machine keeps true: every key is a lower-cased class name, and
      the active state, if any, is registered. */
  predicate Consistent(c: Config) {
    (forall k | k in c.states :: Lower(k) == k) &&
    (c.active.Some? ==> c.active.value in c.states)
  }

  /** `add_state(obj)`: an object without callable hooks raises `ValueError`;
      otherwise it is stored under its lower-cased class name, replacing any
      state registered there. */
  function AddStateStep(c: Config, obj: StateObject): Step {
    if !HasHooks(obj) then Step(Raised(ValueError), c)
    else Step(Done, c.(states := c.states[Lower(obj.className) := obj]))
  }

  /** `request(name)`. A name unknown even after lower-casing raises
      `ValueError` with nothing changed. Otherwise the active state, if any, is
      exited first; the state is then looked up under `name` as given, which
      raises `KeyError` when `name` is not already lower-case, and on success
      it is entered and becomes the active state. */
  function RequestStep(c: Config, name: string): Step {
    if Lower(name) !in c.states then Step(Raised(ValueError), c)
    else if c.active.Some? && c.active.value !in c.states then Step(Raised(KeyError), c)
    else
      var c1 := if c.active.Some? then c.(calls := c.calls + [Exit(c.active.value)]) else c;
      if name !in c1.states then Step(Raised(KeyError), c1)
      else Step(Done, c1.(calls := c1.calls + [Enter(name)], active := Some(name)))
  }

  /** Registering a state keeps the machine consistent. */
  lemma AddStateKeeps(c: Config, obj: StateObject)
    requires Consistent(c)
    ensures Consistent(AddStateStep(c, obj).next)
  {
    LowerIdempotent(obj.className);
  }

  /** Adding an object fails exactly when a hook is missing or not callable,
      and then changes nothing. */
  lemma AddStateChecksHooks(c: Config, obj: StateObject)
    ensures AddStateStep(c, obj).status == Done <==> HasHooks(obj)
    ensures AddStateStep(c, obj).status != Done ==>
      AddStateStep(c, obj).status == Raised(ValueError) && AddStateStep(c, obj).next == c
  {
  }

  /** Re-adding an object of the same class (up to case) overwrites: the
      second registration is as if the first had not happened. */
  lemma AddStateOverwrites(c: Config, a: StateObject, b: StateObject)
    requires HasHooks(a) && HasHooks(b)
    requires Lower(a.className) == Lower(b.className)
    ensures AddStateStep(AddStateStep(c, a).next, b) == AddStateStep(c, b)
  {
  }

  /** A request keeps the machine consistent, whether it succeeds or not. */
  lemma RequestKeeps(c: Config, name: string)
    requires Consistent(c)
    ensures Consistent(RequestStep(c, name).next)
  {
  }

  /** In a consistent machine a request succeeds exactly when `name` is a
      registered key as given; it then exits the previously active state (if
      any), enters `name` and makes it active, in that order. */
  lemma RequestSucceeds(c: Config, name: string)
    requires Consistent(c)
    ensures RequestStep(c, name).status == Done <==> name in c.states
    ensures name in c.states ==>
      RequestStep(c, name).next ==
        c.(calls := c.calls + (if c.active.Some? then [Exit(c.active.value)] else []) + [Enter(name)],
           active := Some(name))
  {
    if name in c.states {
      assert Lower(name) == name;
    }
  }

  /** A name that is unknown after lower-casing raises `ValueError` before
      any hook runs. */
  lemma RequestUnknown(c: Config, name: string)
    requires Lower(name) !in c.states
    ensures RequestStep(c, name) == Step(Raised(ValueError), c)
  {
  }

  /** A registered name written with an upper-case letter passes the
      lower-cased check but fails the lookup: the active state has already
      been exited when `KeyError` is raised, and it stays the active state. */
  lemma RequestMixedCase(c: Config, name: string)
    requires Consistent(c)
    requires Lower(name) in c.states
    requires exists i :: 0 <= i < |name| && IsUpper(name[i])
    ensures RequestStep(c, name).status == Raised(KeyError)
    ensures RequestStep(c, name).next.active == c.active
    ensures RequestStep(c, name).next.calls ==
      c.calls + (if c.active.Some? then [Exit(c.active.value)] else [])
  {
    LowerFixed(name);
  }

  /** The state machine object. */
  class Machine {
    var states: map<string, StateObject>
    var active: Option<string>
    /** The hook calls made so far, oldest first. */
    var calls: seq<Call>

    function State(): Config
      reads this
    {
      Config(states, active, calls)
    }

    ghost predicate Valid()
      reads this
    {
      Consistent(State())
    }

    /** A machine with no states and none active. */
    constructor ()
      ensures State() == Config(map[], None, [])
      ensures Valid()
    {
      states := map[];
      active := None;
      calls := [];
    }

    /** `add_state(obj)` */
    method AddState(obj: StateObject) returns (st: Status)
      requires Valid()
      modifies this
      ensures st == AddStateStep(old(State()), obj).status
      ensures State() == AddStateStep(old(State()), obj).next
      ensures Valid()
    {
      AddStateKeeps(State(), obj);
      if obj.enter != Method || obj.exit != Method {
        return Raised(ValueError);
      }
      var k := Lower(obj.className);
      states := states[k := obj];
      st := Done;
    }

    /** `request(name)` */
    method Request(name: string) returns (st: Status)
      requires Valid()
      modifies this
      ensures st == RequestStep(old(State()), name).status
      ensures State() == RequestStep(old(State()), name).next
      ensures Valid()
    {
      RequestKeeps(State(), name);
      var sn := Lower(name);
      if sn !in states {
        return Raised(ValueError);
      }
      if active.Some? {
        calls := calls + [Exit(active.value)];
      }
      if name !in states {
        return Raised(KeyError);
      }
      calls := calls + [Enter(name)];
      active := Some(name);
      st := Done;
    }
  }
}

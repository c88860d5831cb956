/** The engine's task manager (pyos/engine/taskmanager.py). A task wraps a
    callback with a delay and the time of its last run; the manager keeps
    tasks by name and, on every tick, calls each of them with the same clock
    reading. The clock is a parameter here, and since callbacks are foreign
    code a task records the clock readings at which it ran its callback. */
module TaskManager {
  import opened Outcomes
  import opened Py

  /** A task's state as a value: its delay, the clock reading of its last
      run, whether it is enabled, and the clock readings at which it ran its
      callback, oldest first. */
  datatype Timer = Timer(delay: real, lastExec: real, active: bool, fires: seq<real>)

  /** The checks of the `Task` constructor: the name must be a string, the
      callback callable, and the delay an `int` or `float` that is not
      negative; each failure raises `ValueError`. */
  function TaskCheck(name: Value, callable: bool, delay: Value): (st: Status)
    ensures st == Done <==> name.Str? && callable && IsNumber(delay) && Num(delay) >= 0.0
    ensures st != Done ==> st == Raised(ValueError)
  {
    if !name.Str? then Raised(ValueError)
    else if !callable then Raised(ValueError)
    else if !IsNumber(delay) || Num(delay) < 0.0 then Raised(ValueError)
    else Done
  }

  /** One call `task(clk)` as written: a disabled task does nothing; an
      enabled one runs when `last_exec + delay >= clk` and then records `clk`
      as its last run. */
  function Fire(t: Timer, clk: real): Timer {
    if !t.active then t
    else if t.lastExec + t.delay >= clk then t.(lastExec := clk, fires := t.fires + [clk])
    else t
  }

  /** One call as the documented meaning of `delay` ("number of seconds
      between execution") requires: run once `delay` has passed since the last
      run. */
  function FireIntended(t: Timer, clk: real): Timer {
    if !t.active then t
    else if clk >= t.lastExec + t.delay then t.(lastExec := clk, fires := t.fires + [clk])
    else t
  }

  /** A task called once per clock reading, in order, as written. */
  function Run(t: Timer, clks: seq<real>): Timer
    decreases |clks|
  {
    if clks == [] then t else Run(Fire(t, clks[0]), clks[1..])
  }

  /** A task called once per clock reading, in order, as intended. */
  function RunIntended(t: Timer, clks: seq<real>): Timer
    decreases |clks|
  {
    if clks == [] then t else RunIntended(FireIntended(t, clks[0]), clks[1..])
  }

  /** A disabled task ignores every call. */
  lemma {:induction false} DisabledIgnores(t: Timer, clks: seq<real>)
    requires !t.active
    ensures Run(t, clks) == t
    ensures RunIntended(t, clks) == t
    decreases |clks|
  {
    if clks != [] {
      DisabledIgnores(t, clks[1..]);
    }
  }

  /** As written, an enabled task runs on a call that comes sooner than
      `delay` after its last run. */
  lemma FiresEarly(t: Timer, clk: real)
    requires t.active && t.lastExec <= clk < t.lastExec + t.delay
    ensures Fire(t, clk).fires == t.fires + [clk]
    ensures FireIntended(t, clk) == t
  {
  }

  /** As written, a task whose calls all come later than `delay` after its
      last run never runs again: once the clock has passed that point, the
      task is stuck for good. */
  lemma {:induction false} StallsForever(t: Timer, clks: seq<real>)
    requires forall i :: 0 <= i < |clks| ==> clks[i] > t.lastExec + t.delay
    ensures Run(t, clks) == t
    decreases |clks|
  {
    if clks != [] {
      assert Fire(t, clks[0]) == t;
      StallsForever(t, clks[1..]);
    }
  }

  /** A concrete run: a task with delay 1 last run at 0, called at 0.5, 2 and
      3, runs only at 0.5 as written, but at 2 and 3 as intended. */
  lemma StallExample()
    ensures Run(Timer(1.0, 0.0, true, []), [0.5, 2.0, 3.0]).fires == [0.5]
    ensures RunIntended(Timer(1.0, 0.0, true, []), [0.5, 2.0, 3.0]).fires == [2.0, 3.0]
  {
    var t := Timer(1.0, 0.0, true, []);
    var clks := [0.5, 2.0, 3.0];
    assert clks[1..] == [2.0, 3.0];
    assert clks[1..][1..] == [3.0];
    assert Run(t, clks) == Run(Fire(t, 0.5), [2.0, 3.0]);
    assert RunIntended(t, clks) == RunIntended(t, [2.0, 3.0]);
  }

  /** The runs recorded in `fires` are `delay` apart, the first one `delay`
      after `start`, and the last one is `lastExec`. */
  predicate Paced(t: Timer, start: real) {
    (forall i :: 0 < i < |t.fires| ==> t.fires[i] - t.fires[i - 1] >= t.delay) &&
    (|t.fires| > 0 ==> t.fires[0] >= start + t.delay && t.fires[|t.fires| - 1] == t.lastExec) &&
    (|t.fires| == 0 ==> t.lastExec == start)
  }

  /** As intended, runs are never closer than `delay` to each other, nor to
      the start, over every sequence of calls. */
  lemma {:induction false} IntendedPaced(t: Timer, start: real, clks: seq<real>)
    requires Paced(t, start)
    ensures Paced(RunIntended(t, clks), start)
    ensures RunIntended(t, clks).delay == t.delay
    decreases |clks|
  {
    if clks != [] {
      var t1 := FireIntended(t, clks[0]);
      assert Paced(t1, start);
      IntendedPaced(t1, start, clks[1..]);
    }
  }

  /** As intended, a task that is due on a call runs on it. */
  lemma IntendedRunsWhenDue(t: Timer, clk: real)
    requires t.active && clk >= t.lastExec + t.delay
    ensures FireIntended(t, clk).fires == t.fires + [clk]
    ensures FireIntended(t, clk).lastExec == clk
  {
  }

  /** A task (`Task`). */
  class Task {
    const name: string
    var delay: real
    var lastExec: real
    var active: bool
    /** The clock readings at which the callback ran, oldest first. */
    var fires: seq<real>

    function State(): Timer
      reads this
    {
      Timer(delay, lastExec, active, fires)
    }

    /** An enabled task created at clock reading `now`. */
    constructor (name: string, delay: real, now: real)
      requires delay >= 0.0
      ensures this.name == name
      ensures State() == Timer(delay, now, true, [])
    {
      this.name := name;
      this.delay := delay;
      lastExec := now;
      active := true;
      fires := [];
    }

    /** `Task(name, callback, delay, ...)` with its argument checks; `now` is
        the clock reading at creation. */
    static method Create(name: Value, callable: bool, delay: Value, now: real) returns (r: Result<Task>)
      ensures r.Err? <==> TaskCheck(name, callable, delay) != Done
      ensures r.Err? ==> r.error == ValueError
      ensures r.Ok? ==> fresh(r.value) && r.value.name == name.s
      ensures r.Ok? ==> r.value.State() == Timer(Num(delay), now, true, [])
    {
      if !name.Str? || !callable || !IsNumber(delay) || Num(delay) < 0.0 {
        return Err(ValueError);
      }
      var t := new Task(name.s, Num(delay), now);
      r := Ok(t);
    }

    /** The `delay` setter: numbers are taken as they are, negative ones
        included; anything else is ignored. */
    method SetDelay(v: Value)
      modifies this
      ensures IsNumber(v) ==> State() == old(State()).(delay := Num(v))
      ensures !IsNumber(v) ==> State() == old(State())
    {
      if IsNumber(v) {
        delay := Num(v);
      }
    }

    /** `disable()` */
    method Disable()
      modifies this
      ensures State() == old(State()).(active := false)
    {
      active := false;
    }

    /** `task(clk)` with the comparison turned the way `delay` is
        documented: the callback runs once `delay` has passed since the last
        run. `Fire` keeps the comparison as written. */
    method Call(clk: real)
      modifies this
      ensures State() == FireIntended(old(State()), clk)
    {
      if !active {
        return;
      }
      if clk >= lastExec + delay {
        lastExec := clk;
        fires := fires + [clk];
      }
    }
  }

  /** The manager (`TaskManager`): tasks by name, in the order they
      were added, which is the order a tick visits them. */
  class Manager {
    var tasks: map<string, Task>
    var order: seq<string>

    ghost predicate Valid()
      reads this, tasks.Values
    {
      (forall i, j :: 0 <= i < j < |order| ==> order[i] != order[j]) &&
      (forall k :: k in tasks <==> k in order) &&
      (forall k | k in tasks :: tasks[k].name == k)
    }

    constructor ()
      ensures tasks == map[] && order == []
      ensures Valid()
    {
      tasks := map[];
      order := [];
    }

    /** `add_task(name, callback, delay)` at clock reading `now`: a name
        already in use raises `ValueError`, as do the `Task` checks; otherwise
        the new task is registered last and returned. */
    method AddTask(name: Value, callable: bool, delay: Value, now: real) returns (r: Result<Task>)
      requires Valid()
      modifies this
      ensures Valid()
      ensures name.Str? && name.s in old(tasks) ==> r == Err(ValueError) && tasks == old(tasks) && order == old(order)
      ensures !(name.Str? && name.s in old(tasks)) ==> (r.Ok? <==> TaskCheck(name, callable, delay) == Done)
      ensures r.Err? ==> r.error == ValueError && tasks == old(tasks) && order == old(order)
      ensures r.Ok? ==> fresh(r.value) && r.value.State() == Timer(Num(delay), now, true, [])
      ensures r.Ok? ==> tasks == old(tasks)[name.s := r.value] && order == old(order) + [name.s]
    {
      if name.Str? && name.s in tasks {
        return Err(ValueError);
      }
      r := Task.Create(name, callable, delay, now);
      if r.Ok? {
        tasks := tasks[name.s := r.value];
        order := order + [name.s];
      }
    }

    /** `remove_task(name)`: that `Task` is disabled and unregistered; an unknown
        name changes nothing. */
    method RemoveTask(name: string)
      requires Valid()
      modifies this, tasks.Values
      ensures Valid()
      ensures name !in old(tasks) ==> tasks == old(tasks) && order == old(order)
      ensures forall t :: t in old(tasks.Values) ==> t.State() == old(t.State()) || (name in old(tasks) && t == old(tasks[name]))
      ensures name in old(tasks) ==> old(tasks[name]).State() == old(tasks[name].State()).(active := false)
      ensures name in old(tasks) ==> tasks == old(tasks) - {name} && order == Without(old(order), name)
    {
      if name in tasks {
        var t := tasks[name];
        WithoutSpec(order, name);
        tasks := tasks - {name};
        order := Without(order, name);
        t.Disable();
      }
    }

    /** `tm(clk)`: every registered task is called with the same clock
        reading, in the order they were added. */
    method Tick(clk: real)
      requires Valid()
      modifies tasks.Values
      ensures Valid()
      ensures forall k | k in tasks :: tasks[k].State() == FireIntended(old(tasks[k].State()), clk)
    {
      var i := 0;
      while i < |order|
        invariant 0 <= i <= |order|
        invariant forall j :: 0 <= j < i ==> tasks[order[j]].State() == FireIntended(old(tasks[order[j]].State()), clk)
        invariant forall j :: i <= j < |order| ==> tasks[order[j]].State() == old(tasks[order[j]].State())
        invariant forall k | k in tasks :: tasks[k].name == k
      {
        var t := tasks[order[i]];
        t.Call(clk);
        i := i + 1;
      }
      forall k | k in tasks
        ensures tasks[k].State() == FireIntended(old(tasks[k].State()), clk)
      {
        var j :| 0 <= j < |order| && order[j] == k;
      }
    }

    /** `tm[name]`: the registered task, or `IndexError`. */
    method Get(name: string) returns (r: Result<Task>)
      ensures name in tasks ==> r == Ok(tasks[name])
      ensures name !in tasks ==> r == Err(IndexError)
    {
      if name in tasks {
        return Ok(tasks[name]);
      }
      return Err(IndexError);
    }
  }

  /** `s` with every occurrence of `x` dropped, order kept. */
  function Without(s: seq<string>, x: string): seq<string> {
    if s == [] then []
    else (if s[0] == x then [] else [s[0]]) + Without(s[1..], x)
  }

  /** Dropping `x` from a list of distinct names keeps them distinct and
      removes exactly `x`. */
  lemma {:induction false} WithoutSpec(s: seq<string>, x: string)
    requires forall i, j :: 0 <= i < j < |s| ==> s[i] != s[j]
    ensures forall y :: y in Without(s, x) <==> y in s && y != x
    ensures forall i, j :: 0 <= i < j < |Without(s, x)| ==> Without(s, x)[i] != Without(s, x)[j]
  {
    if s != [] {
      WithoutSpec(s[1..], x);
      assert s[0] !in s[1..];
    }
  }
}

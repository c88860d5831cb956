/** Dynamically typed Python values, for the setters and operators that check
    `isinstance` before accepting an argument. */
module Py {
  import opened Outcomes

  /** A Python value as far as the modelled type checks can tell them apart. */
  datatype Value =
    | Bool(b: bool)
    | Int(i: int)
    | Float(r: real)
    | Str(s: string)
    | Other

  /** `isinstance(v, bool)` */
  predicate IsBool(v: Value) { v.Bool? }

  /** `isinstance(v, int)`; in Python `bool` is a subclass of `int`. */
  predicate IsInt(v: Value) { v.Bool? || v.Int? }

  /** `isinstance(v, (int, float))` */
  predicate IsNumber(v: Value) { IsInt(v) || v.Float? }

  /** The numeric value of a number (`True` is 1, `False` is 0). */
  function Num(v: Value): (r: real)
    requires IsNumber(v)
    ensures v.Int? ==> r == v.i as real
    ensures v.Float? ==> r == v.r
    ensures v.Bool? ==> r == if v.b then 1.0 else 0.0
  {
    match v
    case Bool(b) => if b then 1.0 else 0.0
    case Int(i) => i as real
    case Float(r) => r
  }

  /** The integer value of an `int` (or `bool`). */
  function IntOf(v: Value): (n: int)
    requires IsInt(v)
    ensures Num(v) == n as real
  {
    match v
    case Bool(b) => if b then 1 else 0
    case Int(i) => i
  }

  /** Python's `v == n` for an integer constant `n`: numbers compare by value
      (`False == 0`, `0.0 == 0`), nothing else equals an integer. */
  predicate EqualsInt(v: Value, n: int) {
    IsNumber(v) && Num(v) == n as real
  }

  /** Python's `s[i]` on a list of length `n`: a negative `i` counts from the
      end, anything outside `-n <= i < n` raises `IndexError`. */
  function PyIndex(n: nat, i: int): (r: Option<nat>)
    ensures r.Some? <==> -(n as int) <= i < n
    ensures r.Some? ==> r.value < n
    ensures r.Some? && i >= 0 ==> r.value == i
    ensures r.Some? && i < 0 ==> r.value == n + i
  {
    if 0 <= i < n then Some(i) else if -(n as int) <= i < 0 then Some(n + i) else None
  }

  /** Where Python's slice `s[i:]` starts on a list of length `n`. */
  function SliceStart(n: nat, i: int): (k: nat)
    ensures k <= n
  {
    if i >= 0 then (if i <= n then i else n)
    else if -i <= n then n + i else 0
  }
}

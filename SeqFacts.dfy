/** Facts about slicing and concatenating sequences, stated once for any
    element type so that proofs about sequences of trees can cite them
    without the solver rediscovering them among the trees' definitions. */
module SeqFacts {
  lemma AppendEmpty<X>(a: seq<X>)
    ensures a + [] == a
  {
  }

  lemma TakeDrop<X>(s: seq<X>, n: nat)
    requires n <= |s|
    ensures s[..n] + s[n..] == s
  {
  }

  lemma TakeOfTake<X>(s: seq<X>, n: nat)
    requires n < |s|
    ensures s[..n + 1][..n] == s[..n] && s[..n + 1][n] == s[n]
  {
  }

  /** A sequence that starts with `a + b` starts with `a`. */
  lemma PrefixOfExtended<X>(s: seq<X>, a: seq<X>, b: seq<X>)
    requires |s| >= |a + b| && s[..|a + b|] == a + b
    ensures s[..|a|] == a
  {
    assert forall k | 0 <= k < |a| :: s[k] == s[..|a + b|][k];
  }

  /** The front and the last element of `a + b` for a non-empty `b`. */
  lemma FrontOfAppend<X>(a: seq<X>, b: seq<X>)
    requires b != []
    ensures (a + b)[..|a + b| - 1] == a + b[..|b| - 1]
    ensures (a + b)[|a + b| - 1] == b[|b| - 1]
  {
  }

  /** Putting back the element an update replaced restores the sequence. */
  lemma UpdateBack<X>(s: seq<X>, i: nat, x: X)
    requires i < |s|
    ensures s[i := x][i := s[i]] == s && s[i := s[i]] == s
  {
  }

  lemma AppendAssoc<X>(a: seq<X>, b: seq<X>, c: seq<X>)
    ensures (a + b) + c == a + (b + c)
  {
  }

  /** Updating an element before the last commutes with dropping the last
      element. */
  lemma UpdateFront<X>(s: seq<X>, i: nat, x: X)
    requires i < |s| - 1
    ensures s[i := x][..|s| - 1] == s[..|s| - 1][i := x]
    ensures s[i := x][|s| - 1] == s[|s| - 1]
  {
  }

  /** Updating the last element leaves the front alone. */
  lemma UpdateLast<X>(s: seq<X>, x: X)
    requires s != []
    ensures s[|s| - 1 := x][..|s| - 1] == s[..|s| - 1]
  {
  }

  /** The multiset of a concatenation. */
  lemma MultisetAppend<X>(a: seq<X>, b: seq<X>)
    ensures multiset(a + b) == multiset(a) + multiset(b)
  {
  }

  /** Multiset union cancels. */
  lemma MultisetCancel<X>(a: multiset<X>, b: multiset<X>, c: multiset<X>)
    requires a + c == b + c
    ensures a == b
  {
    forall x
      ensures a[x] == b[x]
    {
      assert (a + c)[x] == (b + c)[x];
    }
  }

  /** Multiset union is commutative in its last two operands. */
  lemma MultisetSwap<X>(a: multiset<X>, b: multiset<X>, c: multiset<X>)
    ensures a + b + c == a + c + b
  {
  }

  /** The multiset of the elements of all the sequences in `ps`. */
  function Flat<X>(ps: seq<seq<X>>): multiset<X> {
    if ps == [] then multiset{} else Flat(ps[..|ps| - 1]) + multiset(ps[|ps| - 1])
  }

  /** Replacing one sequence replaces its elements in the flattened
      multiset. */
  lemma {:induction false} FlatUpdate<X>(ps: seq<seq<X>>, i: nat, x: seq<X>)
    requires i < |ps|
    ensures Flat(ps[i := x]) + multiset(ps[i]) == Flat(ps) + multiset(x)
  {
    var last, qs := |ps| - 1, ps[i := x];
    assert Flat(qs) == Flat(qs[..last]) + multiset(qs[last]);
    assert Flat(ps) == Flat(ps[..last]) + multiset(ps[last]);
    if i < last {
      UpdateFront(ps, i, x);
      FlatUpdate(ps[..last], i, x);
      assert ps[..last][i] == ps[i];
      ghost var a, a', l := Flat(ps[..last]), Flat(ps[..last][i := x]), multiset(ps[last]);
      assert a' + multiset(ps[i]) == a + multiset(x);
      assert Flat(qs) == a' + l;
      assert Flat(ps) == a + l;
      calc {
        Flat(qs) + multiset(ps[i]);
        a' + l + multiset(ps[i]);
        a' + multiset(ps[i]) + l;
        a + multiset(x) + l;
        Flat(ps) + multiset(x);
      }
    } else {
      UpdateLast(ps, x);
    }
  }

  /** `n` empty sequences hold nothing. */
  lemma {:induction false} FlatEmpty<X>(n: nat)
    ensures Flat<X>(seq(n, _ => [])) == multiset{}
  {
    if n > 0 {
      FlatEmpty<X>(n - 1);
      var empties: seq<seq<X>> := seq(n, _ => []);
      assert empties[..n - 1] == seq(n - 1, _ => []);
    }
  }

  /** Appending one element to one sequence adds it to the flattened
      multiset. */
  lemma FlatAppend<X>(ps: seq<seq<X>>, i: nat, x: X)
    requires i < |ps|
    ensures Flat(ps[i := ps[i] + [x]]) == Flat(ps) + multiset{x}
  {
    FlatUpdate(ps, i, ps[i] + [x]);
    MultisetAppend(ps[i], [x]);
    MultisetCancel(Flat(ps[i := ps[i] + [x]]), Flat(ps) + multiset{x}, multiset(ps[i]));
  }

  /** `s` in reverse order. */
  function Reversed<X>(s: seq<X>): (r: seq<X>)
    ensures |r| == |s|
    ensures forall i :: 0 <= i < |s| ==> r[i] == s[|s| - 1 - i]
  {
    if s == [] then [] else [s[|s| - 1]] + Reversed(s[..|s| - 1])
  }

  /** Reversing keeps the elements. */
  lemma {:induction false} ReversedKeeps<X>(s: seq<X>)
    ensures multiset(Reversed(s)) == multiset(s)
  {
    if s != [] {
      var f := s[..|s| - 1];
      ReversedKeeps(f);
      assert s == f + [s[|s| - 1]];
      MultisetAppend(f, [s[|s| - 1]]);
      MultisetAppend([s[|s| - 1]], Reversed(f));
    }
  }

  /** Reversing a suffix one element longer puts that element last. */
  lemma ReversedFrom<X>(s: seq<X>, i: nat)
    requires i < |s|
    ensures Reversed(s[i..]) == Reversed(s[i + 1..]) + [s[i]]
  {
    assert Reversed(s[i..])[|s| - 1 - i] == s[i];
  }

  /** Reversing twice gives the sequence back. */
  lemma ReversedTwice<X>(s: seq<X>)
    ensures Reversed(Reversed(s)) == s
  {
  }

  /** The position of the last occurrence of `x` in `s`, or -1 when `x` does
      not occur. */
  function LastIndexOf<X(==)>(s: seq<X>, x: X): (r: int)
    ensures r == -1 <==> x !in s
    ensures r != -1 ==> 0 <= r < |s| && s[r] == x && forall j :: r < j < |s| ==> s[j] != x
  {
    if s == [] then -1
    else if s[|s| - 1] == x then |s| - 1
    else LastIndexOf(s[..|s| - 1], x)
  }

  /** Appending an element moves the last occurrence of that element to the
      end and leaves every other element's last occurrence where it was. */
  lemma LastIndexOfAppend<X>(s: seq<X>, x: X, y: X)
    ensures LastIndexOf(s + [x], y) == if x == y then |s| else LastIndexOf(s, y)
  {
    assert (s + [x])[..|s|] == s;
  }

  /** In a sequence without repetitions, the last occurrence of the element
      at `i` is `i`. */
  lemma LastIndexOfDistinct<X>(s: seq<X>, i: nat)
    requires i < |s|
    requires forall a, b :: 0 <= a < b < |s| ==> s[a] != s[b]
    ensures LastIndexOf(s, s[i]) == i
  {
  }

  /** `s` with its first occurrence of `x` taken out (`list.pop(list.index(x))`),
      or `s` itself when `x` does not occur. */
  function RemoveFirst<X(==)>(s: seq<X>, x: X): (r: seq<X>)
    ensures x !in s ==> r == s
    ensures x in s ==> |r| == |s| - 1 && multiset(r) == multiset(s) - multiset{x}
  {
    if s == [] then []
    else if s[0] == x then (assert s == [x] + s[1..]; s[1..])
    else (assert s == [s[0]] + s[1..]; [s[0]] + RemoveFirst(s[1..], x))
  }

  /** Removing from a sequence without repetitions leaves one without
      repetitions that no longer holds `x`. */
  lemma {:induction false} RemoveFirstDistinct<X>(s: seq<X>, x: X)
    requires forall a, b :: 0 <= a < b < |s| ==> s[a] != s[b]
    ensures forall y :: y in RemoveFirst(s, x) <==> y in s && y != x
    ensures forall a, b :: 0 <= a < b < |RemoveFirst(s, x)| ==> RemoveFirst(s, x)[a] != RemoveFirst(s, x)[b]
  {
    if s != [] {
      var t := s[1..];
      assert s == [s[0]] + t;
      assert s[0] !in t by {
        forall j | 0 <= j < |t|
          ensures t[j] != s[0]
        {
          assert t[j] == s[j + 1];
        }
      }
      if s[0] != x {
        RemoveFirstDistinct(t, x);
        var r := RemoveFirst(s, x);
        assert r == [s[0]] + RemoveFirst(t, x);
        forall a, b | 0 <= a < b < |r|
          ensures r[a] != r[b]
        {
          if a == 0 {
            assert r[b] == RemoveFirst(t, x)[b - 1];
            assert r[b] in RemoveFirst(t, x);
          }
        }
      }
    }
  }
}

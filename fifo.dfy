/**
 * Bounded first-in-first-out lists as the source keeps them: append the new
 * element, then drop the oldest one once the length exceeds the capacity.
 * Used both for the PPO experience memory and for the 100-episode score window.
 */
module Fifo {

  /** The last `n` elements of `s` (all of `s` when it is shorter). */
  function LastN<T>(s: seq<T>, n: nat): seq<T>
  {
    if |s| <= n then s else s[|s| - n..]
  }

  /** One `append` followed by at most one `pop(0)`. */
  function Push<T>(s: seq<T>, x: T, capacity: nat): (r: seq<T>)
    ensures |s| <= capacity ==> |r| <= capacity
    ensures |s| < capacity ==> r == s + [x]
    ensures 0 < |s| && capacity <= |s| ==> r == s[1..] + [x]
    ensures |s| <= capacity ==> r == LastN(s + [x], capacity)
  {
    var appended := s + [x];
    if |appended| > capacity then appended[1..] else appended
  }

  /** Pushes the elements of `xs` one after the other, oldest first. */
  function PushAll<T>(s: seq<T>, xs: seq<T>, capacity: nat): seq<T>
    decreases |xs|
  {
    if |xs| == 0 then s else PushAll(Push(s, xs[0], capacity), xs[1..], capacity)
  }

  /** Taking a suffix first does not change the last `n` elements. */
  lemma LastNOfLastN<T>(a: seq<T>, b: seq<T>, n: nat)
    ensures LastN(LastN(a, n) + b, n) == LastN(a + b, n)
  {
    if |a| > n {
      var t := a[|a| - n..];
      assert t + b == (a + b)[|a| - n..];
      if |b| > 0 {
        assert (t + b)[|b|..] == (a + b)[|a| + |b| - n..];
      }
    }
  }

  /** After any sequence of pushes into a list within capacity, the list
      holds exactly the last `capacity` elements, in insertion order. */
  lemma {:induction false} PushAllKeepsLast<T>(s: seq<T>, xs: seq<T>, capacity: nat)
    requires |s| <= capacity
    ensures PushAll(s, xs, capacity) == LastN(s + xs, capacity)
    decreases |xs|
  {
    if |xs| == 0 {
      assert s + xs == s;
    } else {
      var first, rest := s + [xs[0]], xs[1..];
      var s' := Push(s, xs[0], capacity);
      assert first + rest == s + xs;
      PushAllKeepsLast(s', rest, capacity);
      LastNOfLastN(first, rest, capacity);
      calc {
        PushAll(s, xs, capacity);
        PushAll(s', rest, capacity);
        LastN(s' + rest, capacity);
        { assert s' == LastN(first, capacity); }
        LastN(LastN(first, capacity) + rest, capacity);
        LastN(s + xs, capacity);
      }
    }
  }

  /** Pushing one more element at the end of a run of pushes. */
  lemma {:induction false} PushAllSnoc<T>(s: seq<T>, xs: seq<T>, x: T, capacity: nat)
    ensures PushAll(s, xs + [x], capacity) == Push(PushAll(s, xs, capacity), x, capacity)
    decreases |xs|
  {
    if |xs| == 0 {
      assert xs + [x] == [x];
      assert [x][1..] == [];
    } else {
      assert (xs + [x])[0] == xs[0];
      assert (xs + [x])[1..] == xs[1..] + [x];
      PushAllSnoc(Push(s, xs[0], capacity), xs[1..], x, capacity);
    }
  }

  /** The capacity bound: a list within capacity stays within it, and it is
      full as soon as at least `capacity` elements went in. */
  lemma PushAllLength<T>(s: seq<T>, xs: seq<T>, capacity: nat)
    requires |s| <= capacity
    ensures |PushAll(s, xs, capacity)| <= capacity
    ensures |s| + |xs| >= capacity ==> |PushAll(s, xs, capacity)| == capacity
    ensures |s| + |xs| < capacity ==> PushAll(s, xs, capacity) == s + xs
  {
    PushAllKeepsLast(s, xs, capacity);
  }

  /** Capacity 3, pushing A, B, C, D in order, keeps B, C, D. */
  lemma EvictionExample()
    ensures PushAll([], ['A', 'B', 'C', 'D'], 3) == ['B', 'C', 'D']
  {
    PushAllKeepsLast([], ['A', 'B', 'C', 'D'], 3);
  }
}

/**
 * The bounded logs the handlers keep: enqueue at the back, then dequeue at
 * the front while the queue holds more than its maximum. A queue is a
 * sequence whose head is the oldest entry.
 */
module CappedQueue {

  /** The newest `max` entries of `s`, in order (all of `s` when it is no longer). */
  function Newest<T>(s: seq<T>, max: nat): (r: seq<T>)
    ensures |r| == if |s| <= max then |s| else max
    ensures r == s[|s| - |r|..]
  {
    if |s| <= max then s else s[|s| - max..]
  }

  /** The `while (Count > max) Dequeue()` loop. */
  function DropOldest<T>(s: seq<T>, max: nat): (r: seq<T>)
    ensures r == Newest(s, max)
    decreases |s|
  {
    if |s| > max then DropOldest(s[1..], max) else s
  }

  /** `Enqueue(item)` followed by the dequeue loop. */
  function Enqueue<T>(q: seq<T>, item: T, max: nat): (r: seq<T>)
    ensures |r| <= max
    ensures |r| == if |q| < max then |q| + 1 else max
    ensures max > 0 ==> r[|r| - 1] == item
    ensures r == (q + [item])[|q| + 1 - |r|..]
  {
    DropOldest(q + [item], max)
  }

  /** Items enqueued one after another, oldest first. */
  function EnqueueAll<T>(q: seq<T>, items: seq<T>, max: nat): seq<T>
    decreases |items|
  {
    if |items| == 0 then q else EnqueueAll(Enqueue(q, items[0], max), items[1..], max)
  }

  /**
   * A queue that was within its cap, after a run of enqueues, holds the
   * newest `max` of everything it was given, in insertion order.
   */
  lemma {:induction false} EnqueueAllKeepsNewest<T>(q: seq<T>, items: seq<T>, max: nat)
    requires |q| <= max
    ensures EnqueueAll(q, items, max) == Newest(q + items, max)
    decreases |items|
  {
    if |items| == 0 {
      assert q + items == q;
    } else {
      var q1 := Enqueue(q, items[0], max);
      EnqueueAllKeepsNewest(q1, items[1..], max);
      EnqueueAllNewest(q, items, max);
    }
  }

  /** The inductive step of `EnqueueAllKeepsNewest`, after one enqueue. */
  lemma EnqueueAllNewest<T>(q: seq<T>, items: seq<T>, max: nat)
    requires |items| > 0
    ensures Newest(Enqueue(q, items[0], max) + items[1..], max) == Newest(q + items, max)
  {
    var s := q + [items[0]];
    var n := Newest(s, max);
    var rest := items[1..];
    assert q + items == s + rest;
    NewestOfAppend(s, rest, max);
  }

  /** Dropping old entries first does not change the newest `max` of a longer run. */
  lemma NewestOfAppend<T>(s: seq<T>, rest: seq<T>, max: nat)
    ensures Newest(Newest(s, max) + rest, max) == Newest(s + rest, max)
  {
    var n := Newest(s, max);
    var a := n + rest;
    var b := s + rest;
    assert a == b[|b| - |a|..];
  }

  /** `NewestOfAppend` stated over names, for callers whose terms are large. */
  lemma NewestChain<T>(q: seq<T>, a: seq<T>, b: seq<T>, x: seq<T>, y: seq<T>, max: nat)
    requires x == Newest(q + a, max)
    requires y == Newest(x + b, max)
    ensures y == Newest(q + (a + b), max)
  {
    NewestOfAppend(q + a, b, max);
    assert (q + a) + b == q + (a + b);
  }
}

/** Ring arithmetic shared by the two jitter buffers: a ring read from an index on, as a plain sequence. */
module Rings {

  /** The newest `n` elements. */
  function TakeLast<T>(s: seq<T>, n: nat): seq<T> { if |s| <= n then s else s[|s|-n..] }

  lemma TakeLastSnoc<T>(s: seq<T>, x: T, n: nat)
    ensures TakeLast(s + [x], n) == TakeLast(TakeLast(s, n) + [x], n)
  {
  }

  lemma TakeLastTwice<T>(s: seq<T>, n: nat, m: nat)
    ensures TakeLast(TakeLast(s, n), m) == TakeLast(s, if n < m then n else m)
  {
  }

  /** Place `i` after `head` in a ring of `n`. */
  function Slot(head: nat, i: nat, n: nat): int { if head + i < n then head + i else head + i - n }

  lemma Wraps(head: nat, i: nat, n: nat)
    requires head < n && i <= n
    ensures (head + i) % n == Slot(head, i, n)
  {
    if head + i >= n { assert (head + i - n) % n == head + i - n; }
  }

  /** The `count` samples of the ring from `head` on, oldest first. */
  ghost function Ring<T>(ring: seq<T>, head: nat, count: nat): (q: seq<T>)
    requires count <= |ring| && head < |ring|
    ensures |q| == count
  {
    seq(count, i requires 0 <= i < count => ring[Slot(head, i, |ring|)])
  }

  lemma RingPop<T>(ring: seq<T>, head: nat, count: nat)
    requires 0 < count <= |ring| && head < |ring|
    ensures (head + 1) % |ring| < |ring| && Ring(ring, head, count)[0] == ring[head]
    ensures Ring(ring, (head + 1) % |ring|, count - 1) == Ring(ring, head, count)[1..]
  {
    Wraps(head, 1, |ring|);
  }

  lemma RingPush<T>(ring: seq<T>, head: nat, count: nat, x: T)
    requires count < |ring| && head < |ring|
    ensures (head + count) % |ring| < |ring|
    ensures Ring(ring[(head + count) % |ring| := x], head, count + 1) == Ring(ring, head, count) + [x]
  {
    Wraps(head, count, |ring|);
  }

  lemma RingSkip<T>(ring: seq<T>, head: nat, count: nat, n: nat)
    requires n <= count <= |ring| && head < |ring|
    ensures (head + n) % |ring| < |ring|
    ensures Ring(ring, (head + n) % |ring|, count - n) == Ring(ring, head, count)[n..]
  {
    Wraps(head, n, |ring|);
  }

  /** `q` is the end of `p`. */
  predicate IsTail<T(==)>(q: seq<T>, p: seq<T>) { |q| <= |p| && q == p[|p|-|q|..] }

  lemma TailGrows<T>(q: seq<T>, p: seq<T>, src: seq<T>)
    requires IsTail(q, p)
    ensures IsTail(q + src, p + src)
  {
    assert q + src == (p + src)[|p|-|q|..];
  }

  lemma TailOfTail<T>(q: seq<T>, p: seq<T>, n: nat)
    requires IsTail(q, p) && n <= |q|
    ensures IsTail(q[n..], p)
  {
  }
}

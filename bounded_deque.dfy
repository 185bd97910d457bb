/**
 * Bounded FIFO buffers: Python's `deque(maxlen=capacity)`, and the lists the
 * game keeps short by appending and then dropping the oldest entry with
 * `pop(0)` once they grow past their limit. Both evict the oldest element,
 * so both are modelled by `Push`.
 */
module BoundedDeque {

  /** The last `n` elements of `s`, or all of them when there are fewer. */
  function Last<T>(n: nat, s: seq<T>): (r: seq<T>)
    ensures |r| == if |s| <= n then |s| else n
  {
    if |s| <= n then s else s[|s| - n..]
  }

  /** `deque.append` on a full deque evicts the oldest element first. */
  function Push<T>(buffer: seq<T>, capacity: nat, x: T): (r: seq<T>)
    requires 0 < capacity && |buffer| <= capacity
    ensures r == Last(capacity, buffer + [x])
    ensures |r| <= capacity && r[|r| - 1] == x
  {
    if |buffer| < capacity then buffer + [x] else buffer[1..] + [x]
  }

  /** The buffer after appending `xs` one at a time. */
  function PushAll<T>(buffer: seq<T>, capacity: nat, xs: seq<T>): (r: seq<T>)
    requires 0 < capacity && |buffer| <= capacity
    ensures |r| <= capacity
    decreases |xs|
  {
    if |xs| == 0 then buffer else PushAll(Push(buffer, capacity, xs[0]), capacity, xs[1..])
  }

  lemma LastOfLast<T>(n: nat, s: seq<T>, t: seq<T>)
    ensures Last(n, Last(n, s) + t) == Last(n, s + t)
  {
    if |s| > n {
      var u := s[|s| - n..];
      assert u + t == (s + t)[|s| - n..];
      assert (u + t)[|u + t| - n..] == (s + t)[|s + t| - n..];
    }
  }

  /** Trimming after one append loses nothing that trimming at the end would keep. */
  lemma LastAfterPush<T>(buffer: seq<T>, capacity: nat, x: T, t: seq<T>)
    requires 0 < capacity && |buffer| <= capacity
    ensures Last(capacity, Push(buffer, capacity, x) + t) == Last(capacity, buffer + ([x] + t))
  {
    LastOfLast(capacity, buffer + [x], t);
    assert buffer + [x] + t == buffer + ([x] + t);
  }

  /** After any number of appends the buffer holds the newest `capacity` values, in order. */
  lemma {:induction false} PushAllKeepsNewest<T>(buffer: seq<T>, capacity: nat, xs: seq<T>)
    requires 0 < capacity && |buffer| <= capacity
    ensures PushAll(buffer, capacity, xs) == Last(capacity, buffer + xs)
    decreases |xs|
  {
    if |xs| == 0 {
      assert buffer + xs == buffer;
    } else {
      PushAllKeepsNewest(Push(buffer, capacity, xs[0]), capacity, xs[1..]);
      LastAfterPush(buffer, capacity, xs[0], xs[1..]);
      assert [xs[0]] + xs[1..] == xs;
    }
  }

  /** Starting empty, `N` appends leave `min(N, capacity)` values: the last ones, in order. */
  lemma FreshBufferAfterAppends<T>(capacity: nat, xs: seq<T>)
    requires 0 < capacity
    ensures |PushAll([], capacity, xs)| == if |xs| <= capacity then |xs| else capacity
    ensures |xs| <= capacity ==> PushAll([], capacity, xs) == xs
    ensures |xs| > capacity ==> PushAll([], capacity, xs) == xs[|xs| - capacity..]
  {
    PushAllKeepsNewest([], capacity, xs);
    assert [] + xs == xs;
  }
}

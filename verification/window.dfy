/** Bounded FIFO windows: Python's `collections.deque(maxlen=k)`. */
module Window {

  /** The last `k` elements of `s`, or all of `s` when it is shorter. */
  function Last<T>(s: seq<T>, k: nat): (r: seq<T>)
    ensures |r| == if |s| < k then |s| else k
  {
    if |s| <= k then s else s[|s| - k..]
  }

  /** `deque.append(x)` on a deque with `maxlen=k` holding `h`: when the deque
      is full the oldest element is dropped from the left. */
  function Push<T>(h: seq<T>, x: T, k: nat): (r: seq<T>)
    requires |h| <= k
    ensures |r| <= k
  {
    if |h| < k then h + [x]
    else if k == 0 then []
    else h[1..] + [x]
  }

  /** Appending to the window of `xs` gives the window of `xs + [x]`:
      the oldest element is evicted first. */
  lemma PushLast<T>(xs: seq<T>, x: T, k: nat)
    ensures Push(Last(xs, k), x, k) == Last(xs + [x], k)
  {
    var w := Last(xs, k);
    var ys := xs + [x];
    if |xs| < k {
      assert w == xs;
    } else if k > 0 {
      assert Push(w, x, k) == w[1..] + [x];
      assert w == xs[|xs| - k..];
      assert Last(ys, k) == ys[|ys| - k..];
      assert w[1..] + [x] == ys[|ys| - k..];
    }
  }

  /** An append keeps the newest `k` of the elements held followed by `x`:
      `x` is the newest, and the oldest is dropped first. */
  lemma PushKeepsNewest<T>(h: seq<T>, x: T, k: nat)
    requires |h| <= k
    ensures Push(h, x, k) == Last(h + [x], k)
    ensures |Push(h, x, k)| == if |h| < k then |h| + 1 else k
    ensures k > 0 ==> Push(h, x, k)[|Push(h, x, k)| - 1] == x
  {
    var ys := h + [x];
    if |h| == k && k > 0 {
      assert ys[|ys| - k..] == h[1..] + [x];
    }
  }

  /** A sequence of appends, starting from the window `h`. */
  function PushAll<T>(h: seq<T>, xs: seq<T>, k: nat): (r: seq<T>)
    requires |h| <= k
    ensures |r| <= k
    decreases |xs|
  {
    if |xs| == 0 then h else PushAll(Push(h, xs[0], k), xs[1..], k)
  }

  /** After any sequence of appends to an empty deque, it holds exactly the
      last `k` elements appended, oldest first. */
  lemma {:induction false} PushAllFromEmpty<T>(xs: seq<T>, k: nat)
    ensures PushAll([], xs, k) == Last(xs, k)
  {
    PushAllFrom(xs, [], k);
    assert [] + xs == xs;
  }

  lemma {:induction false} PushAllFrom<T>(xs: seq<T>, pre: seq<T>, k: nat)
    ensures PushAll(Last(pre, k), xs, k) == Last(pre + xs, k)
    decreases |xs|
  {
    if |xs| == 0 {
      assert pre + xs == pre;
    } else {
      var pre' := pre + [xs[0]];
      PushLast(pre, xs[0], k);
      assert PushAll(Last(pre, k), xs, k) == PushAll(Last(pre', k), xs[1..], k);
      PushAllFrom(xs[1..], pre', k);
      assert pre' + xs[1..] == pre + xs;
    }
  }
}

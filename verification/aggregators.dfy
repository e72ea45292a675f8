/** The windowed weighted averages of seven/feature_makers.py:
    `VolumeWeightedAverage` and `TimeVolumeWeightedAverage`. */
module Aggregators {
  import opened Wrappers
  import opened Window
  import opened Text
  import Records

  /* ---------------- plain volume-weighted average ---------------- */

  /** One observation: an amount (a spread) and its volume (a quantity). */
  datatype Pair = Pair(amount: real, volume: real)

  /** The FIFO of the last `k` pairs. */
  datatype VolumeWeightedAverage = VolumeWeightedAverage(k: nat, history: seq<Pair>) {
    predicate Valid() {
      k > 0 && |history| <= k
    }
  }

  /** The constructor: `assert k > 0`, then an empty deque of length `k`. */
  function NewVolumeWeightedAverage(k: int): (r: Result<VolumeWeightedAverage>)
    ensures r.Ok? <==> k > 0
    ensures r.Ok? ==> r.value.Valid() && r.value.k == k && r.value.history == []
    ensures !r.Ok? ==> r.Fatal?
  {
    if k > 0 then Ok(VolumeWeightedAverage(k, [])) else Fatal("assert k > 0")
  }

  /** Σ amount·volume over a window. */
  function AmountVolumeSum(h: seq<Pair>): real {
    if |h| == 0 then 0.0 else AmountVolumeSum(h[..|h| - 1]) + h[|h| - 1].amount * h[|h| - 1].volume
  }

  /** Σ volume over a window. */
  function VolumeSum(h: seq<Pair>): real {
    if |h| == 0 then 0.0 else VolumeSum(h[..|h| - 1]) + h[|h| - 1].volume
  }

  /** `q` is the quotient `num / den`, stated without division. */
  predicate IsRatio(q: real, num: real, den: real) {
    q * den == num
  }

  lemma RatioUnique(q: real, num: real, den: real)
    requires den != 0.0 && IsRatio(q, num, den)
    ensures q == num / den
  {
  }

  function NotYetK(k: nat): string {
    "not yet k=" + Digits(k, 0) + " observations"
  }

  /** `weighted_average(amount, volume)`: append the pair, then report the
      volume-weighted average of the window once it holds exactly `k` pairs. */
  function WeightedAverage(s: VolumeWeightedAverage, amount: real, volume: real)
    : (r: (Result<real>, VolumeWeightedAverage))
    requires s.Valid()
    ensures r.1.Valid() && r.1.k == s.k
    ensures r.1.history == Push(s.history, Pair(amount, volume), s.k)
    ensures r.0.Ok? <==> |r.1.history| == s.k && VolumeSum(r.1.history) != 0.0
    ensures r.0.Ok? ==> IsRatio(r.0.value, AmountVolumeSum(r.1.history), VolumeSum(r.1.history))
    ensures !r.0.Fatal?
  {
    var h := Push(s.history, Pair(amount, volume), s.k);
    var s' := s.(history := h);
    if |h| != s.k then (Err(NotYetK(s.k)), s')
    else if VolumeSum(h) == 0.0 then (Err("volums sum to zero"), s')
    else (Ok(AmountVolumeSum(h) / VolumeSum(h)), s')
  }

  /** Feed a non-empty stream of pairs, oldest first; the result of the
      last call and the final state. */
  function FeedPairs(s: VolumeWeightedAverage, xs: seq<Pair>): (r: (Result<real>, VolumeWeightedAverage))
    requires s.Valid() && |xs| > 0
    ensures r.1.Valid() && r.1.k == s.k
  {
    var before := if |xs| == 1 then s else FeedPairs(s, xs[..|xs| - 1]).1;
    WeightedAverage(before, xs[|xs| - 1].amount, xs[|xs| - 1].volume)
  }

  /** A fresh aggregator fed any stream holds exactly the last `k` pairs, oldest first. */
  lemma {:induction false} FeedPairsHistory(k: nat, xs: seq<Pair>)
    requires k > 0 && |xs| > 0
    ensures FeedPairs(VolumeWeightedAverage(k, []), xs).1.history == Last(xs, k)
  {
    var front := xs[..|xs| - 1];
    var last := xs[|xs| - 1];
    assert last == Pair(last.amount, last.volume);
    assert front + [last] == xs;
    if |xs| > 1 {
      FeedPairsHistory(k, front);
    }
    PushLast(front, last, k);
  }

  /** The window property: the last call fails until `k` pairs have been
      seen or when the window's volumes sum to zero, and otherwise returns
      Σ(a·v)/Σv over exactly the last `k` pairs. */
  lemma VolumeWeightedAverageWindow(k: nat, xs: seq<Pair>)
    requires k > 0 && |xs| > 0
    ensures var r := FeedPairs(VolumeWeightedAverage(k, []), xs);
      && (r.0.Ok? <==> |xs| >= k && VolumeSum(Last(xs, k)) != 0.0)
      && (r.0.Ok? ==> IsRatio(r.0.value, AmountVolumeSum(Last(xs, k)), VolumeSum(Last(xs, k))))
  {
    FeedPairsHistory(k, xs);
  }

  /** The unit test of feature_makers.py: pairs (100,10), (200,20), (300,30)
      give 233.33 (= 700/3) for k=3 and an error for k=4. */
  lemma VolumeWeightedAverageTest()
    ensures FeedPairs(VolumeWeightedAverage(3, []), TestPairs()).0 == Ok(700.0 / 3.0)
    ensures FeedPairs(VolumeWeightedAverage(4, []), TestPairs()).0.Err?
  {
    var xs := TestPairs();
    assert Last(xs, 3) == xs;
    assert xs[..2][..1] == [xs[0]] && xs[..2] == [xs[0], xs[1]] && [xs[0]][..0] == [];
    assert AmountVolumeSum([xs[0]]) == 1000.0 && VolumeSum([xs[0]]) == 10.0;
    assert AmountVolumeSum(xs[..2]) == 5000.0 && VolumeSum(xs[..2]) == 30.0;
    assert AmountVolumeSum(xs) == 14000.0 && VolumeSum(xs) == 60.0;
    ExampleK(3, xs, xs, 14000.0, 60.0);
    VolumeWeightedAverageWindow(4, xs);
  }

  /** The same test with k=1 (300) and k=2 (260). */
  lemma VolumeWeightedAverageShortWindows()
    ensures FeedPairs(VolumeWeightedAverage(1, []), TestPairs()).0 == Ok(300.0)
    ensures FeedPairs(VolumeWeightedAverage(2, []), TestPairs()).0 == Ok(260.0)
  {
    var xs := TestPairs();
    var w1, w2 := [xs[2]], [xs[1], xs[2]];
    assert Last(xs, 1) == w1 && Last(xs, 2) == w2;
    assert w1[..0] == [] && w2[..1] == [xs[1]];
    assert AmountVolumeSum(w1) == 9000.0 && VolumeSum(w1) == 30.0;
    assert AmountVolumeSum(w2) == 13000.0 && VolumeSum(w2) == 50.0;
    ExampleK(1, xs, w1, 9000.0, 30.0);
    ExampleK(2, xs, w2, 13000.0, 50.0);
  }

  function TestPairs(): seq<Pair> {
    [Pair(100.0, 10.0), Pair(200.0, 20.0), Pair(300.0, 30.0)]
  }

  lemma ExampleK(k: nat, xs: seq<Pair>, w: seq<Pair>, num: real, den: real)
    requires 0 < k <= |xs| && Last(xs, k) == w
    requires AmountVolumeSum(w) == num && VolumeSum(w) == den && den != 0.0
    ensures FeedPairs(VolumeWeightedAverage(k, []), xs).0 == Ok(num / den)
  {
    VolumeWeightedAverageWindow(k, xs);
    RatioUnique(FeedPairs(VolumeWeightedAverage(k, []), xs).0.value, num, den);
  }

  /* ---------------- time-decayed volume-weighted average ---------------- */

  /** One observation with its timestamp (microseconds). */
  datatype Stamped = Stamped(amount: real, volume: real, timestamp: int)

  datatype TimeVolumeWeightedAverage = TimeVolumeWeightedAverage(k: nat, history: seq<Stamped>) {
    predicate Valid() {
      k > 0 && |history| <= k
    }
  }

  function NewTimeVolumeWeightedAverage(k: int): (r: Result<TimeVolumeWeightedAverage>)
    ensures r.Ok? <==> k > 0
    ensures r.Ok? ==> r.value.Valid() && r.value.k == k && r.value.history == []
    ensures !r.Ok? ==> r.Fatal?
  {
    if k > 0 then Ok(TimeVolumeWeightedAverage(k, [])) else Fatal("assert k > 0")
  }

  /** `as_days(ts - now)`: the signed distance from `now` to `ts` in fractional days. */
  function DaysBack(ts: int, now: int): real {
    (ts - now) as real / Records.MicrosPerDay as real
  }

  /** Every retained observation is no later than `now`. */
  predicate NotAfter(h: seq<Stamped>, now: int) {
    forall i :: 0 <= i < |h| ==> h[i].timestamp <= now
  }

  /** Σ amount·volume·w and Σ volume·w, the weight of each observation being
      `weight(DaysBack(ts, now))` (the source's `math.exp`). */
  function DecayedAmountSum(h: seq<Stamped>, now: int, weight: real -> real): real {
    if |h| == 0 then 0.0
    else DecayedAmountSum(h[..|h| - 1], now, weight)
         + h[|h| - 1].amount * h[|h| - 1].volume * weight(DaysBack(h[|h| - 1].timestamp, now))
  }

  function DecayedVolumeSum(h: seq<Stamped>, now: int, weight: real -> real): real {
    if |h| == 0 then 0.0
    else DecayedVolumeSum(h[..|h| - 1], now, weight)
         + h[|h| - 1].volume * weight(DaysBack(h[|h| - 1].timestamp, now))
  }

  /** The accumulation loop over the window: `assert days_back <= 0.0` on
      every element, summing as it goes. */
  function DecayedSums(h: seq<Stamped>, now: int, weight: real -> real): (r: Result<(real, real)>)
    ensures r.Ok? <==> NotAfter(h, now)
    ensures !r.Err?
    ensures r.Ok? ==> r.value == (DecayedAmountSum(h, now, weight), DecayedVolumeSum(h, now, weight))
  {
    if |h| == 0 then Ok((0.0, 0.0))
    else
      match DecayedSums(h[..|h| - 1], now, weight)
      case Ok(front) =>
        var o := h[|h| - 1];
        var daysBack := DaysBack(o.timestamp, now);
        if daysBack > 0.0 then Fatal("assert days_back <= 0.0")
        else
          var w := weight(daysBack);
          assert DecayedAmountSum(h, now, weight) == front.0 + o.amount * o.volume * w;
          assert DecayedVolumeSum(h, now, weight) == front.1 + o.volume * w;
          Ok((front.0 + o.amount * o.volume * w, front.1 + o.volume * w))
      case Err(e) => Err(e)
      case Fatal(a) => Fatal(a)
  }

  /** `weighted_average(amount, volume, timestamp)` of the time-decayed variant. */
  function TimeWeightedAverage(
    s: TimeVolumeWeightedAverage, amount: real, volume: real, timestamp: int, weight: real -> real)
    : (r: (Result<real>, TimeVolumeWeightedAverage))
    requires s.Valid()
    ensures r.1.Valid() && r.1.k == s.k
    ensures r.1.history == Push(s.history, Stamped(amount, volume, timestamp), s.k)
    ensures |r.1.history| != s.k ==> r.0.Err?
    ensures |r.1.history| == s.k ==> (r.0.Fatal? <==> !NotAfter(r.1.history, timestamp))
    ensures r.0.Ok? <==>
      |r.1.history| == s.k && NotAfter(r.1.history, timestamp)
      && DecayedVolumeSum(r.1.history, timestamp, weight) != 0.0
    ensures r.0.Ok? ==>
      IsRatio(r.0.value, DecayedAmountSum(r.1.history, timestamp, weight), DecayedVolumeSum(r.1.history, timestamp, weight))
  {
    var h := Push(s.history, Stamped(amount, volume, timestamp), s.k);
    var s' := s.(history := h);
    if |h| != s.k then (Err(NotYetK(s.k)), s')
    else
      match DecayedSums(h, timestamp, weight)
      case Ok(sums) =>
        if sums.1 == 0.0 then (Err("time-weighted volumes sum to zero"), s')
        else (Ok(sums.0 / sums.1), s')
      case Err(e) => (Err(e), s')
      case Fatal(a) => (Fatal(a), s')
  }

  function FeedStamped(s: TimeVolumeWeightedAverage, xs: seq<Stamped>, weight: real -> real)
    : (r: (Result<real>, TimeVolumeWeightedAverage))
    requires s.Valid() && |xs| > 0
    ensures r.1.Valid() && r.1.k == s.k
  {
    var before := if |xs| == 1 then s else FeedStamped(s, xs[..|xs| - 1], weight).1;
    var o := xs[|xs| - 1];
    TimeWeightedAverage(before, o.amount, o.volume, o.timestamp, weight)
  }

  lemma {:induction false} FeedStampedHistory(k: nat, xs: seq<Stamped>, weight: real -> real)
    requires k > 0 && |xs| > 0
    ensures FeedStamped(TimeVolumeWeightedAverage(k, []), xs, weight).1.history == Last(xs, k)
  {
    var front := xs[..|xs| - 1];
    var last := xs[|xs| - 1];
    assert last == Stamped(last.amount, last.volume, last.timestamp);
    assert front + [last] == xs;
    if |xs| > 1 {
      FeedStampedHistory(k, front, weight);
    }
    PushLast(front, last, k);
  }

  /** The window property of the decayed variant: only the last `k` triples
      are kept, and the last call is judged on exactly those; a retained
      timestamp later than the current one is a failed assertion. */
  lemma TimeVolumeWeightedAverageWindow(k: nat, xs: seq<Stamped>, weight: real -> real)
    requires k > 0 && |xs| > 0
    ensures var r := FeedStamped(TimeVolumeWeightedAverage(k, []), xs, weight);
      var now := xs[|xs| - 1].timestamp;
      var w := Last(xs, k);
      && (|xs| < k ==> r.0.Err?)
      && (|xs| >= k ==> (r.0.Fatal? <==> !NotAfter(w, now)))
      && (r.0.Ok? <==> |xs| >= k && NotAfter(w, now) && DecayedVolumeSum(w, now, weight) != 0.0)
      && (r.0.Ok? ==> IsRatio(r.0.value, DecayedAmountSum(w, now, weight), DecayedVolumeSum(w, now, weight)))
  {
    FeedStampedHistory(k, xs, weight);
  }

  /** With no time elapsed and `exp(0) = 1`, the decayed average is the plain one. */
  lemma {:induction false} NoElapsedTimeSums(h: seq<Stamped>, now: int, weight: real -> real)
    requires weight(0.0) == 1.0
    requires forall i :: 0 <= i < |h| ==> h[i].timestamp == now
    ensures DecayedAmountSum(h, now, weight) == AmountVolumeSum(Plain(h))
    ensures DecayedVolumeSum(h, now, weight) == VolumeSum(Plain(h))
  {
    if |h| > 0 {
      var f := h[..|h| - 1];
      NoElapsedTimeSums(f, now, weight);
      assert Plain(h)[..|h| - 1] == Plain(f);
      assert DaysBack(h[|h| - 1].timestamp, now) == 0.0;
    }
  }

  /** The pairs of a window of stamped observations. */
  function Plain(h: seq<Stamped>): (r: seq<Pair>)
    ensures |r| == |h|
    ensures forall i :: 0 <= i < |h| ==> r[i] == Pair(h[i].amount, h[i].volume)
  {
    seq(|h|, i requires 0 <= i < |h| => Pair(h[i].amount, h[i].volume))
  }

  lemma PlainPush(h: seq<Stamped>, x: Stamped, k: nat)
    requires |h| <= k
    ensures Plain(Push(h, x, k)) == Push(Plain(h), Pair(x.amount, x.volume), k)
  {
    if |h| < k {
      assert Plain(h + [x]) == Plain(h) + [Pair(x.amount, x.volume)];
    } else if k > 0 {
      assert Plain(h[1..] + [x]) == Plain(h)[1..] + [Pair(x.amount, x.volume)];
    }
  }

  lemma PushAllAt(h: seq<Stamped>, x: Stamped, k: nat, now: int)
    requires |h| <= k && x.timestamp == now
    requires forall i :: 0 <= i < |h| ==> h[i].timestamp == now
    ensures var h' := Push(h, x, k); forall i :: 0 <= i < |h'| ==> h'[i].timestamp == now
  {
  }

  /** The two variants agree when every retained observation carries the
      current timestamp: the decay weight `exp(0)` is then 1 for all of them. */
  lemma DecayedAgreesWithPlain(
    s: TimeVolumeWeightedAverage, p: VolumeWeightedAverage,
    amount: real, volume: real, now: int, weight: real -> real)
    requires s.Valid() && p.Valid() && s.k == p.k && p.history == Plain(s.history)
    requires weight(0.0) == 1.0
    requires forall i :: 0 <= i < |s.history| ==> s.history[i].timestamp == now
    ensures var t := TimeWeightedAverage(s, amount, volume, now, weight).0;
      var q := WeightedAverage(p, amount, volume).0;
      (t.Ok? <==> q.Ok?) && (t.Ok? ==> t.value == q.value)
  {
    var x := Stamped(amount, volume, now);
    var h := Push(s.history, x, s.k);
    PlainPush(s.history, x, s.k);
    PushAllAt(s.history, x, s.k, now);
    NoElapsedTimeSums(h, now, weight);
    assert NotAfter(h, now);
    var g := Plain(h);
    if |h| == s.k && VolumeSum(g) != 0.0 {
      RatioUnique(TimeWeightedAverage(s, amount, volume, now, weight).0.value, AmountVolumeSum(g), VolumeSum(g));
      RatioUnique(WeightedAverage(p, amount, volume).0.value, AmountVolumeSum(g), VolumeSum(g));
    }
  }

  lemma ThreeSums(a: Stamped, b: Stamped, c: Stamped, now: int, weight: real -> real)
    ensures DecayedAmountSum([a, b, c], now, weight)
      == a.amount * a.volume * weight(DaysBack(a.timestamp, now))
       + b.amount * b.volume * weight(DaysBack(b.timestamp, now))
       + c.amount * c.volume * weight(DaysBack(c.timestamp, now))
    ensures DecayedVolumeSum([a, b, c], now, weight)
      == a.volume * weight(DaysBack(a.timestamp, now))
       + b.volume * weight(DaysBack(b.timestamp, now))
       + c.volume * weight(DaysBack(c.timestamp, now))
  {
    assert [a, b, c][..2] == [a, b] && [a, b][..1] == [a] && [a][..0] == [];
    assert DecayedAmountSum([a], now, weight) == a.amount * a.volume * weight(DaysBack(a.timestamp, now));
    assert DecayedAmountSum([a, b], now, weight) == DecayedAmountSum([a], now, weight)
      + b.amount * b.volume * weight(DaysBack(b.timestamp, now));
    assert DecayedVolumeSum([a], now, weight) == a.volume * weight(DaysBack(a.timestamp, now));
    assert DecayedVolumeSum([a, b], now, weight) == DecayedVolumeSum([a], now, weight)
      + b.volume * weight(DaysBack(b.timestamp, now));
  }

  /** The unit test of the decayed variant, k = 3: prints at 10:00, 10:25 and
      10:30 of one day; the two older prints are weighted by `exp(-30/1440)`
      and `exp(-5/1440)` (the 0.979 and 0.996 of the test). */
  lemma TimeVolumeWeightedAverageTest(weight: real -> real)
    requires weight(0.0) == 1.0
    requires weight(-30.0 / 1440.0) > 0.0 && weight(-5.0 / 1440.0) > 0.0
    ensures var w1, w2 := weight(-30.0 / 1440.0), weight(-5.0 / 1440.0);
      FeedStamped(TimeVolumeWeightedAverage(3, []), TestStamps(), weight).0
      == Ok((100.0 * 10.0 * w1 + 200.0 * 20.0 * w2 + 300.0 * 30.0) / (10.0 * w1 + 20.0 * w2 + 30.0))
  {
    var xs := TestStamps();
    var now := xs[2].timestamp;
    var w1, w2 := weight(-30.0 / 1440.0), weight(-5.0 / 1440.0);
    TimeVolumeWeightedAverageWindow(3, xs, weight);
    assert Last(xs, 3) == xs;
    TestStampsDaysBack();
    ThreeSums(xs[0], xs[1], xs[2], now, weight);
    assert NotAfter(xs, now);
    var num := 100.0 * 10.0 * w1 + 200.0 * 20.0 * w2 + 300.0 * 30.0;
    var den := 10.0 * w1 + 20.0 * w2 + 30.0;
    RatioUnique(FeedStamped(TimeVolumeWeightedAverage(3, []), xs, weight).0.value, num, den);
  }

  /** (100, 10) at 10:00, (200, 20) at 10:25, (300, 30) at 10:30, in microseconds. */
  function TestStamps(): seq<Stamped> {
    [Stamped(100.0, 10.0, 36_000_000_000), Stamped(200.0, 20.0, 37_500_000_000),
     Stamped(300.0, 30.0, 37_800_000_000)]
  }

  lemma TestStampsDaysBack()
    ensures var xs := TestStamps();
      && DaysBack(xs[0].timestamp, xs[2].timestamp) == -30.0 / 1440.0
      && DaysBack(xs[1].timestamp, xs[2].timestamp) == -5.0 / 1440.0
      && DaysBack(xs[2].timestamp, xs[2].timestamp) == 0.0
  {
  }
}

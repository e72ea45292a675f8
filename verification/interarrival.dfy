/** `InterarrivalTime` of seven/feature_makers.py: the whole seconds elapsed
    since the previous print seen by the same maker. */
module Interarrival {
  import opened Wrappers
  import opened Records

  /** The timestamp of the previous print, once there has been one. */
  datatype InterarrivalTime = InterarrivalTime(last: Option<int>)

  /** Python's normalised `timedelta`: whole days (any sign), then seconds and
      microseconds within the day. */
  datatype Timedelta = Timedelta(days: int, seconds: int, microseconds: int)

  /** The `timedelta` of a span of microseconds: the unique normal form with
      seconds in [0, 86400) and microseconds in [0, 10^6). */
  function ToTimedelta(us: int): (d: Timedelta)
    ensures 0 <= d.seconds < 86_400 && 0 <= d.microseconds < MicrosPerSecond
    ensures (d.days * 86_400 + d.seconds) * MicrosPerSecond + d.microseconds == us
  {
    Timedelta(us / MicrosPerDay, (us % MicrosPerDay) / MicrosPerSecond, us % MicrosPerSecond)
  }

  /** `interval.days * 86400 + interval.seconds`: the span in whole seconds,
      rounded down (towards the past for a negative span); the microseconds are dropped. */
  function WholeSeconds(us: int): (secs: int)
    ensures secs * MicrosPerSecond <= us < (secs + 1) * MicrosPerSecond
    ensures secs >= 0 <==> us >= 0
  {
    var d := ToTimedelta(us);
    d.days * 86_400 + d.seconds
  }

  /** A whole number of seconds converts exactly. */
  lemma WholeSecondsExact(n: int)
    ensures WholeSeconds(n * MicrosPerSecond) == n
  {
    var secs := WholeSeconds(n * MicrosPerSecond);
    assert secs * MicrosPerSecond <= n * MicrosPerSecond < (secs + 1) * MicrosPerSecond;
  }

  /** One call: the gap to the previous print, then remember this print. */
  function Observe(s: InterarrivalTime, t: int): (r: (Result<int>, InterarrivalTime))
    // the first print has nothing to measure from, but is remembered
    ensures s.last.None? ==> r.0 == Err("no prior trace record") && r.1.last == Some(t)
    // going back in time fails the assertion on a sorted stream
    ensures s.last.Some? ==> (r.0.Fatal? <==> t < s.last.value)
    ensures s.last.Some? && r.0.Ok? ==>
      r.0.value * MicrosPerSecond <= t - s.last.value < (r.0.value + 1) * MicrosPerSecond
    ensures !r.0.Fatal? ==> r.1.last == Some(t)
    ensures !r.0.Err? || s.last.None?
  {
    match s.last
    case None => (Err("no prior trace record"), InterarrivalTime(Some(t)))
    case Some(last) =>
      var secs := WholeSeconds(t - last);
      if secs < 0 then (Fatal("assert interarrival_seconds >= 0.0"), s)
      else (Ok(secs), InterarrivalTime(Some(t)))
  }

  /** `make_features(trace_index, trace_record)`: the gap as the single
      feature `interarrival_seconds_size`. */
  function MakeFeatures(s: InterarrivalTime, record: TradeRecord): (r: (Result<FeatureMap>, InterarrivalTime))
    ensures r.1 == Observe(s, record.effectiveDateTime).1
    ensures r.0.Ok? <==> Observe(s, record.effectiveDateTime).0.Ok?
    ensures r.0.Ok? ==>
      && r.0.value.Keys == {"interarrival_seconds_size"}
      && r.0.value["interarrival_seconds_size"] == Real(Observe(s, record.effectiveDateTime).0.value as real)
    ensures !r.0.Ok? ==> r.0 == Observe(s, record.effectiveDateTime).0.PropagateFailure()
  {
    var (secs, s') := Observe(s, record.effectiveDateTime);
    match secs
    case Ok(n) => (Ok(map["interarrival_seconds_size" := Real(n as real)]), s')
    case Err(e) => (Err(e), s')
    case Fatal(a) => (Fatal(a), s')
  }

  /* ---------------- streams ---------------- */

  /** The results of a stream of calls, oldest first, and the final state. */
  function Run(s: InterarrivalTime, ts: seq<int>): (r: (seq<Result<int>>, InterarrivalTime))
    ensures |r.0| == |ts|
  {
    if |ts| == 0 then ([], s)
    else
      var (rs, before) := Run(s, ts[..|ts| - 1]);
      var (x, after) := Observe(before, ts[|ts| - 1]);
      (rs + [x], after)
  }

  /** Each print is no earlier than the one before it. */
  predicate Ascending(ts: seq<int>) {
    forall i :: 1 <= i < |ts| ==> ts[i - 1] <= ts[i]
  }

  /** On a stream in ascending time order, the first call is an error and every
      later call is the whole seconds since the print just before it. */
  lemma {:induction false} RunAscending(ts: seq<int>)
    requires |ts| > 0 && Ascending(ts)
    ensures Run(InterarrivalTime(None), ts).1.last == Some(ts[|ts| - 1])
    ensures Run(InterarrivalTime(None), ts).0[0] == Err("no prior trace record")
    ensures forall i :: 1 <= i < |ts| ==>
      Run(InterarrivalTime(None), ts).0[i] == Ok(WholeSeconds(ts[i] - ts[i - 1]))
  {
    if |ts| > 1 {
      AscendingFront(ts);
      RunAscending(ts[..|ts| - 1]);
      RunAscendingStep(ts);
    } else {
      RunOne(ts);
    }
  }

  /** A single print: nothing to measure from. */
  lemma RunOne(ts: seq<int>)
    requires |ts| == 1
    ensures Run(InterarrivalTime(None), ts).1.last == Some(ts[0])
    ensures Run(InterarrivalTime(None), ts).0 == [Err("no prior trace record")]
  {
    assert ts[..0] == [];
  }

  /** The inductive step: what holds of the front extends to the whole stream. */
  lemma RunAscendingStep(ts: seq<int>)
    requires |ts| > 1 && ts[|ts| - 2] <= ts[|ts| - 1]
    requires var front := ts[..|ts| - 1];
      && Run(InterarrivalTime(None), front).1.last == Some(front[|front| - 1])
      && Run(InterarrivalTime(None), front).0[0] == Err("no prior trace record")
      && forall i :: 1 <= i < |front| ==>
        Run(InterarrivalTime(None), front).0[i] == Ok(WholeSeconds(front[i] - front[i - 1]))
    ensures Run(InterarrivalTime(None), ts).1.last == Some(ts[|ts| - 1])
    ensures Run(InterarrivalTime(None), ts).0[0] == Err("no prior trace record")
    ensures forall i :: 1 <= i < |ts| ==>
      Run(InterarrivalTime(None), ts).0[i] == Ok(WholeSeconds(ts[i] - ts[i - 1]))
  {
    var front := ts[..|ts| - 1];
    var rs := Run(InterarrivalTime(None), ts).0;
    var fs := Run(InterarrivalTime(None), front).0;
    assert front[|front| - 1] == ts[|ts| - 2];
    RunLast(InterarrivalTime(None), ts);
    ExtendGaps(ts, fs, rs);
  }

  /** The front of an ascending stream is ascending, and ends no later than it. */
  lemma AscendingFront(ts: seq<int>)
    requires |ts| > 1 && Ascending(ts)
    ensures Ascending(ts[..|ts| - 1]) && ts[|ts| - 2] <= ts[|ts| - 1]
  {
    var front := ts[..|ts| - 1];
    forall i | 1 <= i < |front|
      ensures front[i - 1] <= front[i]
    {
      assert front[i - 1] == ts[i - 1] && front[i] == ts[i];
    }
  }

  /** The results of a stream are those of its front, then the last gap. */
  lemma ExtendGaps(ts: seq<int>, fs: seq<Result<int>>, rs: seq<Result<int>>)
    requires |ts| > 1 && |rs| == |ts| && rs[..|ts| - 1] == fs
    requires fs[0] == Err("no prior trace record")
    requires var front := ts[..|ts| - 1];
      forall i :: 1 <= i < |front| ==> fs[i] == Ok(WholeSeconds(front[i] - front[i - 1]))
    requires rs[|ts| - 1] == Ok(WholeSeconds(ts[|ts| - 1] - ts[|ts| - 2]))
    ensures rs[0] == Err("no prior trace record")
    ensures forall i :: 1 <= i < |ts| ==> rs[i] == Ok(WholeSeconds(ts[i] - ts[i - 1]))
  {
    var front := ts[..|ts| - 1];
    assert rs[0] == fs[0];
    forall i | 1 <= i < |ts|
      ensures rs[i] == Ok(WholeSeconds(ts[i] - ts[i - 1]))
    {
      if i < |ts| - 1 {
        assert rs[i] == fs[i];
        assert front[i] == ts[i] && front[i - 1] == ts[i - 1];
      }
    }
  }

  /** The last call of a stream in ascending order measures from the print
      before it. */
  lemma RunLast(s: InterarrivalTime, ts: seq<int>)
    requires |ts| > 1 && ts[|ts| - 2] <= ts[|ts| - 1]
    requires Run(s, ts[..|ts| - 1]).1.last == Some(ts[|ts| - 2])
    ensures Run(s, ts).1.last == Some(ts[|ts| - 1])
    ensures Run(s, ts).0[|ts| - 1] == Ok(WholeSeconds(ts[|ts| - 1] - ts[|ts| - 2]))
    ensures Run(s, ts).0[..|ts| - 1] == Run(s, ts[..|ts| - 1]).0
  {
  }

  /** The unit test: prints at 6:10:00, 6:10:00, 6:10:01, 6:10:20, 6:10:20 of one day. */
  lemma InterarrivalTimeTest()
    ensures var t0 := 22_200 * MicrosPerSecond;
      && Observe(InterarrivalTime(None), t0) == (Err("no prior trace record"), InterarrivalTime(Some(t0)))
      && Observe(InterarrivalTime(Some(t0)), t0) == (Ok(0), InterarrivalTime(Some(t0)))
      && Observe(InterarrivalTime(Some(t0)), t0 + MicrosPerSecond)
        == (Ok(1), InterarrivalTime(Some(t0 + MicrosPerSecond)))
      && Observe(InterarrivalTime(Some(t0 + MicrosPerSecond)), t0 + 20 * MicrosPerSecond)
        == (Ok(19), InterarrivalTime(Some(t0 + 20 * MicrosPerSecond)))
      && Observe(InterarrivalTime(Some(t0 + 20 * MicrosPerSecond)), t0 + 20 * MicrosPerSecond).0 == Ok(0)
  {
    WholeSecondsExact(0);
    WholeSecondsExact(1);
    WholeSecondsExact(19);
  }
}

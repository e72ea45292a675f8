/** `TargetMaker._make_targets_values` and `append_targets` of
    seven/target_maker.py: one row of identifiers and targets per accepted
    print, with a per-security interarrival clock. */
module TargetMaker {
  import opened Wrappers
  import opened Records
  import opened Text
  import opened Seqs
  import Interarrival

  /** One appended row of the targets table, indexed by its trace index. */
  datatype TargetRow = TargetRow(traceIndex: int, values: FeatureMap)

  /** The interarrival clock of each security (created on first use, as with
      a `defaultdict`), and the targets table built so far. */
  datatype TargetMaker = TargetMaker(clocks: map<string, Interarrival.InterarrivalTime>, targets: seq<TargetRow>)

  /** The clock of a security, fresh when it has none yet. */
  function Clock(clocks: map<string, Interarrival.InterarrivalTime>, cusip: string): Interarrival.InterarrivalTime {
    if cusip in clocks then clocks[cusip] else Interarrival.InterarrivalTime(None)
  }

  /** The identifier and target columns of one accepted print. */
  function Row(index: int, record: TradeRecord, oasspread: real, seconds: int): FeatureMap {
    map[
      "id_trace_index" := Int(index),
      "id_trade_type" := Text(record.tradeType),
      "id_oasspread" := Real(oasspread),
      "id_effectivedatetime" := Stamp(record.effectiveDateTime),
      "id_effectivedate" := Day(DayOf(record.effectiveDateTime)),
      "id_effectivetime" := ClockTime(TimeOfDay(record.effectiveDateTime)),
      "id_quantity" := FloatValue(record.quantity),
      "target_oasspread" := Real(oasspread),
      "target_interarrival_seconds" := Real(seconds as real)]
  }

  /** `_make_targets_values(trace_index, trace_record)`. The security's clock
      always advances first, so a print rejected afterwards still counts as the
      previous print of its security. */
  function MakeTargetsValues(tm: TargetMaker, index: int, record: TradeRecord): (r: (Result<FeatureMap>, TargetMaker))
    // the clock of this security is the only one that moves; the table is untouched
    ensures var step := Interarrival.Observe(Clock(tm.clocks, record.cusip), record.effectiveDateTime);
      && r.1.clocks == tm.clocks[record.cusip := step.1]
      && r.1.targets == tm.targets
    // an interarrival failure is reported with a prefix
    ensures var step := Interarrival.Observe(Clock(tm.clocks, record.cusip), record.effectiveDateTime);
      step.0.Err? ==> r.0 == Err("interarrivaltime: " + step.0.error)
    // a NaN spread is rejected after the clock has advanced
    ensures var step := Interarrival.Observe(Clock(tm.clocks, record.cusip), record.effectiveDateTime);
      step.0.Ok? && record.oasspread.NaN? ==> r.0 == Err("oasspread is NaN")
    // an unknown trade type fails the assertion
    ensures var step := Interarrival.Observe(Clock(tm.clocks, record.cusip), record.effectiveDateTime);
      step.0.Ok? && record.oasspread.Finite? && !IsRawTradeType(record.tradeType) ==> r.0.Fatal?
    // an interarrival exception passes through
    ensures var step := Interarrival.Observe(Clock(tm.clocks, record.cusip), record.effectiveDateTime);
      step.0.Fatal? ==> r.0 == Fatal(step.0.assertion)
    // a known gap, a finite spread and a raw trade type always give a row
    ensures var step := Interarrival.Observe(Clock(tm.clocks, record.cusip), record.effectiveDateTime);
      step.0.Ok? && record.oasspread.Finite? && IsRawTradeType(record.tradeType) ==> r.0.Ok?
    // success: the spread is both identifier and target, next to the gap and the trace index
    ensures r.0.Ok? ==>
      var step := Interarrival.Observe(Clock(tm.clocks, record.cusip), record.effectiveDateTime);
      && step.0.Ok? && record.oasspread.Finite? && IsRawTradeType(record.tradeType)
      && "target_oasspread" in r.0.value && "id_oasspread" in r.0.value
      && r.0.value["target_oasspread"] == r.0.value["id_oasspread"] == Real(record.oasspread.x)
      && "target_interarrival_seconds" in r.0.value
      && r.0.value["target_interarrival_seconds"] == Real(step.0.value as real)
      && "id_trace_index" in r.0.value && r.0.value["id_trace_index"] == Int(index)
  {
    var (seconds, clock') := Interarrival.Observe(Clock(tm.clocks, record.cusip), record.effectiveDateTime);
    var tm' := tm.(clocks := tm.clocks[record.cusip := clock']);
    match seconds
    case Fatal(a) => (Fatal(a), tm')
    case Err(e) => (Err("interarrivaltime: " + e), tm')
    case Ok(n) =>
      if record.oasspread.NaN? then (Err("oasspread is NaN"), tm')
      else if !IsRawTradeType(record.tradeType) then (Fatal("assert trade_type in ('B', 'D', 'S')"), tm')
      else (Ok(Row(index, record, record.oasspread.x, n)), tm')
  }

  /** `append_targets(trace_index, trace_record)`: `None` and one more row,
      or the error and the table as it was. */
  function AppendTargets(tm: TargetMaker, index: int, record: TradeRecord): (r: (Result<()>, TargetMaker))
    ensures r.1.clocks == MakeTargetsValues(tm, index, record).1.clocks
    ensures var made := MakeTargetsValues(tm, index, record).0;
      && (r.0.Ok? <==> made.Ok?)
      && (!made.Ok? ==> r.1.targets == tm.targets && r.0 == made.PropagateFailure())
      && (made.Ok? ==> r.1.targets == tm.targets + [TargetRow(index, made.value)])
  {
    var (values, tm') := MakeTargetsValues(tm, index, record);
    match values
    case Ok(v) => (Ok(()), tm'.(targets := tm'.targets + [TargetRow(index, v)]))
    case Err(e) => (Err(e), tm')
    case Fatal(a) => (Fatal(a), tm')
  }

  /* ---------------- streams ---------------- */

  /** A target maker before any print. */
  const Fresh: TargetMaker := TargetMaker(map[], [])

  /** Offer a stream of prints, oldest first, to `append_targets`, each under
      its own trace index. */
  function Run(tm: TargetMaker, xs: seq<TradeRecord>): (r: TargetMaker)
    ensures |r.targets| <= |tm.targets| + |xs|
  {
    if |xs| == 0 then tm
    else AppendTargets(Run(tm, xs[..|xs| - 1]), xs[|xs| - 1].index, xs[|xs| - 1]).1
  }

  /** The timestamps of the prints of one security, oldest first. */
  function TimesOf(xs: seq<TradeRecord>, cusip: string): seq<int> {
    if |xs| == 0 then []
    else
      var last := xs[|xs| - 1];
      TimesOf(xs[..|xs| - 1], cusip) + (if last.cusip == cusip then [last.effectiveDateTime] else [])
  }

  /** Each security's clock sees exactly that security's prints: its state is
      the interarrival state after those prints alone, whatever else was
      rejected or accepted in between. */
  lemma {:induction false} ClockPerSecurity(xs: seq<TradeRecord>, cusip: string)
    ensures Clock(Run(TargetMaker(map[], []), xs).clocks, cusip)
      == Interarrival.Run(Interarrival.InterarrivalTime(None), TimesOf(xs, cusip)).1
  {
    if |xs| > 0 {
      var front := xs[..|xs| - 1];
      var last := xs[|xs| - 1];
      ClockPerSecurity(front, cusip);
      var before := Run(TargetMaker(map[], []), front);
      var ts := TimesOf(front, cusip);
      if last.cusip == cusip {
        assert TimesOf(xs, cusip) == ts + [last.effectiveDateTime];
        assert (ts + [last.effectiveDateTime])[..|ts|] == ts;
      } else {
        assert TimesOf(xs, cusip) == ts;
      }
    }
  }

  /** Print `i` of the stream was accepted: its targets were made from the
      state the prints before it left. */
  predicate AcceptedAt(xs: seq<TradeRecord>, i: int)
    requires 0 <= i < |xs|
  {
    MakeTargetsValues(Run(Fresh, xs[..i]), xs[i].index, xs[i]).0.Ok?
  }

  /** The row print `p` of the stream contributes: its own trace index and the
      targets made for it. */
  predicate RowOf(xs: seq<TradeRecord>, p: int, row: TargetRow)
    requires 0 <= p < |xs|
  {
    var made := MakeTargetsValues(Run(Fresh, xs[..p]), xs[p].index, xs[p]).0;
    made.Ok? && row == TargetRow(xs[p].index, made.value)
  }

  /** Which prints of the stream were accepted. */
  function AcceptedFlags(xs: seq<TradeRecord>): (r: seq<bool>)
    ensures |r| == |xs|
    ensures forall i :: 0 <= i < |xs| ==> (r[i] <==> AcceptedAt(xs, i))
  {
    seq(|xs|, i requires 0 <= i < |xs| => AcceptedAt(xs, i))
  }

  /** The positions of the accepted prints, in stream order. */
  function Accepted(xs: seq<TradeRecord>): (r: seq<nat>)
    ensures forall k :: 0 <= k < |r| ==> r[k] < |xs| && AcceptedAt(xs, r[k])
    ensures forall k, l :: 0 <= k < l < |r| ==> r[k] < r[l]
    ensures forall i :: 0 <= i < |xs| && AcceptedAt(xs, i) ==> i in r
  {
    Positions(AcceptedFlags(xs))
  }

  /** Dropping the last print changes neither the acceptance nor the row of any
      earlier print. */
  lemma PrefixAccepted(xs: seq<TradeRecord>)
    requires |xs| > 0
    ensures forall i :: 0 <= i < |xs| - 1 ==> (AcceptedAt(xs[..|xs| - 1], i) <==> AcceptedAt(xs, i))
    ensures forall i, row :: 0 <= i < |xs| - 1 ==> (RowOf(xs[..|xs| - 1], i, row) <==> RowOf(xs, i, row))
  {
    forall i | 0 <= i < |xs| - 1
      ensures xs[..|xs| - 1][..i] == xs[..i] && xs[..|xs| - 1][i] == xs[i]
    {
    }
  }

  /** The last print adds its position to the accepted ones exactly when it is accepted. */
  lemma AcceptedSnoc(xs: seq<TradeRecord>)
    requires |xs| > 0
    ensures Accepted(xs) == Accepted(xs[..|xs| - 1]) + (if AcceptedAt(xs, |xs| - 1) then [|xs| - 1] else [])
  {
    PrefixAccepted(xs);
    assert AcceptedFlags(xs) == AcceptedFlags(xs[..|xs| - 1]) + [AcceptedAt(xs, |xs| - 1)];
    PositionsSnoc(AcceptedFlags(xs[..|xs| - 1]), AcceptedAt(xs, |xs| - 1));
  }

  /** The last print adds its row to the table exactly when it is accepted. */
  lemma RunSnoc(xs: seq<TradeRecord>)
    requires |xs| > 0
    ensures var rows := Run(Fresh, xs[..|xs| - 1]).targets;
      var after := Run(Fresh, xs).targets;
      && (AcceptedAt(xs, |xs| - 1) ==> |after| == |rows| + 1 && after[..|rows|] == rows && RowOf(xs, |xs| - 1, after[|rows|]))
      && (!AcceptedAt(xs, |xs| - 1) ==> after == rows)
  {
    var rows := Run(Fresh, xs[..|xs| - 1]).targets;
    var after := Run(Fresh, xs).targets;
    if AcceptedAt(xs, |xs| - 1) {
      assert after[..|rows|] == rows;
    }
  }

  /** The table holds one row per accepted print, in stream order, each under
      that print's own trace index and holding the targets made for it. */
  lemma {:induction false} RowsAreIndexed(xs: seq<TradeRecord>)
    ensures var rows := Run(Fresh, xs).targets;
      && |rows| == |Accepted(xs)|
      && forall k :: 0 <= k < |rows| ==> RowOf(xs, Accepted(xs)[k], rows[k])
  {
    if |xs| > 0 {
      var front := xs[..|xs| - 1];
      RowsAreIndexed(front);
      PrefixAccepted(xs);
      AcceptedSnoc(xs);
      RunSnoc(xs);
      var rows := Run(Fresh, front).targets;
      var accepted := Accepted(front);
      var after := Run(Fresh, xs).targets;
      forall k | 0 <= k < |rows|
        ensures RowOf(xs, accepted[k], rows[k]) && after[k] == rows[k]
      {
        assert RowOf(front, accepted[k], rows[k]);
        if AcceptedAt(xs, |xs| - 1) {
          assert after[..|rows|][k] == after[k];
        }
      }
    }
  }
}

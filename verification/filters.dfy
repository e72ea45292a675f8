/** `transform_trace_prints` of v1/features_targets.py: keep the prints on
    relevant dates, for the query security or one of its on-the-run
    securities, with a spread, and order them by time. */
module Filters {
  import opened Wrappers
  import opened Records

  /* ---------------- boolean masks ---------------- */

  /** `df.loc[mask]`: the records satisfying `p`, in their original order. */
  function Select(xs: seq<TradeRecord>, p: TradeRecord -> bool): (r: seq<TradeRecord>)
    ensures |r| <= |xs|
    ensures forall i :: 0 <= i < |r| ==> p(r[i])
  {
    if |xs| == 0 then []
    else
      var last := xs[|xs| - 1];
      Select(xs[..|xs| - 1], p) + (if p(last) then [last] else [])
  }

  /** A mask keeps every copy of a record it accepts and no copy of one it
      rejects. */
  lemma {:induction false} SelectCount(xs: seq<TradeRecord>, p: TradeRecord -> bool, x: TradeRecord)
    ensures multiset(Select(xs, p))[x] == if p(x) then multiset(xs)[x] else 0
  {
    if |xs| > 0 {
      var front := xs[..|xs| - 1];
      var last := xs[|xs| - 1];
      SelectCount(front, p, x);
      assert xs == front + [last];
    }
  }

  /** Applying two masks in turn is applying their conjunction. */
  lemma {:induction false} SelectSelect(xs: seq<TradeRecord>, p: TradeRecord -> bool, q: TradeRecord -> bool)
    ensures Select(Select(xs, p), q) == Select(xs, x => p(x) && q(x))
  {
    if |xs| > 0 {
      var front := xs[..|xs| - 1];
      var last := xs[|xs| - 1];
      SelectSelect(front, p, q);
      var s := Select(front, p);
      if p(last) {
        assert (s + [last])[..|s|] == s;
      } else {
        assert s + [] == s;
      }
    }
  }

  /* ---------------- the three masks ---------------- */

  /** The first relevant date: 100 calendar days before the selected date. */
  function FirstRelevantDay(selectedDay: int): int {
    selectedDay - 100
  }

  /** `select_relevant_dates`: the print is at or after midnight of the first
      relevant date. */
  predicate OnRelevantDate(firstDay: int, x: TradeRecord) {
    x.effectiveDateTime >= firstDay * MicrosPerDay
  }

  /** The query security, or a security that is on the run for it on some date. */
  predicate ForRelevantCusip(query: string, otr: map<int, string>, x: TradeRecord) {
    x.cusip == query || x.cusip in otr.Values
  }

  /** `select_valid_oasspreads`: the spread is not NaN. */
  predicate HasSpread(x: TradeRecord) {
    x.oasspread.Finite?
  }

  /** An on-the-run security with no print at all, although some print falls
      on a date for which it is named: the two input files disagree. */
  predicate FilesDisagree(xs: seq<TradeRecord>, otr: map<int, string>) {
    exists day :: day in otr
      && (forall i :: 0 <= i < |xs| ==> xs[i].cusip != otr[day])
      && (exists i :: 0 <= i < |xs| && DayOf(xs[i].effectiveDateTime) == day)
  }

  /** `select_relevant_cusips`: the prints of the query security and of its
      on-the-run securities. An on-the-run security with no print is skipped,
      unless a print falls on one of its dates, which is reported with
      `seven.logging.error`. */
  function SelectRelevantCusips(xs: seq<TradeRecord>, query: string, otr: map<int, string>)
    : (r: Result<seq<TradeRecord>>)
    ensures r.Fatal? <==> FilesDisagree(xs, otr)
    ensures !r.Err?
    ensures r.Ok? ==> r.value == Select(xs, x => ForRelevantCusip(query, otr, x))
  {
    if FilesDisagree(xs, otr) then Fatal("trace print and liq flow on the run files do not match")
    else Ok(Select(xs, x => ForRelevantCusip(query, otr, x)))
  }

  /* ---------------- ordering ---------------- */

  predicate SortedByTime(s: seq<TradeRecord>) {
    forall i, j :: 0 <= i < j < |s| ==> s[i].effectiveDateTime <= s[j].effectiveDateTime
  }

  /** Insert `x` into a time-ordered sequence, after every record no later than it. */
  function Insert(s: seq<TradeRecord>, x: TradeRecord): (r: seq<TradeRecord>)
    requires SortedByTime(s)
    ensures SortedByTime(r)
    ensures multiset(r) == multiset(s) + multiset{x}
    ensures forall i :: 0 <= i < |r| ==> r[i] == x || r[i] in s
  {
    if |s| == 0 then [x]
    else
      var front := s[..|s| - 1];
      var last := s[|s| - 1];
      if last.effectiveDateTime <= x.effectiveDateTime then
        SortedAppend(s, x);
        s + [x]
      else
        var r := Insert(front, x);
        InsertStep(s, x, r, r + [last]);
        r + [last]
  }

  /** The step of `Insert` that places `x` before the last record. */
  lemma InsertStep(s: seq<TradeRecord>, x: TradeRecord, r: seq<TradeRecord>, t: seq<TradeRecord>)
    requires |s| > 0 && SortedByTime(s)
    requires x.effectiveDateTime < s[|s| - 1].effectiveDateTime
    requires SortedByTime(r)
    requires multiset(r) == multiset(s[..|s| - 1]) + multiset{x}
    requires forall i :: 0 <= i < |r| ==> r[i] == x || r[i] in s[..|s| - 1]
    requires t == r + [s[|s| - 1]]
    ensures SortedByTime(t)
    ensures multiset(t) == multiset(s) + multiset{x}
    ensures forall i :: 0 <= i < |t| ==> t[i] == x || t[i] in s
  {
    var front := s[..|s| - 1];
    var last := s[|s| - 1];
    assert s == front + [last];
    forall i | 0 <= i < |r|
      ensures r[i].effectiveDateTime <= last.effectiveDateTime
    {
      if r[i] != x {
        var j :| 0 <= j < |front| && front[j] == r[i];
      }
    }
    SortedAppend(r, last);
  }

  /** A record no earlier than every record of a time-ordered sequence extends it. */
  lemma SortedAppend(r: seq<TradeRecord>, last: TradeRecord)
    requires SortedByTime(r)
    requires forall i :: 0 <= i < |r| ==> r[i].effectiveDateTime <= last.effectiveDateTime
    ensures SortedByTime(r + [last])
  {
  }

  /** `sort_values('effectivedatetime')`: the records ordered by time. */
  function SortByTime(xs: seq<TradeRecord>): (r: seq<TradeRecord>)
    ensures SortedByTime(r)
    ensures multiset(r) == multiset(xs)
  {
    if |xs| == 0 then []
    else
      assert xs == xs[..|xs| - 1] + [xs[|xs| - 1]];
      Insert(SortByTime(xs[..|xs| - 1]), xs[|xs| - 1])
  }

  /** Records already in time order are left as they are. */
  lemma {:induction false} SortSorted(xs: seq<TradeRecord>)
    requires SortedByTime(xs)
    ensures SortByTime(xs) == xs
  {
    if |xs| > 0 {
      var front := xs[..|xs| - 1];
      assert SortedByTime(front);
      SortSorted(front);
    }
  }

  /* ---------------- the whole transformation ---------------- */

  /** A print that survives all three masks. */
  predicate Relevant(query: string, selectedDay: int, otr: map<int, string>, x: TradeRecord) {
    && OnRelevantDate(FirstRelevantDay(selectedDay), x)
    && ForRelevantCusip(query, otr, x)
    && HasSpread(x)
  }

  /** `transform_trace_prints`: the three masks in turn, then the ordering.
      `otr` maps each date to the security on the run for the query security
      that day. */
  function TransformTracePrints(xs: seq<TradeRecord>, query: string, selectedDay: int, otr: map<int, string>)
    : (r: Result<seq<TradeRecord>>)
    ensures !r.Err?
    // the run stops exactly when the prints on relevant dates and the on-the-run table disagree
    ensures r.Fatal? <==> FilesDisagree(Select(xs, x => OnRelevantDate(FirstRelevantDay(selectedDay), x)), otr)
    ensures r.Ok? ==> SortedByTime(r.value)
  {
    var dated := Select(xs, x => OnRelevantDate(FirstRelevantDay(selectedDay), x));
    var cusips :- SelectRelevantCusips(dated, query, otr);
    var valid := Select(cusips, HasSpread);
    Ok(SortByTime(valid))
  }

  /** What the transformation keeps: exactly the relevant prints, every copy
      of each, so every kept print has a spread and a relevant date. */
  lemma TransformKeepsRelevant(xs: seq<TradeRecord>, query: string, selectedDay: int, otr: map<int, string>, x: TradeRecord)
    requires TransformTracePrints(xs, query, selectedDay, otr).Ok?
    ensures var r := TransformTracePrints(xs, query, selectedDay, otr).value;
      multiset(r)[x] == if Relevant(query, selectedDay, otr, x) then multiset(xs)[x] else 0
  {
    var dated := Select(xs, x => OnRelevantDate(FirstRelevantDay(selectedDay), x));
    var cusips := Select(dated, x => ForRelevantCusip(query, otr, x));
    SelectCount(xs, x => OnRelevantDate(FirstRelevantDay(selectedDay), x), x);
    SelectCount(dated, x => ForRelevantCusip(query, otr, x), x);
    SelectCount(cusips, HasSpread, x);
  }
}

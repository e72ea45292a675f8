/** The record loop of `do_work` in v1/features_targets.py: offer each
    time-ordered print to its security's features accumulator and, for the
    query security, to the targets accumulator, stopping after the selected
    date.

    The accumulators (seven/accumulators.py) are not part of this model; the
    loop is stated for any pair of accumulate functions returning `None` (as
    `Option.None`) or a list of errors, together with the next state. */
module Driver {
  import opened Wrappers
  import opened Records

  /** What happened to one print that the loop processed. */
  datatype Outcome =
    | FeatureErrors(errors: seq<string>)  // the features accumulator refused it
    | TargetErrors(errors: seq<string>)   // the targets accumulator refused it
    | Created                             // every accumulator it was offered accepted it

  /** The prints of one security, in order. */
  function OfCusip(xs: seq<TradeRecord>, cusip: string): seq<TradeRecord> {
    if |xs| == 0 then []
    else
      var last := xs[|xs| - 1];
      OfCusip(xs[..|xs| - 1], cusip) + (if last.cusip == cusip then [last] else [])
  }

  /** An accumulator's state after it has been offered `xs` in order, whatever
      each call returned. */
  function Fold<S>(s: S, accumulate: (S, int, TradeRecord) -> (Option<seq<string>>, S), xs: seq<TradeRecord>): S {
    if |xs| == 0 then s
    else accumulate(Fold(s, accumulate, xs[..|xs| - 1]), xs[|xs| - 1].index, xs[|xs| - 1]).1
  }

  /** The answer of the features accumulator of print `i`'s security to print
      `i`: that accumulator has seen exactly its security's earlier prints. */
  function FeatureAnswer<F>(
    xs: seq<TradeRecord>, i: nat, init: string -> F,
    accumulate: (F, int, TradeRecord) -> (Option<seq<string>>, F))
    : Option<seq<string>>
    requires i < |xs|
  {
    var c := xs[i].cusip;
    accumulate(Fold(init(c), accumulate, OfCusip(xs[..i], c)), xs[i].index, xs[i]).0
  }

  /** The prints before position `n` that reach the targets accumulator:
      those of the query security whose features were accepted. */
  function TargetInputs<F>(
    xs: seq<TradeRecord>, n: nat, query: string, init: string -> F,
    accumulate: (F, int, TradeRecord) -> (Option<seq<string>>, F))
    : seq<TradeRecord>
    requires n <= |xs|
  {
    if n == 0 then []
    else
      var reaches := xs[n - 1].cusip == query && FeatureAnswer(xs, n - 1, init, accumulate).None?;
      TargetInputs(xs, n - 1, query, init, accumulate) + (if reaches then [xs[n - 1]] else [])
  }

  /** The outcome of print `i`, from the states its accumulators reach on the
      earlier prints alone. */
  function Expected<F, T>(
    xs: seq<TradeRecord>, i: nat, query: string,
    init: string -> F, features: (F, int, TradeRecord) -> (Option<seq<string>>, F),
    t0: T, targets: (T, int, TradeRecord) -> (Option<seq<string>>, T))
    : Outcome
    requires i < |xs|
  {
    var answer := FeatureAnswer(xs, i, init, features);
    if answer.Some? then FeatureErrors(answer.value)
    else if xs[i].cusip != query then Created
    else
      var t := targets(Fold(t0, targets, TargetInputs(xs, i, query, init, features)), xs[i].index, xs[i]).0;
      if t.Some? then TargetErrors(t.value) else Created
  }

  /** The securities of the prints: one features accumulator each. */
  function Cusips(xs: seq<TradeRecord>): set<string> {
    set i | 0 <= i < |xs| :: xs[i].cusip
  }

  /** Appending a print of another security leaves a security's prints alone. */
  lemma OfCusipStep(xs: seq<TradeRecord>, i: nat, cusip: string)
    requires i < |xs|
    ensures OfCusip(xs[..i + 1], cusip)
      == OfCusip(xs[..i], cusip) + (if xs[i].cusip == cusip then [xs[i]] else [])
  {
    assert xs[..i + 1][..i] == xs[..i];
  }

  /** The outcomes of the first `n` prints. */
  function ExpectedLog<F, T>(
    xs: seq<TradeRecord>, n: nat, query: string,
    init: string -> F, features: (F, int, TradeRecord) -> (Option<seq<string>>, F),
    t0: T, targets: (T, int, TradeRecord) -> (Option<seq<string>>, T))
    : (r: seq<Outcome>)
    requires n <= |xs|
    ensures |r| == n
  {
    if n == 0 then []
    else ExpectedLog(xs, n - 1, query, init, features, t0, targets) + [Expected(xs, n - 1, query, init, features, t0, targets)]
  }

  /** Each entry of the expected log is the expected outcome of its print. */
  lemma {:induction false} ExpectedLogAt<F, T>(
    xs: seq<TradeRecord>, n: nat, query: string,
    init: string -> F, features: (F, int, TradeRecord) -> (Option<seq<string>>, F),
    t0: T, targets: (T, int, TradeRecord) -> (Option<seq<string>>, T), j: nat)
    requires j < n <= |xs|
    ensures ExpectedLog(xs, n, query, init, features, t0, targets)[j] == Expected(xs, j, query, init, features, t0, targets)
  {
    if j < n - 1 {
      ExpectedLogAt(xs, n - 1, query, init, features, t0, targets, j);
    }
  }

  /** The print falls on a day after the selected date: at or after the
      following midnight. */
  predicate After(x: TradeRecord, selectedDay: int) {
    x.effectiveDateTime >= (selectedDay + 1) * MicrosPerDay
  }

  /** `trace_record_date > selected_date`. */
  lemma AfterDay(x: TradeRecord, selectedDay: int)
    ensures After(x, selectedDay) <==> DayOf(x.effectiveDateTime) > selectedDay
  {
  }

  /** The accumulators and the outcomes so far. */
  datatype LoopState<F, T> = LoopState(features: map<string, F>, targets: T, log: seq<Outcome>)

  /** The loop over the first `n` prints, none of them after the selected
      date: every security's features accumulator starts fresh. */
  function Process<F, T>(
    xs: seq<TradeRecord>, n: nat, query: string,
    init: string -> F, accumulateFeatures: (F, int, TradeRecord) -> (Option<seq<string>>, F),
    t0: T, accumulateTargets: (T, int, TradeRecord) -> (Option<seq<string>>, T))
    : (r: LoopState<F, T>)
    requires n <= |xs|
    ensures r.features.Keys == Cusips(xs) && |r.log| == n
  {
    if n == 0 then LoopState(map c | c in Cusips(xs) :: init(c), t0, [])
    else
      var s := Process(xs, n - 1, query, init, accumulateFeatures, t0, accumulateTargets);
      assert xs[n - 1].cusip in Cusips(xs);
      var (features', targets', outcome) := Step(xs[n - 1], query, s.features, accumulateFeatures, s.targets, accumulateTargets);
      LoopState(features', targets', s.log + [outcome])
  }

  /** The first print after the selected date, or the end. */
  function StopPoint(xs: seq<TradeRecord>, selectedDay: int): (n: nat)
    ensures n <= |xs|
    ensures forall j :: 0 <= j < n ==> !After(xs[j], selectedDay)
    ensures n < |xs| ==> After(xs[n], selectedDay)
  {
    if |xs| == 0 then 0
    else
      var n := StopPoint(xs[..|xs| - 1], selectedDay);
      if n < |xs| - 1 || After(xs[|xs| - 1], selectedDay) then n else |xs|
  }

  /** The loop of `do_work`. `selectedDay` is the selected date; `init(c)` is
      the fresh features accumulator of security `c`, and `t0` the fresh
      targets accumulator. It stops at the first print after the selected
      date (the prints are in time order), so no later print is offered to
      any accumulator. */
  function DoWork<F, T>(
    xs: seq<TradeRecord>, query: string, selectedDay: int,
    init: string -> F, accumulateFeatures: (F, int, TradeRecord) -> (Option<seq<string>>, F),
    t0: T, accumulateTargets: (T, int, TradeRecord) -> (Option<seq<string>>, T))
    : (r: LoopState<F, T>)
    // one accumulator per security of the prints
    ensures r.features.Keys == Cusips(xs)
    // a prefix is processed: up to the first print after the selected date
    ensures |r.log| <= |xs|
    ensures forall i :: 0 <= i < |r.log| ==> !After(xs[i], selectedDay)
    ensures |r.log| < |xs| ==> After(xs[|r.log|], selectedDay)
  {
    Process(xs, StopPoint(xs, selectedDay), query, init, accumulateFeatures, t0, accumulateTargets)
  }

  /** What the loop leaves behind: each security's accumulator has seen
      exactly that security's processed prints; the targets accumulator has
      seen exactly the query security's processed prints whose features were
      accepted; and each outcome is the one those states give. */
  lemma {:induction false} ProcessAgrees<F, T>(
    xs: seq<TradeRecord>, n: nat, query: string,
    init: string -> F, accumulateFeatures: (F, int, TradeRecord) -> (Option<seq<string>>, F),
    t0: T, accumulateTargets: (T, int, TradeRecord) -> (Option<seq<string>>, T))
    requires n <= |xs|
    ensures var r := Process(xs, n, query, init, accumulateFeatures, t0, accumulateTargets);
      Agrees(xs, n, query, init, accumulateFeatures, t0, accumulateTargets, r.features, r.targets, r.log)
  {
    if n > 0 {
      ProcessAgrees(xs, n - 1, query, init, accumulateFeatures, t0, accumulateTargets);
      var s := Process(xs, n - 1, query, init, accumulateFeatures, t0, accumulateTargets);
      StepAgrees(xs, n - 1, query, init, accumulateFeatures, t0, accumulateTargets, s.features, s.targets, s.log);
    }
  }

  /** The state after the first `n` prints agrees with the reference states. */
  ghost predicate Agrees<F, T>(
    xs: seq<TradeRecord>, n: nat, query: string,
    init: string -> F, accumulateFeatures: (F, int, TradeRecord) -> (Option<seq<string>>, F),
    t0: T, accumulateTargets: (T, int, TradeRecord) -> (Option<seq<string>>, T),
    features: map<string, F>, targets: T, log: seq<Outcome>)
  {
    && n <= |xs|
    && features.Keys == Cusips(xs)
    && (forall c :: c in features ==> features[c] == Fold(init(c), accumulateFeatures, OfCusip(xs[..n], c)))
    && targets == Fold(t0, accumulateTargets, TargetInputs(xs, n, query, init, accumulateFeatures))
    && log == ExpectedLog(xs, n, query, init, accumulateFeatures, t0, accumulateTargets)
  }

  /** One pass of the loop body on print `x`: the new accumulators and its outcome. */
  function Step<F, T>(
    x: TradeRecord, query: string,
    features: map<string, F>, accumulateFeatures: (F, int, TradeRecord) -> (Option<seq<string>>, F),
    targets: T, accumulateTargets: (T, int, TradeRecord) -> (Option<seq<string>>, T))
    : (r: (map<string, F>, T, Outcome))
    requires x.cusip in features
    // only the print's own security's features accumulator advances, by this print
    ensures r.0 == features[x.cusip := accumulateFeatures(features[x.cusip], x.index, x).1]
    // a refused print is counted and never reaches the targets accumulator
    ensures accumulateFeatures(features[x.cusip], x.index, x).0.Some? ==>
      r.1 == targets && r.2 == FeatureErrors(accumulateFeatures(features[x.cusip], x.index, x).0.value)
    // an accepted print of another security creates a row and leaves the targets alone
    ensures accumulateFeatures(features[x.cusip], x.index, x).0.None? && x.cusip != query ==>
      r.1 == targets && r.2 == Created
    // an accepted print of the query security advances the targets accumulator
    ensures accumulateFeatures(features[x.cusip], x.index, x).0.None? && x.cusip == query ==>
      r.1 == accumulateTargets(targets, x.index, x).1
  {
    var (errors, f') := accumulateFeatures(features[x.cusip], x.index, x);
    var (outcome, t') := TargetStep(errors, x, query, targets, accumulateTargets);
    (features[x.cusip := f'], t', outcome)
  }

  /** One pass of the loop body keeps the state in agreement. */
  lemma StepAgrees<F, T>(
    xs: seq<TradeRecord>, i: nat, query: string,
    init: string -> F, accumulateFeatures: (F, int, TradeRecord) -> (Option<seq<string>>, F),
    t0: T, accumulateTargets: (T, int, TradeRecord) -> (Option<seq<string>>, T),
    features: map<string, F>, targets: T, log: seq<Outcome>)
    requires i < |xs|
    requires Agrees(xs, i, query, init, accumulateFeatures, t0, accumulateTargets, features, targets, log)
    ensures xs[i].cusip in features
    ensures var (features', targets', outcome) := Step(xs[i], query, features, accumulateFeatures, targets, accumulateTargets);
      Agrees(xs, i + 1, query, init, accumulateFeatures, t0, accumulateTargets, features', targets', log + [outcome])
  {
    assert xs[i].cusip in Cusips(xs);
    var x := xs[i];
    var (errors, f') := accumulateFeatures(features[x.cusip], x.index, x);
    assert errors == FeatureAnswer(xs, i, init, accumulateFeatures);
    var (outcome, t') := TargetStep(errors, x, query, targets, accumulateTargets);
    assert Step(x, query, features, accumulateFeatures, targets, accumulateTargets) == (features[x.cusip := f'], t', outcome);
    var next := features[x.cusip := f'];
    FeaturesStep(xs, i, features, init, accumulateFeatures);
    OutcomeStep(xs, i, query, init, accumulateFeatures, t0, accumulateTargets, targets);
    assert next.Keys == Cusips(xs);
    assert t' == Fold(t0, accumulateTargets, TargetInputs(xs, i + 1, query, init, accumulateFeatures));
    assert log + [outcome] == ExpectedLog(xs, i + 1, query, init, accumulateFeatures, t0, accumulateTargets);
  }

  /** The rest of one step: a refused print stops here; an accepted print of
      the query security is offered to the targets accumulator. */
  function TargetStep<T>(
    errors: Option<seq<string>>, x: TradeRecord, query: string,
    targets: T, accumulate: (T, int, TradeRecord) -> (Option<seq<string>>, T))
    : (r: (Outcome, T))
    // feature errors stop the step: the targets accumulator is not consulted
    ensures errors.Some? ==> r == (FeatureErrors(errors.value), targets)
    // another security's print creates a row without touching the targets accumulator
    ensures errors.None? && x.cusip != query ==> r == (Created, targets)
    // a query-security print is offered to the targets accumulator under its trace index
    ensures errors.None? && x.cusip == query ==>
      var (t, targets') := accumulate(targets, x.index, x);
      && r.1 == targets'
      && (r.0 == Created <==> t.None?)
      && (t.Some? ==> r.0 == TargetErrors(t.value))
  {
    if errors.Some? then (FeatureErrors(errors.value), targets)
    else if x.cusip != query then (Created, targets)
    else
      var (t, targets') := accumulate(targets, x.index, x);
      (if t.Some? then TargetErrors(t.value) else Created, targets')
  }

  /** One step of the loop gives the expected outcome and keeps the targets
      accumulator equal to its reference state. */
  lemma OutcomeStep<F, T>(
    xs: seq<TradeRecord>, i: nat, query: string,
    init: string -> F, features: (F, int, TradeRecord) -> (Option<seq<string>>, F),
    t0: T, targets: (T, int, TradeRecord) -> (Option<seq<string>>, T), t: T)
    requires i < |xs|
    requires t == Fold(t0, targets, TargetInputs(xs, i, query, init, features))
    ensures TargetStep(FeatureAnswer(xs, i, init, features), xs[i], query, t, targets)
      == (Expected(xs, i, query, init, features, t0, targets),
          Fold(t0, targets, TargetInputs(xs, i + 1, query, init, features)))
  {
    var ins := TargetInputs(xs, i + 1, query, init, features);
    var before := TargetInputs(xs, i, query, init, features);
    if xs[i].cusip == query && FeatureAnswer(xs, i, init, features).None? {
      assert ins == before + [xs[i]];
      assert ins[..|ins| - 1] == before && ins[|ins| - 1] == xs[i];
      assert Fold(t0, targets, ins) == targets(t, xs[i].index, xs[i]).1;
    } else {
      assert ins == before;
    }
  }

  /** One step of the loop keeps every security's accumulator equal to its
      reference state. */
  lemma FeaturesStep<F>(
    xs: seq<TradeRecord>, i: nat, features: map<string, F>,
    init: string -> F, accumulate: (F, int, TradeRecord) -> (Option<seq<string>>, F))
    requires i < |xs| && xs[i].cusip in features
    requires forall c :: c in features ==> features[c] == Fold(init(c), accumulate, OfCusip(xs[..i], c))
    ensures var next := features[xs[i].cusip := accumulate(features[xs[i].cusip], xs[i].index, xs[i]).1];
      forall c :: c in next ==> next[c] == Fold(init(c), accumulate, OfCusip(xs[..i + 1], c))
  {
    var next := features[xs[i].cusip := accumulate(features[xs[i].cusip], xs[i].index, xs[i]).1];
    forall c | c in next
      ensures next[c] == Fold(init(c), accumulate, OfCusip(xs[..i + 1], c))
    {
      OfCusipStep(xs, i, c);
      var ys := OfCusip(xs[..i + 1], c);
      if xs[i].cusip == c {
        assert ys[..|ys| - 1] == OfCusip(xs[..i], c);
      } else {
        assert ys == OfCusip(xs[..i], c);
      }
    }
  }

  /** `info['features and targets created for query cusip and date']`: the
      prints of the query security on the selected date that were accepted. */
  function CreatedOnDate(xs: seq<TradeRecord>, log: seq<Outcome>, query: string, selectedDay: int): (n: nat)
    requires |log| <= |xs|
    ensures n <= |log|
    ensures n > 0 <==> exists i :: 0 <= i < |log| && CreatedFor(xs, log, query, selectedDay, i)
  {
    if |log| == 0 then 0
    else
      var i := |log| - 1;
      var front := CreatedOnDate(xs, log[..i], query, selectedDay);
      assert forall j :: 0 <= j < i ==> (CreatedFor(xs, log[..i], query, selectedDay, j) <==> CreatedFor(xs, log, query, selectedDay, j));
      front + (if CreatedFor(xs, log, query, selectedDay, i) then 1 else 0)
  }

  /** Print `i` is of the query security, on the selected date, and was accepted. */
  predicate CreatedFor(xs: seq<TradeRecord>, log: seq<Outcome>, query: string, selectedDay: int, i: nat)
    requires |log| <= |xs|
  {
    i < |log| && log[i].Created? && xs[i].cusip == query && DayOf(xs[i].effectiveDateTime) == selectedDay
  }

  /** Only the query security's prints reach the targets accumulator, only
      after their features were accepted, and in their original order. */
  lemma {:induction false} TargetInputsAccepted<F>(
    xs: seq<TradeRecord>, n: nat, query: string, init: string -> F,
    accumulate: (F, int, TradeRecord) -> (Option<seq<string>>, F), k: nat)
    requires n <= |xs| && k < |TargetInputs(xs, n, query, init, accumulate)|
    ensures exists i :: (0 <= i < n && TargetInputs(xs, n, query, init, accumulate)[k] == xs[i]
      && xs[i].cusip == query && FeatureAnswer(xs, i, init, accumulate).None?)
  {
    var front := TargetInputs(xs, n - 1, query, init, accumulate);
    if k < |front| {
      TargetInputsAccepted(xs, n - 1, query, init, accumulate, k);
    } else {
      assert TargetInputs(xs, n, query, init, accumulate)[k] == xs[n - 1];
    }
  }

  /** A print whose features were refused never reaches the targets
      accumulator, and neither does a print of another security: offering
      such a print leaves the targets inputs as they were. */
  lemma TargetInputsSkip<F>(
    xs: seq<TradeRecord>, n: nat, query: string, init: string -> F,
    accumulate: (F, int, TradeRecord) -> (Option<seq<string>>, F))
    requires n < |xs|
    requires xs[n].cusip != query || FeatureAnswer(xs, n, init, accumulate).Some?
    ensures TargetInputs(xs, n + 1, query, init, accumulate) == TargetInputs(xs, n, query, init, accumulate)
  {
  }

  /** A security's prints in two consecutive runs of prints are its prints
      in the first, then its prints in the second. */
  lemma {:induction false} OfCusipPrefix(xs: seq<TradeRecord>, ys: seq<TradeRecord>, cusip: string)
    ensures OfCusip(xs + ys, cusip) == OfCusip(xs, cusip) + OfCusip(ys, cusip)
    decreases |ys|
  {
    if |ys| == 0 {
      assert xs + ys == xs;
    } else {
      var front := ys[..|ys| - 1];
      OfCusipPrefix(xs, front, cusip);
      assert (xs + ys)[..|xs + ys| - 1] == xs + front;
    }
  }
}

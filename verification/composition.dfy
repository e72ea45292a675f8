/** `TraceRecord.make_features` of seven/feature_makers.py: run a fixed tuple
    of feature makers over one print, in order, and merge their features. */
module Composition {
  import opened Wrappers
  import opened Records
  import opened Text

  /** A feature maker: its name and its `make_features(trace_index,
      trace_record, extra)`, which also advances the maker's own state `S`. */
  datatype Maker<!S> = Maker(name: string, make: (S, int, TradeRecord, FeatureMap) -> (Result<FeatureMap>, S))

  /** The one field one maker hands on to the makers after it. */
  const Propagated: string := "reclassified_trade_type"

  /** The outcome of a run: the merged features or the first failure, every
      maker's state afterwards, and the features of each maker that succeeded,
      in order. */
  datatype Composed<S> = Composed(result: Result<FeatureMap>, states: seq<S>, outputs: seq<FeatureMap>)

  /** `acc.update(m)` for each `m` of `ms` in turn: later makers win on a shared key. */
  function UnionAll(acc: FeatureMap, ms: seq<FeatureMap>): FeatureMap
    decreases |ms|
  {
    if |ms| == 0 then acc else UnionAll(acc + ms[0], ms[1..])
  }

  /** The propagated fields handed on after the makers that produced `fs`, in
      order: a later producer overwrites an earlier one. */
  function ExtraAfter(extra: FeatureMap, fs: seq<FeatureMap>): FeatureMap
    decreases |fs|
  {
    if |fs| == 0 then extra
    else
      var extra' := if Propagated in fs[0] then extra[Propagated := fs[0][Propagated]] else extra;
      ExtraAfter(extra', fs[1..])
  }

  /** The KeyError the source's propagation step raises. */
  const PropagationError: string := "KeyError: ('reclassified_trade_type',)"

  /** Makers `i`, `i + 1`, ... each ran once, from their state before the run,
      with the fields propagated by the makers before them, and returned the
      recorded features and final state. */
  ghost predicate RanInOrder<S>(
    makers: seq<Maker<S>>, states: seq<S>, i: nat, index: int, record: TradeRecord,
    extra: FeatureMap, r: Composed<S>)
    requires |states| == |makers| && |r.states| == |makers| && i + |r.outputs| <= |makers|
  {
    forall j :: 0 <= j < |r.outputs| ==>
      makers[i + j].make(states[i + j], index, record, ExtraAfter(extra, r.outputs[..j]))
        == (Ok(r.outputs[j]), r.states[i + j])
  }

  /** The maker after the recorded ones stopped the loop: it returned a routine
      error (reported with its name), an exception (passed through), or, as
      written, features holding the propagated field (the KeyError). */
  ghost predicate StoppedAt<S>(
    makers: seq<Maker<S>>, states: seq<S>, i: nat, index: int, record: TradeRecord,
    extra: FeatureMap, asWritten: bool, r: Composed<S>)
    requires |states| == |makers| && |r.states| == |makers| && i + |r.outputs| <= |makers|
  {
    var m := i + |r.outputs|;
    && m < |makers|
    && var (res, s') := makers[m].make(states[m], index, record, ExtraAfter(extra, r.outputs));
      && r.states[m] == s'
      && match res
         case Err(e) => r.result == Err(makers[m].name + ": " + e)
         case Fatal(a) => r.result == Fatal(a)
         case Ok(f) => asWritten && Propagated in f && r.result == Fatal(PropagationError)
  }

  /** The loop over the makers from position `i`, with the features merged so
      far in `acc` and the propagated fields in `extra`. `asWritten` selects the
      propagation step as the source writes it: it indexes the maker's features
      with the tuple of field names, not the field name, which raises a KeyError. */
  function Loop<S>(
    makers: seq<Maker<S>>, states: seq<S>, i: nat, index: int, record: TradeRecord,
    acc: FeatureMap, extra: FeatureMap, asWritten: bool)
    : (r: Composed<S>)
    requires |states| == |makers| && i <= |makers|
    ensures |r.states| == |makers| && i + |r.outputs| <= |makers|
    // makers before `i`, and makers after the one that stopped the loop, keep their state
    ensures forall j :: 0 <= j < i ==> r.states[j] == states[j]
    ensures forall j :: i + |r.outputs| < j < |makers| ==> r.states[j] == states[j]
    // the recorded features are exactly what the makers returned, in order
    ensures RanInOrder(makers, states, i, index, record, extra, r)
    // success: every maker ran and succeeded, and the features are their union
    ensures r.result.Ok? <==> i + |r.outputs| == |makers|
    ensures r.result.Ok? ==> r.result.value == UnionAll(acc, r.outputs)
    // otherwise the first maker that did not succeed decides the outcome
    ensures !r.result.Ok? ==> StoppedAt(makers, states, i, index, record, extra, asWritten, r)
    decreases |makers| - i
  {
    if i == |makers| then Composed(Ok(acc), states, [])
    else
      var (res, s') := makers[i].make(states[i], index, record, extra);
      var states' := states[i := s'];
      match res
      case Err(e) => Composed(Err(makers[i].name + ": " + e), states', [])
      case Fatal(a) => Composed(Fatal(a), states', [])
      case Ok(f) =>
        if Propagated in f && asWritten then
          Composed(Fatal(PropagationError), states', [])
        else
          var extra' := if Propagated in f then extra[Propagated := f[Propagated]] else extra;
          var rest := Loop(makers, states', i + 1, index, record, acc + f, extra', asWritten);
          var r := Composed(rest.result, rest.states, [f] + rest.outputs);
          LoopStep(makers, states, i, index, record, extra, asWritten, f, s', extra', rest, r);
          r
  }

  /** One maker's success followed by the rest of the loop is a run from `i`. */
  lemma LoopStep<S>(
    makers: seq<Maker<S>>, states: seq<S>, i: nat, index: int, record: TradeRecord,
    extra: FeatureMap, asWritten: bool, f: FeatureMap, s': S, extra': FeatureMap, rest: Composed<S>, r: Composed<S>)
    requires |states| == |makers| && i < |makers|
    requires makers[i].make(states[i], index, record, extra) == (Ok(f), s')
    requires extra' == if Propagated in f then extra[Propagated := f[Propagated]] else extra
    requires |rest.states| == |makers| && i + 1 + |rest.outputs| <= |makers|
    requires rest.states[i] == s'
    requires RanInOrder(makers, states[i := s'], i + 1, index, record, extra', rest)
    requires !rest.result.Ok? ==> StoppedAt(makers, states[i := s'], i + 1, index, record, extra', asWritten, rest)
    requires r == Composed(rest.result, rest.states, [f] + rest.outputs)
    ensures i + |r.outputs| == i + 1 + |rest.outputs|
    ensures RanInOrder(makers, states, i, index, record, extra, r)
    ensures !r.result.Ok? ==> StoppedAt(makers, states, i, index, record, extra, asWritten, r)
  {
    forall j | 0 <= j < |r.outputs|
      ensures makers[i + j].make(states[i + j], index, record, ExtraAfter(extra, r.outputs[..j]))
        == (Ok(r.outputs[j]), r.states[i + j])
    {
      if j > 0 {
        assert r.outputs[..j][1..] == rest.outputs[..j - 1];
        assert r.outputs[j] == rest.outputs[j - 1];
      }
    }
    assert r.outputs[1..] == rest.outputs;
    assert ExtraAfter(extra, r.outputs) == ExtraAfter(extra', rest.outputs);
  }

  /** `make_features(trace_index, trace_record)` as corrected: the propagated
      field's value is handed on to the later makers. */
  function MakeFeatures<S>(makers: seq<Maker<S>>, states: seq<S>, index: int, record: TradeRecord)
    : (r: Composed<S>)
    requires |states| == |makers|
    ensures |r.states| == |makers| && |r.outputs| <= |makers|
    ensures RanInOrder(makers, states, 0, index, record, map[], r)
    ensures r.result.Ok? <==> |r.outputs| == |makers|
    ensures r.result.Ok? ==> r.result.value == UnionAll(map[], r.outputs)
    ensures !r.result.Ok? ==> StoppedAt(makers, states, 0, index, record, map[], false, r)
    ensures forall j :: |r.outputs| < j < |makers| ==> r.states[j] == states[j]
  {
    Loop(makers, states, 0, index, record, map[], map[], false)
  }

  /** `make_features(trace_index, trace_record)` as the source writes it. */
  function MakeFeaturesAsWritten<S>(makers: seq<Maker<S>>, states: seq<S>, index: int, record: TradeRecord)
    : (r: Composed<S>)
    requires |states| == |makers|
    ensures |r.states| == |makers| && |r.outputs| <= |makers|
    ensures RanInOrder(makers, states, 0, index, record, map[], r)
    ensures r.result.Ok? <==> |r.outputs| == |makers|
    ensures r.result.Ok? ==> r.result.value == UnionAll(map[], r.outputs)
    ensures !r.result.Ok? ==> StoppedAt(makers, states, 0, index, record, map[], true, r)
    ensures forall j :: |r.outputs| < j < |makers| ==> r.states[j] == states[j]
  {
    Loop(makers, states, 0, index, record, map[], map[], true)
  }

  /** A feature is in the union exactly when some maker produced it. */
  lemma {:induction false} UnionAllKeys(acc: FeatureMap, ms: seq<FeatureMap>, key: string)
    ensures key in UnionAll(acc, ms) <==> key in acc || exists j :: 0 <= j < |ms| && key in ms[j]
    decreases |ms|
  {
    if |ms| > 0 {
      UnionAllKeys(acc + ms[0], ms[1..], key);
      if exists j :: 0 <= j < |ms[1..]| && key in ms[1..][j] {
        var j :| 0 <= j < |ms[1..]| && key in ms[1..][j];
        assert key in ms[j + 1];
      }
      if exists j :: 0 <= j < |ms| && key in ms[j] {
        var j :| 0 <= j < |ms| && key in ms[j];
        if j > 0 {
          assert key in ms[1..][j - 1];
        }
      }
    }
  }

  /** A feature's value in the union is the one of the last maker that produced it. */
  lemma {:induction false} UnionAllLastWins(acc: FeatureMap, ms: seq<FeatureMap>, key: string, j: nat)
    requires j < |ms| && key in ms[j]
    requires forall l :: j < l < |ms| ==> key !in ms[l]
    ensures key in UnionAll(acc, ms) && UnionAll(acc, ms)[key] == ms[j][key]
    decreases |ms|
  {
    if j == 0 {
      UnionAllKeep(acc + ms[0], ms[1..], key);
    } else {
      forall l | j - 1 < l < |ms[1..]|
        ensures key !in ms[1..][l]
      {
        assert ms[1..][l] == ms[l + 1];
      }
      UnionAllLastWins(acc + ms[0], ms[1..], key, j - 1);
    }
  }

  /** Maps that do not mention a key leave its value alone. */
  lemma {:induction false} UnionAllKeep(acc: FeatureMap, ms: seq<FeatureMap>, key: string)
    requires key in acc
    requires forall l :: 0 <= l < |ms| ==> key !in ms[l]
    ensures key in UnionAll(acc, ms) && UnionAll(acc, ms)[key] == acc[key]
    decreases |ms|
  {
    if |ms| > 0 {
      forall l | 0 <= l < |ms[1..]|
        ensures key !in ms[1..][l]
      {
        assert ms[1..][l] == ms[l + 1];
      }
      UnionAllKeep(acc + ms[0], ms[1..], key);
    }
  }

  /** No maker from position `i` on ever emits the propagated field. */
  ghost predicate NeverPropagates<S(!new)>(makers: seq<Maker<S>>, i: nat) {
    forall s, n, x, e, j :: i <= j < |makers| && makers[j].make(s, n, x, e).0.Ok? ==>
      Propagated !in makers[j].make(s, n, x, e).0.value
  }

  lemma NeverPropagatesAt<S(!new)>(makers: seq<Maker<S>>, i: nat, j: nat, s: S, n: int, x: TradeRecord, e: FeatureMap)
    requires NeverPropagates(makers, i) && i <= j < |makers|
    ensures NeverPropagates(makers, j + 1)
    ensures makers[j].make(s, n, x, e).0.Ok? ==> Propagated !in makers[j].make(s, n, x, e).0.value
  {
  }

  /** When no maker produces the propagated field, the source's propagation
      step is never reached and both versions agree. */
  lemma {:induction false} AgreeWithoutPropagation<S(!new)>(
    makers: seq<Maker<S>>, states: seq<S>, i: nat, index: int, record: TradeRecord, acc: FeatureMap, extra: FeatureMap)
    requires |states| == |makers| && i <= |makers|
    requires NeverPropagates(makers, i)
    ensures Loop(makers, states, i, index, record, acc, extra, true)
      == Loop(makers, states, i, index, record, acc, extra, false)
    decreases |makers| - i
  {
    if i < |makers| {
      var (res, s') := makers[i].make(states[i], index, record, extra);
      match res
      case Err(e) =>
        assert Loop(makers, states, i, index, record, acc, extra, true) == Composed(Err(makers[i].name + ": " + e), states[i := s'], []);
        assert Loop(makers, states, i, index, record, acc, extra, false) == Composed(Err(makers[i].name + ": " + e), states[i := s'], []);
      case Fatal(a) =>
        assert Loop(makers, states, i, index, record, acc, extra, true) == Composed(Fatal(a), states[i := s'], []);
        assert Loop(makers, states, i, index, record, acc, extra, false) == Composed(Fatal(a), states[i := s'], []);
      case Ok(f) =>
        NeverPropagatesAt(makers, i, i, states[i], index, record, extra);
        var rest := Loop(makers, states[i := s'], i + 1, index, record, acc + f, extra, true);
        AgreeWithoutPropagation(makers, states[i := s'], i + 1, index, record, acc + f, extra);
        assert Loop(makers, states, i, index, record, acc, extra, true) == Composed(rest.result, rest.states, [f] + rest.outputs);
        assert Loop(makers, states, i, index, record, acc, extra, false) == Composed(rest.result, rest.states, [f] + rest.outputs);
    }
  }

  /* ---------------- the propagation bug, on two makers ---------------- */

  /** A first maker that reclassifies every print as a buy. */
  function Reclassify(s: int, index: int, record: TradeRecord, extra: FeatureMap): (Result<FeatureMap>, int) {
    (Ok(map[Propagated := Text("B")]), s + 1)
  }

  /** A second maker that reads the propagated side. */
  function ReadSide(s: int, index: int, record: TradeRecord, extra: FeatureMap): (Result<FeatureMap>, int) {
    if Propagated in extra then (Ok(map["p_side" := extra[Propagated]]), s + 1)
    else (Err("no reclassified trade type"), s + 1)
  }

  function TwoMakers(): seq<Maker<int>> {
    [Maker("Reclassify", Reclassify), Maker("ReadSide", ReadSide)]
  }

  /** As written, a maker that emits the propagated field stops the run with a
      KeyError, and the second maker never runs; corrected, the second maker
      receives the side and both features are produced. */
  lemma PropagationCounterexample(record: TradeRecord)
    ensures MakeFeaturesAsWritten(TwoMakers(), [0, 0], 7, record).result.Fatal?
    ensures MakeFeaturesAsWritten(TwoMakers(), [0, 0], 7, record).states == [1, 0]
    ensures var r := MakeFeatures(TwoMakers(), [0, 0], 7, record).result;
      r.Ok? && r.value == map[Propagated := Text("B"), "p_side" := Text("B")]
  {
    var r := MakeFeatures(TwoMakers(), [0, 0], 7, record);
    assert r.outputs == [map[Propagated := Text("B")], map["p_side" := Text("B")]];
  }
}

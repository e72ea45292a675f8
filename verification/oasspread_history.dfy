/** `OasspreadHistory` of seven/feature_makers.py: two depth-`k` FIFOs of
    past spreads, one per reclassified side, exposed as `p_oasspread_*` features. */
module OasspreadHistory {
  import opened Wrappers
  import opened Window
  import opened Text
  import opened Records

  /** The spreads of the last `k` buys and the last `k` sells, oldest first. */
  datatype History = History(k: nat, buys: seq<Float>, sells: seq<Float>) {
    predicate Valid() {
      |buys| <= k && |sells| <= k
    }
  }

  /** The constructor: `deque(maxlen=k)` refuses a negative `k`. */
  function NewHistory(k: int): (r: Result<History>)
    ensures r.Ok? <==> k >= 0
    ensures r.Ok? ==> r.value.Valid() && r.value.k == k && r.value.buys == [] && r.value.sells == []
    ensures !r.Ok? ==> r.Fatal?
  {
    if k >= 0 then Ok(History(k, [], [])) else Fatal("ValueError: maxlen must be non-negative")
  }

  /** `'p_oasspread_%s_back_%02d' % (side, back)`. */
  function Key(side: string, back: nat): string {
    "p_oasspread_" + side + "_back_" + Digits(back, 2)
  }

  /** The side letter of a feature key. */
  function SideOf(key: string): string {
    if |key| >= 13 then key[12..13] else ""
  }

  /** The distance back written at the end of a feature key. */
  function BackOf(key: string): nat {
    if |key| >= 19 && AllDigits(key[19..]) then ParseNat(key[19..]) else 0
  }

  /** A key names its side and its distance back, so different sides or
      different distances never share a key. */
  lemma KeyDecode(side: string, back: nat)
    requires |side| == 1
    ensures SideOf(Key(side, back)) == side && BackOf(Key(side, back)) == back
  {
    var key := Key(side, back);
    assert key[12..13] == side;
    assert key[19..] == Digits(back, 2);
    ParseDigits(back, 2);
  }

  /** Every key of `r` names `side` and a distance back from 1 to `n`. */
  predicate SideKeys(r: FeatureMap, side: string, n: int) {
    forall key :: key in r ==> SideOf(key) == side && 1 <= BackOf(key) <= n
  }

  /** `r` holds, for every distance back `b` from 1 to `|h| - i`, the spread
      `b` trades back in `h` under the key of `side`. */
  predicate HoldsSide(r: FeatureMap, side: string, h: seq<Float>, i: nat) {
    forall b :: 1 <= b <= |h| - i ==> Key(side, b) in r && r[Key(side, b)] == FloatValue(h[|h| - b])
  }

  /** Every key of `r` names one of the two sides and a distance back from 1 to `k`. */
  predicate KeysNamed(r: FeatureMap, k: nat) {
    forall key :: key in r ==> (SideOf(key) == "B" || SideOf(key) == "S") && 1 <= BackOf(key) <= k
  }

  /** The features of one full buffer `h`, built for positions `i..` as the
      source's loop does: position `i` is `|h| - i` trades back. */
  function SideFeatures(side: string, h: seq<Float>, i: nat): (r: FeatureMap)
    requires |side| == 1 && i <= |h|
    ensures |r| == |h| - i
    ensures SideKeys(r, side, |h| - i)
    ensures HoldsSide(r, side, h, i)
    decreases |h| - i
  {
    if i == |h| then map[]
    else
      var rest := SideFeatures(side, h, i + 1);
      SideStep(side, h, i, rest);
      rest[Key(side, |h| - i) := FloatValue(h[i])]
  }

  /** Adding position `i`, `|h| - i` trades back, to the features of the
      positions after it. */
  lemma SideStep(side: string, h: seq<Float>, i: nat, rest: FeatureMap)
    requires |side| == 1 && i < |h|
    requires |rest| == |h| - i - 1
    requires SideKeys(rest, side, |h| - i - 1)
    requires HoldsSide(rest, side, h, i + 1)
    ensures var r := rest[Key(side, |h| - i) := FloatValue(h[i])];
      |r| == |h| - i && SideKeys(r, side, |h| - i) && HoldsSide(r, side, h, i)
  {
    var key := Key(side, |h| - i);
    KeyDecode(side, |h| - i);
    assert key !in rest;
  }

  /** Both sides' features: `2k` entries, as no key is shared between sides. */
  function Features(s: History): (r: FeatureMap)
    requires s.Valid() && |s.buys| == s.k && |s.sells| == s.k
    ensures |r| == 2 * s.k
    ensures KeysNamed(r, s.k)
    ensures HoldsSide(r, "B", s.buys, 0) && HoldsSide(r, "S", s.sells, 0)
  {
    var fb := SideFeatures("B", s.buys, 0);
    var fs := SideFeatures("S", s.sells, 0);
    SidesUnion(fb, fs, s.k, s.buys, s.sells);
    fb + fs
  }

  /** The union of one buy map and one sell map, each with a key per
      distance back. */
  lemma SidesUnion(fb: FeatureMap, fs: FeatureMap, k: nat, buys: seq<Float>, sells: seq<Float>)
    requires |buys| == k && |sells| == k && |fb| == k && |fs| == k
    requires SideKeys(fb, "B", k) && SideKeys(fs, "S", k)
    requires HoldsSide(fb, "B", buys, 0) && HoldsSide(fs, "S", sells, 0)
    ensures |fb + fs| == 2 * k
    ensures KeysNamed(fb + fs, k)
    ensures HoldsSide(fb + fs, "B", buys, 0) && HoldsSide(fb + fs, "S", sells, 0)
  {
    SidesDisjoint(fb, fs);
    UnionSize(fb, fs);
    forall b | 1 <= b <= k
      ensures Key("B", b) !in fs
    {
      KeyDecode("B", b);
    }
  }

  /** Maps whose keys name different sides share no key. */
  lemma SidesDisjoint(fb: FeatureMap, fs: FeatureMap)
    requires forall key :: key in fb ==> SideOf(key) == "B"
    requires forall key :: key in fs ==> SideOf(key) == "S"
    ensures fb.Keys * fs.Keys == {}
  {
    forall key | key in fb.Keys
      ensures key !in fs.Keys
    {
      assert SideOf(key) == "B";
    }
  }

  lemma UnionSize<K, V>(a: map<K, V>, b: map<K, V>)
    requires a.Keys * b.Keys == {}
    ensures |a + b| == |a| + |b|
  {
    assert (a + b).Keys == a.Keys + b.Keys;
  }

  /** `accumulate_history`: append the print's spread to its side's buffer. */
  function Accumulate(s: History, side: string, oasspread: Float): (r: History)
    requires s.Valid()
    ensures r.Valid() && r.k == s.k
  {
    if side == "B" then s.(buys := Push(s.buys, oasspread, s.k))
    else s.(sells := Push(s.sells, oasspread, s.k))
  }

  function ShortMessage(side: string, k: nat): string {
    "history for trade type " + side + " has length less than " + Digits(k, 0)
  }

  /** `make_features(trace_index, trace_record, reclassified_trade_type)`. */
  function MakeFeatures(s: History, record: TradeRecord, side: string)
    : (r: (Result<FeatureMap>, History))
    requires s.Valid()
    ensures r.1.Valid() && r.1.k == s.k
    ensures !r.0.Fatal?
    // an unknown side is rejected and both buffers are left alone
    ensures !IsReclassifiedTradeType(side) ==> r.0.Err? && r.1 == s
    // a known side always appends its spread, whether or not features are produced
    ensures IsReclassifiedTradeType(side) ==>
      && r.1.buys == (if side == "B" then Push(s.buys, record.oasspread, s.k) else s.buys)
      && r.1.sells == (if side == "S" then Push(s.sells, record.oasspread, s.k) else s.sells)
    // features exactly when both buffers were full before the append
    ensures r.0.Ok? <==> IsReclassifiedTradeType(side) && |s.buys| == s.k && |s.sells| == s.k
    // back_01 is the most recent spread of its side, back_k the oldest
    ensures r.0.Ok? ==>
      && |r.0.value| == 2 * s.k
      && KeysNamed(r.0.value, s.k)
      && HoldsSide(r.0.value, "B", s.buys, 0) && HoldsSide(r.0.value, "S", s.sells, 0)
  {
    if !IsReclassifiedTradeType(side) then
      (Err("no history is created for reclassified trade types " + side), s)
    else if |s.buys| < s.k then
      (Err(ShortMessage("B", s.k)), Accumulate(s, side, record.oasspread))
    else if |s.sells| < s.k then
      (Err(ShortMessage("S", s.k)), Accumulate(s, side, record.oasspread))
    else
      (Ok(Features(s)), Accumulate(s, side, record.oasspread))
  }

  /* ---------------- streams ---------------- */

  /** One call: a print and the side the reclassifier gave it. */
  datatype Input = Input(record: TradeRecord, side: string)

  /** Feed a non-empty stream of inputs, oldest first: the result of the last
      call and the final state. */
  function Feed(s: History, xs: seq<Input>): (r: (Result<FeatureMap>, History))
    requires s.Valid() && |xs| > 0
    ensures r.1.Valid() && r.1.k == s.k
  {
    var before := if |xs| == 1 then s else Feed(s, xs[..|xs| - 1]).1;
    MakeFeatures(before, xs[|xs| - 1].record, xs[|xs| - 1].side)
  }

  /** The spreads of the inputs reclassified to `side`, oldest first. */
  function SpreadsOf(xs: seq<Input>, side: string): (r: seq<Float>)
    ensures |r| <= |xs|
  {
    if |xs| == 0 then []
    else
      var last := xs[|xs| - 1];
      SpreadsOf(xs[..|xs| - 1], side) + (if last.side == side then [last.record.oasspread] else [])
  }

  /** Each buffer holds exactly the last `k` spreads of its side: inputs with
      any other side never reach either buffer. */
  lemma {:induction false} FeedHistory(k: nat, xs: seq<Input>)
    requires |xs| > 0
    ensures Feed(History(k, [], []), xs).1.buys == Last(SpreadsOf(xs, "B"), k)
    ensures Feed(History(k, [], []), xs).1.sells == Last(SpreadsOf(xs, "S"), k)
  {
    var front := xs[..|xs| - 1];
    var x := xs[|xs| - 1];
    var start := History(k, [], []);
    var before := if |xs| == 1 then start else Feed(start, front).1;
    var bs, ss := SpreadsOf(front, "B"), SpreadsOf(front, "S");
    if |xs| > 1 {
      FeedHistory(k, front);
    } else {
      assert bs == [] && ss == [];
    }
    assert before.buys == Last(bs, k) && before.sells == Last(ss, k);
    var after := Feed(start, xs).1;
    assert after == MakeFeatures(before, x.record, x.side).1;
    if x.side == "B" {
      assert SpreadsOf(xs, "B") == bs + [x.record.oasspread] && SpreadsOf(xs, "S") == ss;
      PushLast(bs, x.record.oasspread, k);
    } else if x.side == "S" {
      assert SpreadsOf(xs, "S") == ss + [x.record.oasspread] && SpreadsOf(xs, "B") == bs;
      PushLast(ss, x.record.oasspread, k);
    } else {
      assert SpreadsOf(xs, "B") == bs && SpreadsOf(xs, "S") == ss;
    }
  }

  /** Features appear exactly once both sides have been seen at least `k`
      times before the current print. */
  lemma FeedReady(k: nat, xs: seq<Input>)
    requires |xs| > 1
    ensures var front := xs[..|xs| - 1];
      Feed(History(k, [], []), xs).0.Ok? <==>
        && IsReclassifiedTradeType(xs[|xs| - 1].side)
        && |SpreadsOf(front, "B")| >= k && |SpreadsOf(front, "S")| >= k
  {
    FeedHistory(k, xs[..|xs| - 1]);
  }

  /* ---------------- the unit test, k = 2 ---------------- */

  function Print(oasspread: real): TradeRecord {
    TradeRecord(0, "", 0, Finite(oasspread), NaN, NaN, "")
  }

  /** The call succeeded with the four features `b02 b01 s02 s01`. */
  predicate Shows(r: Result<FeatureMap>, b02: real, b01: real, s02: real, s01: real) {
    && r.Ok?
    && Key("B", 2) in r.value && r.value[Key("B", 2)] == Real(b02)
    && Key("B", 1) in r.value && r.value[Key("B", 1)] == Real(b01)
    && Key("S", 2) in r.value && r.value[Key("S", 2)] == Real(s02)
    && Key("S", 1) in r.value && r.value[Key("S", 1)] == Real(s01)
  }

  function F(x: real): Float {
    Finite(x)
  }

  /** The first four prints of the test: the buy buffer is still short. */
  lemma OasspreadHistoryTestFilling()
    ensures MakeFeatures(History(2, [], []), Print(100.0), "B") == (Err(ShortMessage("B", 2)), History(2, [F(100.0)], []))
    ensures MakeFeatures(History(2, [F(100.0)], []), Print(103.0), "S") == (Err(ShortMessage("B", 2)), History(2, [F(100.0)], [F(103.0)]))
    ensures MakeFeatures(History(2, [F(100.0)], [F(103.0)]), Print(104.0), "S")
      == (Err(ShortMessage("B", 2)), History(2, [F(100.0)], [F(103.0), F(104.0)]))
    ensures MakeFeatures(History(2, [F(100.0)], [F(103.0), F(104.0)]), Print(101.0), "B")
      == (Err(ShortMessage("B", 2)), History(2, [F(100.0), F(101.0)], [F(103.0), F(104.0)]))
  {
    assert IsReclassifiedTradeType("B") && IsReclassifiedTradeType("S");
    assert Push([], F(100.0), 2) == [F(100.0)];
    assert Push([], F(103.0), 2) == [F(103.0)];
    assert Push([F(103.0)], F(104.0), 2) == [F(103.0), F(104.0)];
    assert Push([F(100.0)], F(101.0), 2) == [F(100.0), F(101.0)];
  }


  /** With both buffers of depth 2 full, the four features name the spreads
      oldest (`back_02`) to newest (`back_01`). */
  lemma ShowsFull(s: History, record: TradeRecord, side: string, b02: real, b01: real, s02: real, s01: real)
    requires s.k == 2 && s.buys == [F(b02), F(b01)] && s.sells == [F(s02), F(s01)]
    requires IsReclassifiedTradeType(side)
    ensures Shows(MakeFeatures(s, record, side).0, b02, b01, s02, s01)
  {
    var r := MakeFeatures(s, record, side).0;
    assert r.Ok?;
    assert Key("B", 1) in r.value && r.value[Key("B", 1)] == FloatValue(s.buys[1]);
    assert Key("B", 2) in r.value && r.value[Key("B", 2)] == FloatValue(s.buys[0]);
    assert Key("S", 1) in r.value && r.value[Key("S", 1)] == FloatValue(s.sells[1]);
    assert Key("S", 2) in r.value && r.value[Key("S", 2)] == FloatValue(s.sells[0]);
  }

  /** The last five prints of the test: both buffers full, features built
      from the buffers before the append. */
  lemma OasspreadHistoryTest5()
    ensures Shows(MakeFeatures(History(2, [F(100.0), F(101.0)], [F(103.0), F(104.0)]), Print(102.0), "B").0, 100.0, 101.0, 103.0, 104.0)
  {
    ShowsFull(History(2, [F(100.0), F(101.0)], [F(103.0), F(104.0)]), Print(102.0), "B", 100.0, 101.0, 103.0, 104.0);
  }

  lemma OasspreadHistoryTest6()
    ensures Shows(MakeFeatures(History(2, [F(101.0), F(102.0)], [F(103.0), F(104.0)]), Print(105.0), "S").0, 101.0, 102.0, 103.0, 104.0)
  {
    ShowsFull(History(2, [F(101.0), F(102.0)], [F(103.0), F(104.0)]), Print(105.0), "S", 101.0, 102.0, 103.0, 104.0);
  }

  lemma OasspreadHistoryTest7()
    ensures Shows(MakeFeatures(History(2, [F(101.0), F(102.0)], [F(104.0), F(105.0)]), Print(106.0), "S").0, 101.0, 102.0, 104.0, 105.0)
  {
    ShowsFull(History(2, [F(101.0), F(102.0)], [F(104.0), F(105.0)]), Print(106.0), "S", 101.0, 102.0, 104.0, 105.0);
  }

  lemma OasspreadHistoryTest8()
    ensures Shows(MakeFeatures(History(2, [F(101.0), F(102.0)], [F(105.0), F(106.0)]), Print(103.0), "B").0, 101.0, 102.0, 105.0, 106.0)
  {
    ShowsFull(History(2, [F(101.0), F(102.0)], [F(105.0), F(106.0)]), Print(103.0), "B", 101.0, 102.0, 105.0, 106.0);
  }

  lemma OasspreadHistoryTest9()
    ensures Shows(MakeFeatures(History(2, [F(102.0), F(103.0)], [F(105.0), F(106.0)]), Print(105.0), "B").0, 102.0, 103.0, 105.0, 106.0)
  {
    ShowsFull(History(2, [F(102.0), F(103.0)], [F(105.0), F(106.0)]), Print(105.0), "B", 102.0, 103.0, 105.0, 106.0);
  }

  /** The same five prints: each append to a full buffer evicts its oldest spread. */
  lemma OasspreadHistoryTestEvictions()
    ensures MakeFeatures(History(2, [F(100.0), F(101.0)], [F(103.0), F(104.0)]), Print(102.0), "B").1
      == History(2, [F(101.0), F(102.0)], [F(103.0), F(104.0)])
    ensures MakeFeatures(History(2, [F(101.0), F(102.0)], [F(103.0), F(104.0)]), Print(105.0), "S").1
      == History(2, [F(101.0), F(102.0)], [F(104.0), F(105.0)])
    ensures MakeFeatures(History(2, [F(101.0), F(102.0)], [F(104.0), F(105.0)]), Print(106.0), "S").1
      == History(2, [F(101.0), F(102.0)], [F(105.0), F(106.0)])
    ensures MakeFeatures(History(2, [F(101.0), F(102.0)], [F(105.0), F(106.0)]), Print(103.0), "B").1
      == History(2, [F(102.0), F(103.0)], [F(105.0), F(106.0)])
    ensures MakeFeatures(History(2, [F(102.0), F(103.0)], [F(105.0), F(106.0)]), Print(105.0), "B").1
      == History(2, [F(103.0), F(105.0)], [F(105.0), F(106.0)])
  {
    assert IsReclassifiedTradeType("B") && IsReclassifiedTradeType("S");
    assert Push([F(100.0), F(101.0)], F(102.0), 2) == [F(101.0), F(102.0)];
    assert Push([F(103.0), F(104.0)], F(105.0), 2) == [F(104.0), F(105.0)];
    assert Push([F(104.0), F(105.0)], F(106.0), 2) == [F(105.0), F(106.0)];
    assert Push([F(101.0), F(102.0)], F(103.0), 2) == [F(102.0), F(103.0)];
    assert Push([F(102.0), F(103.0)], F(105.0), 2) == [F(103.0), F(105.0)];
  }
}

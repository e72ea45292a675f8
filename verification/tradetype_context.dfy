/** `TraceTradetypeContext` of seven/feature_makers.py: per security, the last
    spread, price and quantity seen for each raw trade type, plus the state of
    an order-imbalance reclassifier that is a parameter of the model. */
module TradetypeContext {
  import opened Wrappers
  import opened Records

  /** What the reclassifier returns for one print: the order imbalance, the
      side it assigns the print to, and an error when it cannot do so. */
  datatype Classification = Classification(imbalance: Option<real>, reclassified: string, error: Option<string>)

  /** The context for one security. `C` is the reclassifier's own state. */
  datatype Context<C> = Context(
    classifier: C,
    priorOasspread: map<string, real>,
    priorPrice: map<string, real>,
    priorQuantity: map<string, real>)
  {
    /** The three prior maps are written together, only under raw trade types. */
    predicate Valid() {
      && priorPrice.Keys == priorOasspread.Keys
      && priorQuantity.Keys == priorOasspread.Keys
      && forall t :: t in priorOasspread ==> IsRawTradeType(t)
    }
  }

  function NewContext<C>(classifier: C): (r: Context<C>)
    ensures r.Valid() && r.priorOasspread == map[]
  {
    Context(classifier, map[], map[], map[])
  }

  /** The successful result of an update. */
  datatype Update = Update(
    orderImbalance: real,
    reclassified: string,
    priorPrice: map<string, real>,
    priorQuantity: map<string, real>)

  /** Every raw trade type has a recorded prior. */
  predicate Ready(priors: map<string, real>) {
    "B" in priors && "D" in priors && "S" in priors
  }

  /** The readiness loop over `B`, `D`, `S`: the first trade type with no prior. */
  function FirstMissing<C>(ctx: Context<C>): (r: Option<string>)
    requires ctx.Valid()
    ensures r.None? <==> Ready(ctx.priorOasspread)
    ensures r.Some? ==> IsRawTradeType(r.value) && r.value !in ctx.priorOasspread
  {
    if "B" !in ctx.priorOasspread then Some("B")
    else if "D" !in ctx.priorOasspread then Some("D")
    else if "S" !in ctx.priorOasspread then Some("S")
    else None
  }

  /** No field the context reads is NaN. */
  predicate Clean(record: TradeRecord) {
    record.oasspread.Finite? && record.price.Finite? && record.quantity.Finite?
  }

  /** The reclassifier's verdict on a clean print. */
  function Classify<C>(ctx: Context<C>, record: TradeRecord, classify: (C, string, real, real) -> (C, Classification))
    : Classification
    requires Clean(record)
  {
    classify(ctx.classifier, record.tradeType, record.quantity.x, record.price.x).1
  }

  function NoPrior(t: string): string {
    "no prior oasspread for trade type " + t
  }

  /** `update(trace_record)`: check the print, reclassify it, remember its
      values under its raw trade type, and report the priors once every raw
      trade type has been seen. */
  function UpdateContext<C>(
    ctx: Context<C>, record: TradeRecord, classify: (C, string, real, real) -> (C, Classification))
    : (r: (Result<Update>, Context<C>))
    requires ctx.Valid()
    ensures r.1.Valid()
    // an unknown raw trade type fails the assertion
    ensures !IsRawTradeType(record.tradeType) ==> r.0.Fatal?
    // a NaN field is rejected before the reclassifier is consulted
    ensures IsRawTradeType(record.tradeType) && !Clean(record) ==> r.0.Err? && r.1 == ctx
    // a reclassifier error is reported with a prefix and leaves the prior maps as they were
    ensures (IsRawTradeType(record.tradeType) && Clean(record)
      && Classify(ctx, record, classify).error.Some?) ==>
      && r.0 == Err("trace print not reclassfied: " + Classify(ctx, record, classify).error.value)
      && r.1.priorOasspread == ctx.priorOasspread
      && r.1.priorPrice == ctx.priorPrice && r.1.priorQuantity == ctx.priorQuantity
    // a clean print always advances the reclassifier
    ensures IsRawTradeType(record.tradeType) && Clean(record) ==>
      r.1.classifier == classify(ctx.classifier, record.tradeType, record.quantity.x, record.price.x).0
    // a verdict without an error but without an imbalance or a buy/sell side fails an assertion
    ensures (IsRawTradeType(record.tradeType) && Clean(record)
      && Classify(ctx, record, classify).error.None? && !Accepts(Classify(ctx, record, classify))) ==> r.0.Fatal?
    // success reports the reclassifier's own side and imbalance
    ensures r.0.Ok? ==>
      && Accepts(Classify(ctx, record, classify))
      && r.0.value.reclassified == Classify(ctx, record, classify).reclassified
      && Classify(ctx, record, classify).imbalance == Some(r.0.value.orderImbalance)
    // the priors change only under this print's raw trade type
    ensures forall t :: t in ctx.priorOasspread && t != record.tradeType ==>
      t in r.1.priorOasspread && r.1.priorOasspread[t] == ctx.priorOasspread[t]
    ensures r.1.priorOasspread.Keys <= ctx.priorOasspread.Keys + {record.tradeType}
    // the priors gain exactly this print's values, under its raw trade type
    ensures r.0.Ok? ==>
      && IsRawTradeType(record.tradeType) && Clean(record)
      && r.1.priorOasspread == ctx.priorOasspread[record.tradeType := record.oasspread.x]
      && r.1.priorPrice == ctx.priorPrice[record.tradeType := record.price.x]
      && r.1.priorQuantity == ctx.priorQuantity[record.tradeType := record.quantity.x]
    // success means a buy or sell side, and priors for all three raw trade types
    ensures r.0.Ok? ==>
      && IsReclassifiedTradeType(r.0.value.reclassified)
      && Ready(r.1.priorOasspread)
      && r.0.value.priorPrice == r.1.priorPrice && r.0.value.priorQuantity == r.1.priorQuantity
    ensures Ready(ctx.priorOasspread) ==> Ready(r.1.priorOasspread)
  {
    var tt := record.tradeType;
    if !IsRawTradeType(tt) then (Fatal("assert trade_type in self.all_trade_types"), ctx)
    else if record.oasspread.NaN? then (Err("oasspread is NaN"), ctx)
    else if record.price.NaN? then (Err("price is NaN"), ctx)
    else if record.quantity.NaN? then (Err("quantity is NaN"), ctx)
    else
      var (c', cl) := classify(ctx.classifier, tt, record.quantity.x, record.price.x);
      var ctx1 := ctx.(classifier := c');
      if cl.error.Some? then (Err("trace print not reclassfied: " + cl.error.value), ctx1)
      else if cl.imbalance.None? then (Fatal("assert order_imbalance is not None"), ctx1)
      else if !IsReclassifiedTradeType(cl.reclassified) then
        (Fatal("assert reclassified_trade_type in ('B', 'S')"), ctx1)
      else
        var ctx2 := ctx1.(
          priorOasspread := ctx.priorOasspread[tt := record.oasspread.x],
          priorPrice := ctx.priorPrice[tt := record.price.x],
          priorQuantity := ctx.priorQuantity[tt := record.quantity.x]);
        match FirstMissing(ctx2)
        case Some(missing) => (Err(NoPrior(missing)), ctx2)
        case None => (Ok(Update(cl.imbalance.value, cl.reclassified, ctx2.priorPrice, ctx2.priorQuantity)), ctx2)
  }

  /** `missing_any_prior_oasspread`: `None`, or an error listing the raw trade
      types with no prior spread, in the order B, D, S. */
  function MissingAnyPriorOasspread<C>(ctx: Context<C>): (r: Option<string>)
    ensures r.None? <==> Ready(ctx.priorOasspread)
    // the message lists the raw types without a prior, in the order B, D, S
    ensures r.Some? ==>
      r.value == "missing prior oasspread for trade type " + ListRepr(Missing(ctx.priorOasspread, ["B", "D", "S"]))
  {
    var missing := Missing(ctx.priorOasspread, ["B", "D", "S"]);
    assert "B" in ["B", "D", "S"] && "D" in ["B", "D", "S"] && "S" in ["B", "D", "S"];
    if |missing| == 0 then None
    else
      assert missing[0] in missing && missing[0] in ["B", "D", "S"];
      Some("missing prior oasspread for trade type " + ListRepr(missing))
  }

  /** The trade types among `ts` that have no prior, in order. */
  function Missing(priors: map<string, real>, ts: seq<string>): (r: seq<string>)
    ensures forall t :: t in r <==> t in ts && t !in priors
  {
    if |ts| == 0 then []
    else (if ts[0] in priors then [] else [ts[0]]) + Missing(priors, ts[1..])
  }

  /** With a prior spread for B only, the message names D and S. */
  lemma MissingMessageExample<C>(c: C)
    ensures MissingAnyPriorOasspread(Context(c, map["B" := 1.0], map[], map[]))
      == Some("missing prior oasspread for trade type " + "['D', 'S']")
  {
    MissingOnlyB();
    ListReprDS();
  }

  /** Only D and S lack a prior when B has one. */
  lemma MissingOnlyB()
    ensures Missing(map["B" := 1.0], ["B", "D", "S"]) == ["D", "S"]
  {
    var priors := map["B" := 1.0];
    assert Missing(priors, ["S"]) == ["S"];
    assert Missing(priors, ["D", "S"]) == ["D"] + Missing(priors, ["S"]);
    assert ["B", "D", "S"][1..] == ["D", "S"];
  }

  /** The printed form of the list of D and S. */
  lemma ListReprDS()
    ensures ListRepr(["D", "S"]) == "['D', 'S']"
  {
    assert ["D", "S"][1..] == ["S"];
    assert Join(["D", "S"]) == "'D', 'S'";
  }

  /** Python's `str` of a list of strings: `['B', 'D']`. */
  function ListRepr(ts: seq<string>): string {
    "[" + Join(ts) + "]"
  }

  function Join(ts: seq<string>): string {
    if |ts| == 0 then ""
    else if |ts| == 1 then "'" + ts[0] + "'"
    else "'" + ts[0] + "', " + Join(ts[1..])
  }

  /* ---------------- streams ---------------- */

  /** The results of a stream of updates, oldest first, and the final context. */
  function Run<C>(ctx: Context<C>, xs: seq<TradeRecord>, classify: (C, string, real, real) -> (C, Classification))
    : (r: (seq<Result<Update>>, Context<C>))
    requires ctx.Valid()
    ensures r.1.Valid() && |r.0| == |xs|
  {
    if |xs| == 0 then ([], ctx)
    else
      var (rs, before) := Run(ctx, xs[..|xs| - 1], classify);
      var (x, after) := UpdateContext(before, xs[|xs| - 1], classify);
      (rs + [x], after)
  }

  /** A raw trade type that never occurs in the stream is never recorded, so
      no update of the stream succeeds: a security traded only by customers
      buying from dealers gets no context at all. */
  lemma {:induction false} NeverReadyWithout<C>(
    ctx: Context<C>, xs: seq<TradeRecord>, classify: (C, string, real, real) -> (C, Classification), t: string)
    requires ctx.Valid() && IsRawTradeType(t) && t !in ctx.priorOasspread
    requires forall i :: 0 <= i < |xs| ==> xs[i].tradeType != t
    ensures t !in Run(ctx, xs, classify).1.priorOasspread
    ensures forall i :: 0 <= i < |xs| ==> !Run(ctx, xs, classify).0[i].Ok?
  {
    if |xs| > 0 {
      var front := xs[..|xs| - 1];
      NeverReadyWithout(ctx, front, classify, t);
      var (rs, before) := Run(ctx, front, classify);
      var (x, after) := UpdateContext(before, xs[|xs| - 1], classify);
      assert t !in after.priorOasspread;
      var all := Run(ctx, xs, classify).0;
      assert all == rs + [x];
      assert forall i :: 0 <= i < |front| ==> all[i] == rs[i];
    }
  }

  /** The first print of each raw trade type is remembered once the checks
      pass, so the priors eventually cover every raw trade type seen. */
  lemma RecordedAfterOk<C>(
    ctx: Context<C>, record: TradeRecord, classify: (C, string, real, real) -> (C, Classification))
    requires ctx.Valid()
    requires UpdateContext(ctx, record, classify).0.Ok?
    ensures record.tradeType in UpdateContext(ctx, record, classify).1.priorOasspread
    ensures UpdateContext(ctx, record, classify).1.priorOasspread[record.tradeType] == record.oasspread.x
  {
  }

  /** The reclassifier assigns a side, with an imbalance and no error. */
  predicate Accepts(cl: Classification) {
    cl.error.None? && cl.imbalance.Some? && IsReclassifiedTradeType(cl.reclassified)
  }

  /** With a reclassifier that accepts everything, a fresh context reports
      "not ready" for a first dealer print, then for a first buy print, and
      succeeds on the first sell print, once B, D and S have all been seen. */
  lemma ReadyOnceAllSeen<C>(
    c: C, b: TradeRecord, d: TradeRecord, s: TradeRecord, classify: (C, string, real, real) -> (C, Classification))
    requires forall c', t, q, p :: Accepts(classify(c', t, q, p).1)
    requires Clean(b) && Clean(d) && Clean(s)
    requires b.tradeType == "B" && d.tradeType == "D" && s.tradeType == "S"
    ensures var (r1, ctx1) := UpdateContext(NewContext(c), d, classify);
      var (r2, ctx2) := UpdateContext(ctx1, b, classify);
      var (r3, ctx3) := UpdateContext(ctx2, s, classify);
      && r1 == Err(NoPrior("B"))
      && r2 == Err(NoPrior("S"))
      && r3.Ok?
  {
    var (r1, ctx1) := UpdateContext(NewContext(c), d, classify);
    AcceptedStep(NewContext(c), d, classify);
    var (r2, ctx2) := UpdateContext(ctx1, b, classify);
    AcceptedStep(ctx1, b, classify);
    AcceptedStep(ctx2, s, classify);
  }

  /** A clean print the reclassifier accepts is recorded; the update then
      succeeds exactly when every raw trade type has been seen. */
  lemma AcceptedStep<C>(ctx: Context<C>, record: TradeRecord, classify: (C, string, real, real) -> (C, Classification))
    requires ctx.Valid() && IsRawTradeType(record.tradeType) && Clean(record)
    requires Accepts(Classify(ctx, record, classify))
    ensures var (r, ctx') := UpdateContext(ctx, record, classify);
      && ctx'.priorOasspread == ctx.priorOasspread[record.tradeType := record.oasspread.x]
      && (r.Ok? <==> Ready(ctx'.priorOasspread))
      && (!r.Ok? ==> r == Err(NoPrior(FirstMissing(ctx').value)))
  {
  }
}

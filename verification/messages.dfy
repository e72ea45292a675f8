/** The messages of shared_message.py: seven kinds, each with a dictionary
    form (`as_dict`), a JSON form (`__str__`) and a factory reading the
    dictionary back (`from_dict`), dispatched on `message_type` by
    `from_string`. The JSON text itself is not modelled: a message's JSON
    form is the decoded JSON value. */
module Messages {
  import opened Wrappers
  import opened DateTimeCodec

  /** A decoded JSON value. */
  datatype Json =
    | JNull
    | JBool(b: bool)
    | JInt(i: int)
    | JFloat(f: real)
    | JString(s: string)
    | JArray(items: seq<Json>)
    | JObject(fields: map<string, Json>)

  /** The seven message kinds. Fields other than the trace print's time are
      passed through without being checked, as in Python, so they are JSON
      values. */
  datatype Message =
    | BackToZero(source: Json, identifier: Json)
    | SetPrimaryOTRs(source: Json, identifier: Json, primaryCusip: Json, otrCusips: Json)
    | SetVersion(source: Json, identifier: Json, what: Json, version: Json)
    | TracePrint(source: Json, identifier: Json, cusip: Json, issuepriceid: Json, datetime: DateTime,
                 oasspread: Json, tradeType: Json, reclassifiedTradeType: Json, cancellationProbability: Json)
    | TracePrintCancel(source: Json, identifier: Json, issuepriceid: Json)
    | OutputStart(source: Json, identifier: Json)
    | OutputStop(source: Json, identifier: Json)

  /** A Python `datetime` always holds valid fields. */
  predicate WellFormed(m: Message) {
    m.TracePrint? ==> Valid(m.datetime)
  }

  /** The `message_type` each constructor records: its class name. */
  function TypeName(m: Message): string {
    match m
    case BackToZero(_, _) => "BackToZero"
    case SetPrimaryOTRs(_, _, _, _) => "SetPrimaryOTRs"
    case SetVersion(_, _, _, _) => "SetVersion"
    case TracePrint(_, _, _, _, _, _, _, _, _) => "TracePrint"
    case TracePrintCancel(_, _, _) => "TracePrintCancel"
    case OutputStart(_, _) => "OutputStart"
    case OutputStop(_, _) => "OutputStop"
  }

  predicate KnownType(name: string) {
    name in {"BackToZero", "SetPrimaryOTRs", "SetVersion", "TracePrint", "TracePrintCancel", "OutputStart", "OutputStop"}
  }

  /* ---------------- as_dict and __str__ ---------------- */

  /** A value of `as_dict()`: a JSON value, or the trace print's `datetime`. */
  datatype Field = Plain(json: Json) | When(at: DateTime)

  /** `m.as_dict()`: the base class's three entries, then the kind's own. */
  function AsDict(m: Message): (r: map<string, Field>)
    ensures "message_type" in r && r["message_type"] == Plain(JString(TypeName(m)))
    ensures "source" in r && r["source"] == Plain(m.source)
    ensures "identifier" in r && r["identifier"] == Plain(m.identifier)
    ensures forall k :: k in r && r[k].When? ==> k == "datetime" && m.TracePrint? && r[k].at == m.datetime
  {
    var base := map["message_type" := Plain(JString(TypeName(m))), "source" := Plain(m.source), "identifier" := Plain(m.identifier)];
    match m
    case SetPrimaryOTRs(_, _, primary, otrs) =>
      base["primary_cusip" := Plain(primary)]["otr_cusips" := Plain(otrs)]
    case SetVersion(_, _, what, version) =>
      base["what" := Plain(what)]["version" := Plain(version)]
    case TracePrint(_, _, cusip, id, at, spread, tradeType, reclassified, cancellation) =>
      base["cusip" := Plain(cusip)]["issuepriceid" := Plain(id)]["datetime" := When(at)]
        ["oasspread" := Plain(spread)]["trade_type" := Plain(tradeType)]
        ["reclassified_trade_type" := Plain(reclassified)]["cancellation_probability" := Plain(cancellation)]
    case TracePrintCancel(_, _, id) =>
      base["issuepriceid" := Plain(id)]
    case _ => base
  }

  /** How `__str__` writes one entry: the `datetime` in ISO 8601 form. */
  function Write(f: Field): Json
    requires f.When? ==> Valid(f.at)
  {
    match f
    case Plain(j) => j
    case When(at) => JString(IsoFormat(at))
  }

  /** `str(m)`, as the JSON object it encodes: the entries of `as_dict()`,
      the trace print's time written as a string. */
  function Encode(m: Message): (r: map<string, Json>)
    requires WellFormed(m)
    ensures "message_type" in r && r["message_type"] == JString(TypeName(m))
  {
    var base := map["message_type" := JString(TypeName(m)), "source" := m.source, "identifier" := m.identifier];
    match m
    case SetPrimaryOTRs(_, _, primary, otrs) =>
      base["primary_cusip" := primary]["otr_cusips" := otrs]
    case SetVersion(_, _, what, version) =>
      base["what" := what]["version" := version]
    case TracePrint(_, _, cusip, id, at, spread, tradeType, reclassified, cancellation) =>
      base["cusip" := cusip]["issuepriceid" := id]["datetime" := JString(IsoFormat(at))]
        ["oasspread" := spread]["trade_type" := tradeType]
        ["reclassified_trade_type" := reclassified]["cancellation_probability" := cancellation]
    case TracePrintCancel(_, _, id) =>
      base["issuepriceid" := id]
    case _ => base
  }

  /** `__str__` writes exactly the entries of `as_dict()`, each as `Write`
      renders it. */
  lemma EncodeIsAsDict(m: Message)
    requires WellFormed(m)
    ensures Encode(m).Keys == AsDict(m).Keys
    ensures forall k :: k in Encode(m) ==> Encode(m)[k] == Write(AsDict(m)[k])
  {
    match m
    case TracePrint(_, _, _, _, _, _, _, _, _) => TracePrintIsAsDict(m);
    case _ =>
  }

  lemma TracePrintIsAsDict(m: Message)
    requires m.TracePrint? && Valid(m.datetime)
    ensures Encode(m).Keys == AsDict(m).Keys
    ensures forall k :: k in Encode(m) ==> Encode(m)[k] == Write(AsDict(m)[k])
  {
    TracePrintEntries(m);
    TracePrintDictEntries(m);
    WrittenEntries(Encode(m), AsDict(m));
  }

  /** The entries of a trace print's `as_dict()`. */
  lemma TracePrintDictEntries(m: Message)
    requires m.TracePrint? && Valid(m.datetime)
    ensures var a := AsDict(m);
      && a.Keys == {"message_type", "source", "identifier", "cusip", "issuepriceid", "datetime", "oasspread",
                    "trade_type", "reclassified_trade_type", "cancellation_probability"}
      && a["message_type"] == Plain(JString("TracePrint"))
      && a["source"] == Plain(m.source) && a["identifier"] == Plain(m.identifier)
      && a["cusip"] == Plain(m.cusip) && a["issuepriceid"] == Plain(m.issuepriceid)
      && a["datetime"] == When(m.datetime)
      && a["oasspread"] == Plain(m.oasspread) && a["trade_type"] == Plain(m.tradeType)
      && a["reclassified_trade_type"] == Plain(m.reclassifiedTradeType)
      && a["cancellation_probability"] == Plain(m.cancellationProbability)
  {
  }

  /** Entry by entry, a trace print's JSON form is its `as_dict()` written out. */
  lemma WrittenEntries(e: map<string, Json>, a: map<string, Field>)
    requires e.Keys == a.Keys
    requires e.Keys == {"message_type", "source", "identifier", "cusip", "issuepriceid", "datetime", "oasspread",
                        "trade_type", "reclassified_trade_type", "cancellation_probability"}
    requires a["datetime"].When? && Valid(a["datetime"].at)
    requires forall k :: k in a && k != "datetime" ==> a[k].Plain?
    requires e["message_type"] == a["message_type"].json && e["source"] == a["source"].json
    requires e["identifier"] == a["identifier"].json && e["cusip"] == a["cusip"].json
    requires e["issuepriceid"] == a["issuepriceid"].json && e["datetime"] == JString(IsoFormat(a["datetime"].at))
    requires e["oasspread"] == a["oasspread"].json && e["trade_type"] == a["trade_type"].json
    requires e["reclassified_trade_type"] == a["reclassified_trade_type"].json
    requires e["cancellation_probability"] == a["cancellation_probability"].json
    ensures forall k :: k in e ==> (a[k].When? ==> Valid(a[k].at)) && e[k] == Write(a[k])
  {
  }

  /* ---------------- from_dict and from_string ---------------- */

  /** `d[key]`: a KeyError when the key is missing. */
  function Get(d: map<string, Json>, key: string): (r: Result<Json>)
    ensures !r.Err?
    ensures r.Ok? <==> key in d
    ensures r.Ok? ==> r.value == d[key]
  {
    if key in d then Ok(d[key]) else Fatal("KeyError: '" + key + "'")
  }

  /** `str_to_datetime` on a decoded value: anything but a string has no
      `split` method. */
  function ReadTime(j: Json): (r: Result<DateTime>)
    ensures !r.Err?
    ensures r.Ok? ==> j.JString? && r == StrToDateTime(j.s)
    // a string is parsed by `str_to_datetime`; any other value raises
    ensures j.JString? ==> r == StrToDateTime(j.s)
    ensures !j.JString? ==> r.Fatal?
  {
    if j.JString? then StrToDateTime(j.s)
    else Fatal("AttributeError: object has no attribute 'split'")
  }

  /** The `from_dict` factory of the kind named `name`, reading the keys in
      the order of its arguments. */
  function FromDict(name: string, d: map<string, Json>): (r: Result<Message>)
    requires KnownType(name)
    ensures !r.Err?
    ensures r.Ok? ==> TypeName(r.value) == name && WellFormed(r.value)
    ensures r.Ok? ==>
      "source" in d && r.value.source == d["source"] && "identifier" in d && r.value.identifier == d["identifier"]
  {
    var source :- Get(d, "source");
    var identifier :- Get(d, "identifier");
    if name == "BackToZero" then Ok(BackToZero(source, identifier))
    else if name == "OutputStart" then Ok(OutputStart(source, identifier))
    else if name == "OutputStop" then Ok(OutputStop(source, identifier))
    else if name == "SetPrimaryOTRs" then
      var primary :- Get(d, "primary_cusip");
      var otrs :- Get(d, "otr_cusips");
      Ok(SetPrimaryOTRs(source, identifier, primary, otrs))
    else if name == "SetVersion" then
      var what :- Get(d, "what");
      var version :- Get(d, "version");
      Ok(SetVersion(source, identifier, what, version))
    else if name == "TracePrintCancel" then
      var id :- Get(d, "issuepriceid");
      Ok(TracePrintCancel(source, identifier, id))
    else TracePrintFromDict(source, identifier, d)
  }

  /** `TracePrint.from_dict` after the source and identifier. */
  function TracePrintFromDict(source: Json, identifier: Json, d: map<string, Json>): (r: Result<Message>)
    ensures !r.Err?
    ensures r.Ok? ==>
      r.value.TracePrint? && Valid(r.value.datetime) && r.value.source == source && r.value.identifier == identifier
    // a result exactly when every key is present and the datetime text parses
    ensures r.Ok? <==> TracePrintKeys <= d.Keys && ReadTime(d["datetime"]).Ok?
    // and then every field is the value under its key, the datetime parsed
    ensures r.Ok? ==>
      && r.value.cusip == d["cusip"] && r.value.issuepriceid == d["issuepriceid"]
      && Ok(r.value.datetime) == ReadTime(d["datetime"])
      && r.value.oasspread == d["oasspread"] && r.value.tradeType == d["trade_type"]
      && r.value.reclassifiedTradeType == d["reclassified_trade_type"]
      && r.value.cancellationProbability == d["cancellation_probability"]
  {
    var cusip :- Get(d, "cusip");
    var id :- Get(d, "issuepriceid");
    var text :- Get(d, "datetime");
    var at :- ReadTime(text);
    var spread :- Get(d, "oasspread");
    var tradeType :- Get(d, "trade_type");
    var reclassified :- Get(d, "reclassified_trade_type");
    var cancellation :- Get(d, "cancellation_probability");
    Ok(TracePrint(source, identifier, cusip, id, at, spread, tradeType, reclassified, cancellation))
  }

  /** The keys `TracePrint.from_dict` reads. */
  const TracePrintKeys: set<string> :=
    {"cusip", "issuepriceid", "datetime", "oasspread", "trade_type", "reclassified_trade_type", "cancellation_probability"}

  /** `from_string(s)` on the decoded value of `s`: it must be an object
      whose `message_type` names a known kind. */
  function FromString(obj: Json): (r: Result<Message>)
    ensures !r.Err?
    ensures !obj.JObject? ==> r.Fatal?
    ensures (obj.JObject? && "message_type" in obj.fields
             && !(obj.fields["message_type"].JString? && KnownType(obj.fields["message_type"].s))) ==> r.Fatal?
    ensures r.Ok? ==>
      && obj.JObject? && "message_type" in obj.fields
      && obj.fields["message_type"] == JString(TypeName(r.value))
      && WellFormed(r.value)
  {
    if !obj.JObject? then Fatal("AssertionError: not a dict")
    else
      var name :- Get(obj.fields, "message_type");
      if name.JString? && KnownType(name.s) then FromDict(name.s, obj.fields)
      else Fatal("AssertionError: message_type is not known")
  }

  /* ---------------- the round trip ---------------- */

  /** `from_string(str(m))` rebuilds `m`, whatever its kind. */
  lemma RoundTrip(m: Message)
    requires WellFormed(m)
    ensures FromString(JObject(Encode(m))) == Ok(m)
  {
    match m
    case TracePrint(_, _, _, _, _, _, _, _, _) => TracePrintRoundTrip(m);
    case SetPrimaryOTRs(_, _, _, _) => SetPrimaryOTRsRoundTrip(m);
    case SetVersion(_, _, _, _) => SetVersionRoundTrip(m);
    case TracePrintCancel(_, _, _) => TracePrintCancelRoundTrip(m);
    case _ => BareRoundTrip(m);
  }

  /** The kinds that carry only a source and an identifier. */
  lemma BareRoundTrip(m: Message)
    requires m.BackToZero? || m.OutputStart? || m.OutputStop?
    ensures FromString(JObject(Encode(m))) == Ok(m)
  {
  }

  lemma SetPrimaryOTRsRoundTrip(m: Message)
    requires m.SetPrimaryOTRs?
    ensures FromString(JObject(Encode(m))) == Ok(m)
  {
  }

  lemma SetVersionRoundTrip(m: Message)
    requires m.SetVersion?
    ensures FromString(JObject(Encode(m))) == Ok(m)
  {
  }

  lemma TracePrintCancelRoundTrip(m: Message)
    requires m.TracePrintCancel?
    ensures FromString(JObject(Encode(m))) == Ok(m)
  {
  }

  lemma TracePrintRoundTrip(m: Message)
    requires m.TracePrint? && Valid(m.datetime)
    ensures FromString(JObject(Encode(m))) == Ok(m)
  {
    DateTimeCodec.RoundTrip(m.datetime);
    TracePrintEntries(m);
    ReadTracePrint(Encode(m), m);
    ReadTracePrintObject(Encode(m), m);
  }

  /** An object naming the trace print kind, with its source and identifier,
      is read by the trace print factory. */
  lemma ReadTracePrintObject(d: map<string, Json>, m: Message)
    requires m.TracePrint?
    requires "message_type" in d && d["message_type"] == JString("TracePrint")
    requires "source" in d && d["source"] == m.source
    requires "identifier" in d && d["identifier"] == m.identifier
    requires TracePrintFromDict(m.source, m.identifier, d) == Ok(m)
    ensures FromString(JObject(d)) == Ok(m)
  {
  }

  /** The entries of a trace print's JSON form. */
  lemma TracePrintEntries(m: Message)
    requires m.TracePrint? && Valid(m.datetime)
    ensures var e := Encode(m);
      && e.Keys == {"message_type", "source", "identifier", "cusip", "issuepriceid", "datetime", "oasspread",
                    "trade_type", "reclassified_trade_type", "cancellation_probability"}
      && e["source"] == m.source && e["identifier"] == m.identifier
      && e["cusip"] == m.cusip && e["issuepriceid"] == m.issuepriceid
      && e["datetime"] == JString(IsoFormat(m.datetime))
      && e["oasspread"] == m.oasspread && e["trade_type"] == m.tradeType
      && e["reclassified_trade_type"] == m.reclassifiedTradeType
      && e["cancellation_probability"] == m.cancellationProbability
  {
  }

  /** A dictionary holding a trace print's entries, its time as any text that
      reads back as that time, yields the trace print. */
  lemma ReadTracePrint(d: map<string, Json>, m: Message)
    requires m.TracePrint?
    requires "cusip" in d && d["cusip"] == m.cusip
    requires "issuepriceid" in d && d["issuepriceid"] == m.issuepriceid
    requires "datetime" in d && d["datetime"].JString? && StrToDateTime(d["datetime"].s) == Ok(m.datetime)
    requires "oasspread" in d && d["oasspread"] == m.oasspread
    requires "trade_type" in d && d["trade_type"] == m.tradeType
    requires "reclassified_trade_type" in d && d["reclassified_trade_type"] == m.reclassifiedTradeType
    requires "cancellation_probability" in d && d["cancellation_probability"] == m.cancellationProbability
    ensures TracePrintFromDict(m.source, m.identifier, d) == Ok(m)
  {
  }

  /** The other direction: a value that decodes holds, under every key of the
      decoded message's JSON form, the value written there, except the time,
      which need only denote the same instant (`"0001-..."` and `"1-..."`
      both read as year 1). Keys the kind does not read are ignored. */
  lemma DecodeEncode(d: map<string, Json>)
    requires FromString(JObject(d)).Ok?
    ensures var m := FromString(JObject(d)).value;
      forall k :: k in Encode(m) && k != "datetime" ==> k in d && d[k] == Encode(m)[k]
    ensures var m := FromString(JObject(d)).value;
      m.TracePrint? ==> "datetime" in d && d["datetime"].JString? && StrToDateTime(d["datetime"].s) == Ok(m.datetime)
  {
    var m := FromString(JObject(d)).value;
    FromStringDispatch(d);
    match m
    case TracePrint(_, _, _, _, _, _, _, _, _) => DecodeTracePrintAll(d, m);
    case SetPrimaryOTRs(_, _, _, _) => DecodeSetPrimaryOTRs(d, m);
    case SetVersion(_, _, _, _) => DecodeSetVersion(d, m);
    case TracePrintCancel(_, _, _) => DecodeTracePrintCancel(d, m);
    case _ => DecodeBare(d, m);
  }

  /** A decoded object was read by the factory its `message_type` names. */
  lemma FromStringDispatch(d: map<string, Json>)
    requires FromString(JObject(d)).Ok?
    ensures var m := FromString(JObject(d)).value;
      && "message_type" in d && d["message_type"] == JString(TypeName(m))
      && FromDict(TypeName(m), d) == Ok(m)
  {
  }

  lemma DecodeTracePrintAll(d: map<string, Json>, m: Message)
    requires m.TracePrint? && FromDict(TypeName(m), d) == Ok(m)
    requires "message_type" in d && d["message_type"] == JString(TypeName(m))
    ensures forall k :: k in Encode(m) && k != "datetime" ==> k in d && d[k] == Encode(m)[k]
    ensures "datetime" in d && d["datetime"].JString? && StrToDateTime(d["datetime"].s) == Ok(m.datetime)
  {
    FromDictTracePrint(d, m);
    DecodeTracePrint(d, m.source, m.identifier);
    TracePrintEntries(m);
    AgreeExceptTime(Encode(m), d);
  }

  /** Two dictionaries that agree on a trace print's entries other than the
      time agree under every key of the first but the time. */
  lemma AgreeExceptTime(e: map<string, Json>, d: map<string, Json>)
    requires e.Keys == {"message_type", "source", "identifier", "cusip", "issuepriceid", "datetime", "oasspread",
                        "trade_type", "reclassified_trade_type", "cancellation_probability"}
    requires "message_type" in d && d["message_type"] == e["message_type"]
    requires "source" in d && d["source"] == e["source"]
    requires "identifier" in d && d["identifier"] == e["identifier"]
    requires "cusip" in d && d["cusip"] == e["cusip"]
    requires "issuepriceid" in d && d["issuepriceid"] == e["issuepriceid"]
    requires "oasspread" in d && d["oasspread"] == e["oasspread"]
    requires "trade_type" in d && d["trade_type"] == e["trade_type"]
    requires "reclassified_trade_type" in d && d["reclassified_trade_type"] == e["reclassified_trade_type"]
    requires "cancellation_probability" in d && d["cancellation_probability"] == e["cancellation_probability"]
    ensures forall k :: k in e && k != "datetime" ==> k in d && d[k] == e[k]
  {
  }

  /** The trace print factory after the source and identifier. */
  lemma FromDictTracePrint(d: map<string, Json>, m: Message)
    requires m.TracePrint? && FromDict(TypeName(m), d) == Ok(m)
    ensures "source" in d && d["source"] == m.source && "identifier" in d && d["identifier"] == m.identifier
    ensures TracePrintFromDict(m.source, m.identifier, d) == Ok(m)
  {
  }

  lemma DecodeBare(d: map<string, Json>, m: Message)
    requires (m.BackToZero? || m.OutputStart? || m.OutputStop?) && FromDict(TypeName(m), d) == Ok(m)
    requires "message_type" in d && d["message_type"] == JString(TypeName(m))
    ensures forall k :: k in Encode(m) ==> k in d && d[k] == Encode(m)[k]
  {
  }

  lemma DecodeSetPrimaryOTRs(d: map<string, Json>, m: Message)
    requires m.SetPrimaryOTRs? && FromDict(TypeName(m), d) == Ok(m)
    requires "message_type" in d && d["message_type"] == JString(TypeName(m))
    ensures forall k :: k in Encode(m) ==> k in d && d[k] == Encode(m)[k]
  {
  }

  lemma DecodeSetVersion(d: map<string, Json>, m: Message)
    requires m.SetVersion? && FromDict(TypeName(m), d) == Ok(m)
    requires "message_type" in d && d["message_type"] == JString(TypeName(m))
    ensures forall k :: k in Encode(m) ==> k in d && d[k] == Encode(m)[k]
  {
  }

  lemma DecodeTracePrintCancel(d: map<string, Json>, m: Message)
    requires m.TracePrintCancel? && FromDict(TypeName(m), d) == Ok(m)
    requires "message_type" in d && d["message_type"] == JString(TypeName(m))
    ensures forall k :: k in Encode(m) ==> k in d && d[k] == Encode(m)[k]
  {
  }

  /** What a decoded trace print read from its dictionary. */
  lemma DecodeTracePrint(d: map<string, Json>, source: Json, identifier: Json)
    requires TracePrintFromDict(source, identifier, d).Ok?
    ensures var m := TracePrintFromDict(source, identifier, d).value;
      && "cusip" in d && d["cusip"] == m.cusip
      && "issuepriceid" in d && d["issuepriceid"] == m.issuepriceid
      && "datetime" in d && d["datetime"].JString? && StrToDateTime(d["datetime"].s) == Ok(m.datetime)
      && "oasspread" in d && d["oasspread"] == m.oasspread
      && "trade_type" in d && d["trade_type"] == m.tradeType
      && "reclassified_trade_type" in d && d["reclassified_trade_type"] == m.reclassifiedTradeType
      && "cancellation_probability" in d && d["cancellation_probability"] == m.cancellationProbability
  {
  }
}

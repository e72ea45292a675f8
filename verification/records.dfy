/** Trade prints, feature values and the clock they are stamped with. */
module Records {

  /** Microseconds in a second and in a day; timestamps are microseconds since an epoch. */
  const MicrosPerSecond: int := 1_000_000
  const MicrosPerDay: int := 86_400 * MicrosPerSecond

  /** Calendar day (days since the epoch) of a timestamp, as `datetime.date()` gives it. */
  function DayOf(t: int): int {
    t / MicrosPerDay
  }

  /** Time of day of a timestamp, in microseconds since midnight. */
  function TimeOfDay(t: int): int {
    t % MicrosPerDay
  }

  /** A float that may be NaN; the source tests for NaN with `x != x` or `np.isnan`. */
  datatype Float = NaN | Finite(x: real)

  /** The three raw trade-type codes of a TRACE print. */
  predicate IsRawTradeType(t: string) {
    t == "B" || t == "D" || t == "S"
  }

  /** The two reclassified trade types: buy and sell (never dealer). */
  predicate IsReclassifiedTradeType(t: string) {
    t == "B" || t == "S"
  }

  /** One TRACE print, with the fields the core reads.
      `index` is the trace index (the print's `issuepriceid`). */
  datatype TradeRecord = TradeRecord(
    index: int,
    cusip: string,
    effectiveDateTime: int,
    oasspread: Float,
    price: Float,
    quantity: Float,
    tradeType: string)

  /** The value of one feature or identifier column. */
  datatype Value =
    | Real(r: real)
    | NaNValue
    | Int(i: int)
    | Text(s: string)
    | Stamp(t: int)       // a datetime, in microseconds
    | Day(d: int)         // a calendar date
    | ClockTime(us: int)  // a time of day, in microseconds since midnight

  function FloatValue(f: Float): Value {
    match f
    case NaN => NaNValue
    case Finite(x) => Real(x)
  }

  /** A feature row: feature name to value. */
  type FeatureMap = map<string, Value>
}

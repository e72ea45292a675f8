/** `Fundamentals._get` of seven/feature_makers.py: the as-of lookup of an
    issuer's fundamentals, the value stored at the latest date on or before
    the query date. */
module Fundamentals {
  import opened Wrappers

  /** A calendar date, as a day number. */
  datatype Date = Date(day: int)

  /** Per logical name (a fundamentals file), its values by date. */
  type Data = map<string, map<Date, real>>

  /** The greatest element of a non-empty finite set. */
  method Max(s: set<Date>) returns (m: Date)
    requires s != {}
    ensures m in s && forall x :: x in s ==> x.day <= m.day
  {
    m :| m in s;
    var rest := s - {m};
    while rest != {}
      invariant rest <= s && m in s
      invariant forall x :: x in s && x !in rest ==> x.day <= m.day
      decreases |rest|
    {
      var x :| x in rest;
      if x.day > m.day {
        m := x;
      }
      rest := rest - {x};
    }
  }

  /** `d` is the latest stored date on or before `date`. */
  predicate IsAsOf(dates: set<Date>, date: Date, d: Date) {
    d in dates && d.day <= date.day && forall e :: e in dates && e.day <= date.day ==> e.day <= d.day
  }

  /** `_get(date, logical_name)`: scan the stored dates from the latest down
      and return the value at the first one on or before `date`. */
  method Get(data: Data, issuer: string, date: Date, logicalName: string) returns (r: Result<real>)
    // an unknown logical name is a KeyError
    ensures logicalName !in data ==> r.Fatal?
    ensures logicalName in data ==> !r.Fatal?
    // a value exactly when some stored date is on or before the query date
    ensures logicalName in data ==>
      (r.Ok? <==> exists d :: d in data[logicalName] && d.day <= date.day)
    // and it is the value at the latest such date
    ensures r.Ok? ==> exists d :: IsAsOf(data[logicalName].Keys, date, d) && r.value == data[logicalName][d]
  {
    if logicalName !in data {
      return Fatal("KeyError: " + logicalName);
    }
    var values := data[logicalName];
    var remaining := values.Keys;
    while remaining != {}
      invariant remaining <= values.Keys
      // every date already passed over is after the query date, and after
      // every date still to come
      invariant forall d :: d in values.Keys && d !in remaining ==> d.day > date.day
      invariant forall d, e :: d in values.Keys && d !in remaining && e in remaining ==> e.day < d.day
      decreases |remaining|
    {
      var d := Max(remaining);
      if date.day >= d.day {
        assert IsAsOf(values.Keys, date, d);
        return Ok(values[d]);
      }
      remaining := remaining - {d};
    }
    return Err(NotInFundamentals(issuer, logicalName));
  }

  /** The error message; the date itself is not rendered. */
  function NotInFundamentals(issuer: string, logicalName: string): string {
    "date not in fundamentals for issuer " + issuer + " content " + logicalName
  }

  /** The as-of date is unique: two answers to one query agree. */
  lemma AsOfUnique(dates: set<Date>, date: Date, d1: Date, d2: Date)
    requires IsAsOf(dates, date, d1) && IsAsOf(dates, date, d2)
    ensures d1 == d2
  {
  }

  /** Moving the query date forward never moves the as-of date back. */
  lemma AsOfMonotone(dates: set<Date>, date1: Date, date2: Date, d1: Date, d2: Date)
    requires date1.day <= date2.day && IsAsOf(dates, date1, d1) && IsAsOf(dates, date2, d2)
    ensures d1.day <= d2.day
  {
  }
}

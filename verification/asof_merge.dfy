/** The last stage of `do_work` in v1/features_targets.py: pair each feature
    row of the query (primary) security on the selected date with the latest
    earlier feature row of the security on the run for it that day, under
    renamed feature names. */
module AsofMerge {
  import opened Wrappers
  import opened Records
  import opened Text
  import opened Seqs

  /** One row of an accumulated features table, under its trace index. */
  datatype FeatureRow = FeatureRow(index: int, features: FeatureMap)

  /** Every features table carries the date and the time of its print. */
  predicate HasIds(row: FeatureRow) {
    && "id_effectivedate" in row.features && row.features["id_effectivedate"].Day?
    && "id_effectivedatetime" in row.features && row.features["id_effectivedatetime"].Stamp?
  }

  function DateOf(row: FeatureRow): int
    requires HasIds(row)
  {
    row.features["id_effectivedate"].d
  }

  function StampOf(row: FeatureRow): int
    requires HasIds(row)
  {
    row.features["id_effectivedatetime"].t
  }

  predicate AllHaveIds(rows: seq<FeatureRow>) {
    forall i :: 0 <= i < |rows| ==> HasIds(rows[i])
  }

  /** Why a primary row produced no merged row. */
  datatype Skip =
    | NoOtrCusip(date: int, index: int)            // no on-the-run security named for its date
    | NoOtrFeatures(otrCusip: string, index: int)  // that security has no features yet
    | NoneBefore(index: int)                       // none of them is strictly earlier

  /** A merged row, or the reason a primary row was skipped. */
  datatype Merged = Row(row: FeatureRow) | Skipped(reason: Skip)

  /* ---------------- the primary rows ---------------- */

  /** `all_primary_cusip_features['id_effectivedate'] == selected_date`:
      which rows of the table are on the selected date. */
  function DayFlags(table: seq<FeatureRow>, selectedDay: int): (r: seq<bool>)
    requires AllHaveIds(table)
    ensures |r| == |table|
    ensures forall i :: 0 <= i < |table| ==> (r[i] <==> DateOf(table[i]) == selectedDay)
  {
    seq(|table|, i requires 0 <= i < |table| => DateOf(table[i]) == selectedDay)
  }

  /** `.loc[mask]`: the primary rows on the selected date, in table order. */
  function OnDate(table: seq<FeatureRow>, selectedDay: int): (r: seq<FeatureRow>)
    requires AllHaveIds(table)
    ensures |r| <= |table| && AllHaveIds(r)
    ensures forall i :: 0 <= i < |r| ==> DateOf(r[i]) == selectedDay
    ensures forall i :: 0 <= i < |table| && DateOf(table[i]) == selectedDay ==> table[i] in r
  {
    var flags := DayFlags(table, selectedDay);
    var r := Kept(table, flags);
    KeptAt(table, flags);
    assert forall i :: 0 <= i < |table| && flags[i] ==> table[i] in r by {
      forall i | 0 <= i < |table| && flags[i]
        ensures table[i] in r
      {
        var k :| 0 <= k < |Positions(flags)| && Positions(flags)[k] == i;
        assert r[k] == table[i];
      }
    }
    r
  }

  /** Where the rows on the selected date sit in `table`: exactly the rows
      on that date, in increasing order, and the selection is the rows at
      these positions. */
  function OnDatePositions(table: seq<FeatureRow>, selectedDay: int): (pos: seq<nat>)
    requires AllHaveIds(table)
    ensures |pos| == |OnDate(table, selectedDay)|
    ensures forall k :: 0 <= k < |pos| ==> pos[k] < |table| && table[pos[k]] == OnDate(table, selectedDay)[k]
    ensures forall k, l :: 0 <= k < l < |pos| ==> pos[k] < pos[l]
    ensures forall i :: 0 <= i < |table| ==> (DateOf(table[i]) == selectedDay <==> i in pos)
  {
    var flags := DayFlags(table, selectedDay);
    KeptAt(table, flags);
    Positions(flags)
  }

  /** The selection keeps every copy of a row on the selected date and no
      copy of any other row. */
  lemma OnDateCount(table: seq<FeatureRow>, selectedDay: int, x: FeatureRow)
    requires AllHaveIds(table)
    ensures multiset(OnDate(table, selectedDay))[x]
      == if HasIds(x) && DateOf(x) == selectedDay then multiset(table)[x] else 0
  {
    var flags := DayFlags(table, selectedDay);
    KeptCount(table, flags, x, HasIds(x) && DateOf(x) == selectedDay);
  }

  /* ---------------- the as-of choice ---------------- */

  /** The last row strictly before time `t`: `before.sort_values(...).iloc[-1]`.
      Among rows at that same latest time the last in table order is chosen. */
  function LatestBefore(rows: seq<FeatureRow>, t: int): (r: Option<FeatureRow>)
    requires AllHaveIds(rows)
    ensures r.Some? <==> exists i :: 0 <= i < |rows| && StampOf(rows[i]) < t
    ensures r.Some? ==> r.value in rows && HasIds(r.value) && StampOf(r.value) < t
    ensures r.Some? ==> forall i :: 0 <= i < |rows| && StampOf(rows[i]) < t ==> StampOf(rows[i]) <= StampOf(r.value)
  {
    if |rows| == 0 then None
    else
      var front := rows[..|rows| - 1];
      var last := rows[|rows| - 1];
      var best := LatestBefore(front, t);
      assert forall i :: 0 <= i < |front| ==> front[i] == rows[i];
      if StampOf(last) < t && (best.None? || StampOf(best.value) <= StampOf(last)) then Some(last)
      else best
  }

  /* ---------------- renaming ---------------- */

  /** A primary feature's merged name: `id_X` becomes `id_p_X`, any other `Y` becomes `p_Y`. */
  function RenamePrimary(k: string): string {
    if StartsWith(k, "id_") then "id_p_" + k[3..] else "p_" + k
  }

  /** An on-the-run feature's merged name: `id_X` becomes `id_otr1_X`, any other `Y` becomes `otr1_Y`. */
  function RenameOtr(k: string): string {
    if StartsWith(k, "id_") then "id_otr1_" + k[3..] else "otr1_" + k
  }

  /** The original name of a primary feature's merged name. */
  function UnrenamePrimary(key: string): string {
    if StartsWith(key, "id_p_") then "id_" + key[5..]
    else if StartsWith(key, "p_") then key[2..]
    else key
  }

  /** The original name of an on-the-run feature's merged name. */
  function UnrenameOtr(key: string): string {
    if StartsWith(key, "id_otr1_") then "id_" + key[8..]
    else if StartsWith(key, "otr1_") then key[5..]
    else key
  }

  /** Renaming a primary feature can be undone, so no two features share a name. */
  lemma RenamePrimaryInverse(k: string)
    ensures UnrenamePrimary(RenamePrimary(k)) == k
  {
    var key := RenamePrimary(k);
    if StartsWith(k, "id_") {
      assert key[..5] == "id_p_" && key[5..] == k[3..];
      assert "id_" + k[3..] == k[..3] + k[3..];
    } else {
      assert key[0] == 'p' && key[..2] == "p_" && key[2..] == k;
    }
  }

  /** Renaming an on-the-run feature can be undone, so no two features share a name. */
  lemma RenameOtrInverse(k: string)
    ensures UnrenameOtr(RenameOtr(k)) == k
  {
    var key := RenameOtr(k);
    if StartsWith(k, "id_") {
      assert key[..8] == "id_otr1_" && key[8..] == k[3..];
      assert "id_" + k[3..] == k[..3] + k[3..];
    } else {
      assert key[0] == 'o' && key[..5] == "otr1_" && key[5..] == k;
    }
  }

  /** The two namespaces are disjoint: a primary feature never overwrites an
      on-the-run one, nor the other way round. */
  lemma RenameDisjoint(a: string, b: string)
    ensures RenamePrimary(a) != RenameOtr(b)
  {
    var p := RenamePrimary(a);
    var o := RenameOtr(b);
    if StartsWith(a, "id_") && StartsWith(b, "id_") {
      assert p[3] == 'p' && o[3] == 'o';
    } else {
      assert p[0] == 'p' || o[0] == 'o';
      assert p[0] == 'i' || p[0] == 'p';
      assert o[0] == 'i' || o[0] == 'o';
    }
  }

  /** The merged features: the primary row's under their primary names, then
      the on-the-run row's under theirs. */
  function MergeFeatures(primary: FeatureMap, otr: FeatureMap): (r: FeatureMap)
    // every feature of both rows is present, with its value: none is overwritten
    ensures forall k :: k in primary ==> RenamePrimary(k) in r && r[RenamePrimary(k)] == primary[k]
    ensures forall k :: k in otr ==> RenameOtr(k) in r && r[RenameOtr(k)] == otr[k]
    // and there is nothing else
    ensures forall key :: key in r ==>
      (UnrenamePrimary(key) in primary && RenamePrimary(UnrenamePrimary(key)) == key)
      || (UnrenameOtr(key) in otr && RenameOtr(UnrenameOtr(key)) == key)
  {
    var p := PrimaryPart(primary);
    var o := OtrPart(otr);
    UnionParts(primary, otr, p, o);
    p + o
  }

  /** `add_prefix` on the primary row's features. */
  function PrimaryPart(primary: FeatureMap): (r: FeatureMap)
    ensures forall k :: k in primary ==> RenamePrimary(k) in r && r[RenamePrimary(k)] == primary[k]
    ensures forall key :: key in r ==> UnrenamePrimary(key) in primary && RenamePrimary(UnrenamePrimary(key)) == key
  {
    forall k
      ensures UnrenamePrimary(RenamePrimary(k)) == k
    {
      RenamePrimaryInverse(k);
    }
    map k | k in primary :: RenamePrimary(k) := primary[k]
  }

  /** `add_prefix` on the on-the-run row's features. */
  function OtrPart(otr: FeatureMap): (r: FeatureMap)
    ensures forall k :: k in otr ==> RenameOtr(k) in r && r[RenameOtr(k)] == otr[k]
    ensures forall key :: key in r ==> UnrenameOtr(key) in otr && RenameOtr(UnrenameOtr(key)) == key
  {
    forall k
      ensures UnrenameOtr(RenameOtr(k)) == k
    {
      RenameOtrInverse(k);
    }
    map k | k in otr :: RenameOtr(k) := otr[k]
  }

  /** The two renamed parts share no key, so their union keeps both. */
  lemma UnionParts(primary: FeatureMap, otr: FeatureMap, p: FeatureMap, o: FeatureMap)
    requires forall k :: k in primary ==> RenamePrimary(k) in p && p[RenamePrimary(k)] == primary[k]
    requires forall key :: key in p ==> UnrenamePrimary(key) in primary && RenamePrimary(UnrenamePrimary(key)) == key
    requires forall k :: k in otr ==> RenameOtr(k) in o && o[RenameOtr(k)] == otr[k]
    requires forall key :: key in o ==> UnrenameOtr(key) in otr && RenameOtr(UnrenameOtr(key)) == key
    ensures forall k :: k in primary ==> RenamePrimary(k) in p + o && (p + o)[RenamePrimary(k)] == primary[k]
    ensures forall k :: k in otr ==> RenameOtr(k) in p + o && (p + o)[RenameOtr(k)] == otr[k]
    ensures forall key :: key in p + o ==>
      (UnrenamePrimary(key) in primary && RenamePrimary(UnrenamePrimary(key)) == key)
      || (UnrenameOtr(key) in otr && RenameOtr(UnrenameOtr(key)) == key)
  {
    forall k | k in primary
      ensures RenamePrimary(k) !in o
    {
      var key := RenamePrimary(k);
      if key in o {
        RenameDisjoint(k, UnrenameOtr(key));
      }
    }
  }

  /* ---------------- one primary row ---------------- */

  /** The date of `row` names an on-the-run security that has an accumulator. */
  predicate HasTable(row: FeatureRow, otrCusips: map<int, string>, tables: map<string, seq<FeatureRow>>)
    requires HasIds(row)
  {
    DateOf(row) in otrCusips && otrCusips[DateOf(row)] in tables
  }

  /** The features table of the security on the run on the date of `row`. */
  function TableOf(row: FeatureRow, otrCusips: map<int, string>, tables: map<string, seq<FeatureRow>>): seq<FeatureRow>
    requires HasIds(row) && HasTable(row, otrCusips, tables)
  {
    tables[otrCusips[DateOf(row)]]
  }

  /** Some row of `table` is strictly earlier than `t`. */
  predicate SomeEarlier(table: seq<FeatureRow>, t: int)
    requires AllHaveIds(table)
  {
    exists i :: 0 <= i < |table| && StampOf(table[i]) < t
  }

  /** Row `j` of `table` is strictly earlier than `t` and no earlier than any other such row. */
  predicate LatestAt(table: seq<FeatureRow>, t: int, j: int)
    requires AllHaveIds(table)
  {
    && 0 <= j < |table| && StampOf(table[j]) < t
    && forall i :: 0 <= i < |table| && StampOf(table[i]) < t ==> StampOf(table[i]) <= StampOf(table[j])
  }

  /** The body of the merge loop for one primary row. `otrCusips` maps a date
      to the security on the run that day, `tables` each security to its
      accumulated features. A security without an accumulator is a KeyError. */
  function MergeOne(row: FeatureRow, otrCusips: map<int, string>, tables: map<string, seq<FeatureRow>>)
    : (r: Result<Merged>)
    requires HasIds(row)
    requires forall c :: c in tables ==> AllHaveIds(tables[c])
    ensures !r.Err?
    // the three reasons to skip, in the order they are tested
    ensures DateOf(row) !in otrCusips ==> r == Ok(Skipped(NoOtrCusip(DateOf(row), row.index)))
    ensures DateOf(row) in otrCusips ==> (r.Fatal? <==> otrCusips[DateOf(row)] !in tables)
    ensures HasTable(row, otrCusips, tables) && |TableOf(row, otrCusips, tables)| == 0 ==>
      r == Ok(Skipped(NoOtrFeatures(otrCusips[DateOf(row)], row.index)))
    ensures HasTable(row, otrCusips, tables) && |TableOf(row, otrCusips, tables)| > 0 &&
      !SomeEarlier(TableOf(row, otrCusips, tables), StampOf(row))
      ==> r == Ok(Skipped(NoneBefore(row.index)))
    // a merged row exactly when that security has a row strictly earlier
    ensures HasTable(row, otrCusips, tables) ==>
      (r.Ok? && r.value.Row? <==> SomeEarlier(TableOf(row, otrCusips, tables), StampOf(row)))
    // and then it is under the primary row's index, joined with the latest such row
    ensures r.Ok? && r.value.Row? ==>
      && HasTable(row, otrCusips, tables)
      && r.value.row.index == row.index
      && exists j :: (LatestAt(TableOf(row, otrCusips, tables), StampOf(row), j)
        && r.value.row.features == MergeFeatures(row.features, TableOf(row, otrCusips, tables)[j].features))
  {
    var date := DateOf(row);
    if date !in otrCusips then Ok(Skipped(NoOtrCusip(date, row.index)))
    else
      var otrCusip := otrCusips[date];
      if otrCusip !in tables then Fatal("KeyError: " + otrCusip)
      else
        Ok(Against(row, otrCusip, tables[otrCusip]))
  }

  /** The merge of one primary row against the features table of its
      on-the-run security. */
  function Against(row: FeatureRow, otrCusip: string, table: seq<FeatureRow>): (r: Merged)
    requires HasIds(row) && AllHaveIds(table)
    ensures |table| == 0 ==> r == Skipped(NoOtrFeatures(otrCusip, row.index))
    ensures |table| > 0 && !SomeEarlier(table, StampOf(row)) ==> r == Skipped(NoneBefore(row.index))
    ensures r.Row? <==> SomeEarlier(table, StampOf(row))
    ensures r.Row? ==>
      && r.row.index == row.index
      && exists j :: (LatestAt(table, StampOf(row), j) && r.row.features == MergeFeatures(row.features, table[j].features))
  {
    if |table| == 0 then Skipped(NoOtrFeatures(otrCusip, row.index))
    else
      match LatestBefore(table, StampOf(row))
      case None => Skipped(NoneBefore(row.index))
      case Some(o) =>
        var j :| 0 <= j < |table| && table[j] == o;
        assert LatestAt(table, StampOf(row), j);
        Row(FeatureRow(row.index, MergeFeatures(row.features, o.features)))
  }

  /* ---------------- the merge loop ---------------- */

  /** Each primary row's outcome, in order. */
  function Outcomes(rows: seq<FeatureRow>, otrCusips: map<int, string>, tables: map<string, seq<FeatureRow>>)
    : (r: seq<Result<Merged>>)
    requires AllHaveIds(rows)
    requires forall c :: c in tables ==> AllHaveIds(tables[c])
    ensures |r| == |rows|
    ensures forall i :: 0 <= i < |rows| ==> r[i] == MergeOne(rows[i], otrCusips, tables)
  {
    if |rows| == 0 then []
    else
      var front := rows[..|rows| - 1];
      assert forall i :: 0 <= i < |front| ==> front[i] == rows[i];
      Outcomes(front, otrCusips, tables) + [MergeOne(rows[|rows| - 1], otrCusips, tables)]
  }

  /** The merged rows among some outcomes, in order. */
  function MergedIn(outs: seq<Result<Merged>>): seq<FeatureRow> {
    if |outs| == 0 then [] else MergedOf(outs[0]) + MergedIn(outs[1..])
  }

  /** The skip reasons among some outcomes, in order. */
  function SkippedIn(outs: seq<Result<Merged>>): seq<Skip> {
    if |outs| == 0 then [] else SkippedOf(outs[0]) + SkippedIn(outs[1..])
  }

  function MergedOf(r: Result<Merged>): seq<FeatureRow> {
    if r.Ok? && r.value.Row? then [r.value.row] else []
  }

  function SkippedOf(r: Result<Merged>): seq<Skip> {
    if r.Ok? && r.value.Skipped? then [r.value.reason] else []
  }

  /** One more outcome adds its merged row or skip reason at the end. */
  lemma {:induction false} InSnoc(outs: seq<Result<Merged>>, x: Result<Merged>)
    ensures MergedIn(outs + [x]) == MergedIn(outs) + MergedOf(x)
    ensures SkippedIn(outs + [x]) == SkippedIn(outs) + SkippedOf(x)
    decreases |outs|
  {
    if |outs| == 0 {
      assert MergedIn([x]) == MergedOf(x) + MergedIn([]);
      assert SkippedIn([x]) == SkippedOf(x) + SkippedIn([]);
    } else {
      assert (outs + [x])[1..] == outs[1..] + [x];
      InSnoc(outs[1..], x);
      assert MergedOf(outs[0]) + (MergedIn(outs[1..]) + MergedOf(x)) == (MergedOf(outs[0]) + MergedIn(outs[1..])) + MergedOf(x);
      assert SkippedOf(outs[0]) + (SkippedIn(outs[1..]) + SkippedOf(x)) == (SkippedOf(outs[0]) + SkippedIn(outs[1..])) + SkippedOf(x);
    }
  }

  /** An outcome's merged row is among the merged rows, and every merged row
      is some outcome's. */
  lemma {:induction false} MergedInMembers(outs: seq<Result<Merged>>, m: FeatureRow)
    ensures m in MergedIn(outs) <==> exists i :: 0 <= i < |outs| && outs[i] == Ok(Row(m))
    decreases |outs|
  {
    if |outs| > 0 {
      MergedInMembers(outs[1..], m);
      if exists i :: 0 <= i < |outs| && outs[i] == Ok(Row(m)) {
        var i :| 0 <= i < |outs| && outs[i] == Ok(Row(m));
        if i > 0 {
          assert outs[1..][i - 1] == Ok(Row(m));
        }
      }
      if exists i :: 0 <= i < |outs[1..]| && outs[1..][i] == Ok(Row(m)) {
        var i :| 0 <= i < |outs[1..]| && outs[1..][i] == Ok(Row(m));
        assert outs[i + 1] == Ok(Row(m));
      }
    }
  }

  /** An outcome's skip reason is among the skip reasons, and every skip
      reason is some outcome's. */
  lemma {:induction false} SkippedInMembers(outs: seq<Result<Merged>>, why: Skip)
    ensures why in SkippedIn(outs) <==> exists i :: 0 <= i < |outs| && outs[i] == Ok(Skipped(why))
    decreases |outs|
  {
    if |outs| > 0 {
      SkippedInMembers(outs[1..], why);
      if exists i :: 0 <= i < |outs| && outs[i] == Ok(Skipped(why)) {
        var i :| 0 <= i < |outs| && outs[i] == Ok(Skipped(why));
        if i > 0 {
          assert outs[1..][i - 1] == Ok(Skipped(why));
        }
      }
      if exists i :: 0 <= i < |outs[1..]| && outs[1..][i] == Ok(Skipped(why)) {
        var i :| 0 <= i < |outs[1..]| && outs[1..][i] == Ok(Skipped(why));
        assert outs[i + 1] == Ok(Skipped(why));
      }
    }
  }

  /** The merged table and the skipped rows' reasons, in order. */
  datatype MergeResult = MergeResult(merged: seq<FeatureRow>, skipped: seq<Skip>)

  /** The merge loop over the primary rows' outcomes: the first failure stops
      it, otherwise merged rows and skip reasons are collected in order.
      `asWritten` selects the skip bookkeeping as the source writes it:
      `merge_info` subscripts itself, a function, which raises a TypeError on
      the first skipped row. */
  function Collect(outs: seq<Result<Merged>>, asWritten: bool): (r: Result<MergeResult>)
    ensures !r.Err?
    ensures r.Ok? ==> |r.value.merged| + |r.value.skipped| == |outs|
    ensures !asWritten ==> (r.Ok? <==> forall i :: 0 <= i < |outs| ==> outs[i].Ok?)
    ensures asWritten ==> (r.Ok? <==> forall i :: 0 <= i < |outs| ==> outs[i].Ok? && outs[i].value.Row?)
    ensures r.Ok? ==> r.value.merged == MergedIn(outs) && r.value.skipped == SkippedIn(outs)
  {
    if |outs| == 0 then Ok(MergeResult([], []))
    else
      var front := outs[..|outs| - 1];
      var last := outs[|outs| - 1];
      assert outs == front + [last];
      InSnoc(front, last);
      var before := Collect(front, asWritten);
      assert forall i :: 0 <= i < |front| ==> front[i] == outs[i];
      if before.Fatal? then Fatal(before.assertion)
      else
        match last
        case Err(e) => Fatal(e)
        case Fatal(a) => Fatal(a)
        case Ok(Row(m)) => Ok(before.value.(merged := before.value.merged + [m]))
        case Ok(Skipped(why)) =>
          if asWritten then Fatal("TypeError: 'function' object has no attribute '__getitem__'")
          else Ok(before.value.(skipped := before.value.skipped + [why]))
  }

  /** The merge loop over the primary rows. */
  function Merge(
    rows: seq<FeatureRow>, otrCusips: map<int, string>, tables: map<string, seq<FeatureRow>>, asWritten: bool)
    : (r: Result<MergeResult>)
    requires AllHaveIds(rows)
    requires forall c :: c in tables ==> AllHaveIds(tables[c])
    ensures !r.Err?
    // every primary row is merged or skipped
    ensures r.Ok? ==> |r.value.merged| + |r.value.skipped| == |rows|
    // the run fails exactly when some row's security has no accumulator (or, as written, on a skip)
    ensures !asWritten ==> (r.Ok? <==> forall i :: 0 <= i < |rows| ==> MergeOne(rows[i], otrCusips, tables).Ok?)
    ensures asWritten && r.Ok? ==> |r.value.skipped| == 0
    // the merged rows and the skip reasons are the primary rows' outcomes, in order
    ensures r.Ok? ==> r.value.merged == MergedIn(Outcomes(rows, otrCusips, tables))
    ensures r.Ok? ==> r.value.skipped == SkippedIn(Outcomes(rows, otrCusips, tables))
  {
    var outs := Outcomes(rows, otrCusips, tables);
    var r := Collect(outs, asWritten);
    if asWritten && r.Ok? then NoSkips(outs); r else r
  }

  /** Outcomes that are all merges have no skip reasons. */
  lemma {:induction false} NoSkips(outs: seq<Result<Merged>>)
    requires forall i :: 0 <= i < |outs| ==> outs[i].Ok? && outs[i].value.Row?
    ensures SkippedIn(outs) == []
    decreases |outs|
  {
    if |outs| > 0 {
      assert forall i :: 0 <= i < |outs[1..]| ==> outs[1..][i] == outs[i + 1];
      NoSkips(outs[1..]);
    }
  }

  /** The merged rows are exactly the merges of the primary rows, and the skip
      reasons exactly their skips. */
  lemma MergeFromRows(
    rows: seq<FeatureRow>, otrCusips: map<int, string>, tables: map<string, seq<FeatureRow>>, asWritten: bool)
    requires AllHaveIds(rows)
    requires forall c :: c in tables ==> AllHaveIds(tables[c])
    requires Merge(rows, otrCusips, tables, asWritten).Ok?
    ensures var r := Merge(rows, otrCusips, tables, asWritten).value;
      forall m :: m in r.merged <==> exists i :: 0 <= i < |rows| && MergeOne(rows[i], otrCusips, tables) == Ok(Row(m))
    ensures var r := Merge(rows, otrCusips, tables, asWritten).value;
      forall why :: why in r.skipped <==> exists i :: 0 <= i < |rows| && MergeOne(rows[i], otrCusips, tables) == Ok(Skipped(why))
  {
    var outs := Outcomes(rows, otrCusips, tables);
    forall m
      ensures m in MergedIn(outs) <==> exists i :: 0 <= i < |rows| && MergeOne(rows[i], otrCusips, tables) == Ok(Row(m))
    {
      MergedInMembers(outs, m);
    }
    forall why
      ensures why in SkippedIn(outs) <==> exists i :: 0 <= i < |rows| && MergeOne(rows[i], otrCusips, tables) == Ok(Skipped(why))
    {
      SkippedInMembers(outs, why);
    }
  }

  /** The source's bookkeeping agrees with the corrected one exactly when no
      row is skipped; on any skip it stops the run instead of counting it. */
  lemma {:induction false} CollectAsWritten(outs: seq<Result<Merged>>)
    ensures var corrected := Collect(outs, false);
      corrected.Ok? && |corrected.value.skipped| == 0 ==> Collect(outs, true) == corrected
    ensures var corrected := Collect(outs, false);
      corrected.Ok? && |corrected.value.skipped| > 0 ==> Collect(outs, true).Fatal?
    decreases |outs|
  {
    if |outs| > 0 {
      CollectAsWritten(outs[..|outs| - 1]);
    }
  }

  /** The source's merge agrees with the corrected one exactly when no row is
      skipped; on any skip it stops the run instead of counting it. */
  lemma MergeAsWritten(
    rows: seq<FeatureRow>, otrCusips: map<int, string>, tables: map<string, seq<FeatureRow>>)
    requires AllHaveIds(rows)
    requires forall c :: c in tables ==> AllHaveIds(tables[c])
    ensures var corrected := Merge(rows, otrCusips, tables, false);
      corrected.Ok? && |corrected.value.skipped| == 0 ==> Merge(rows, otrCusips, tables, true) == corrected
    ensures var corrected := Merge(rows, otrCusips, tables, false);
      corrected.Ok? && |corrected.value.skipped| > 0 ==> Merge(rows, otrCusips, tables, true).Fatal?
  {
    CollectAsWritten(Outcomes(rows, otrCusips, tables));
  }

  /** A primary row on a date with no on-the-run security: the corrected
      merge counts one skip, the source's stops with a TypeError. */
  lemma SkipCounterexample()
    ensures var row := FeatureRow(7, map["id_effectivedate" := Day(0), "id_effectivedatetime" := Stamp(0)]);
      && Merge([row], map[], map[], false) == Ok(MergeResult([], [NoOtrCusip(0, 7)]))
      && Merge([row], map[], map[], true).Fatal?
  {
    var row := FeatureRow(7, map["id_effectivedate" := Day(0), "id_effectivedatetime" := Stamp(0)]);
    assert "id_effectivedate" != "id_effectivedatetime";
    assert HasIds(row) && DateOf(row) == 0;
    assert [row][..0] == [];
    assert Merge([], map[], map[], false) == Ok(MergeResult([], []));
    assert MergeOne(row, map[], map[]) == Ok(Skipped(NoOtrCusip(0, 7)));
    assert Merge([row], map[], map[], false)
      == Ok(MergeResult([], []).(skipped := [] + [NoOtrCusip(0, 7)]));
    assert [] + [NoOtrCusip(0, 7)] == [NoOtrCusip(0, 7)];
    assert Merge([row], map[], map[], false) == Ok(MergeResult([], [NoOtrCusip(0, 7)]));
  }

  /** `do_work` after the record loop: nothing is merged when no row of the
      query security on the selected date was created (`sys.exit(0)`), or
      when its table has no row on that date; otherwise the corrected merge
      loop (`Merge` with the skip counted, see `SkipCounterexample`) runs
      over those rows. */
  function MergeStage(
    created: nat, primaryTable: seq<FeatureRow>, selectedDay: int,
    otrCusips: map<int, string>, tables: map<string, seq<FeatureRow>>)
    : (r: Result<MergeResult>)
    requires AllHaveIds(primaryTable)
    requires forall c :: c in tables ==> AllHaveIds(tables[c])
    ensures created == 0 || |OnDate(primaryTable, selectedDay)| == 0 ==> r == Ok(MergeResult([], []))
    ensures created > 0 ==> r == Merge(OnDate(primaryTable, selectedDay), otrCusips, tables, false)
  {
    if created == 0 then Ok(MergeResult([], []))
    else
      var rows := OnDate(primaryTable, selectedDay);
      if |rows| == 0 then Ok(MergeResult([], []))
      else Merge(rows, otrCusips, tables, false)
  }
}

/**
 * clean_data, in its six steps: drop exact duplicate rows (first kept),
 * title-case plan_name, parse join_date into a timestamp, fill a null
 * plan_price from the plan table, fill a null region with "Unknown", and
 * repair rows whose cancellation_date is before their join_date.
 */
module Cleaner {
  import opened Wrappers
  import opened Calendar
  import opened Records
  import opened Text
  import opened Digits

  datatype CleanError = UnparseableJoinDate(text: string)

  // ── Step 1: drop duplicates ──────────────────────────────────────────

  predicate Distinct(s: seq<Row>) {
    forall i, j :: 0 <= i < j < |s| ==> s[i] != s[j]
  }

  /** Position of the first occurrence of x. */
  function FirstIndex(s: seq<Row>, x: Row): (i: nat)
    requires x in s
    ensures i < |s| && s[i] == x && x !in s[..i]
  {
    if s[0] == x then 0
    else
      var j := FirstIndex(s[1..], x);
      assert s[..j + 1] == [s[0]] + s[1..][..j];
      j + 1
  }

  /** drop_duplicates(): every distinct row once, by its first occurrence. */
  function DropDuplicates(s: seq<Row>): (r: seq<Row>)
    ensures Distinct(r)
    ensures forall x :: x in r <==> x in s
    ensures |r| <= |s|
  {
    if s == [] then []
    else
      var p := s[..|s| - 1];
      var x := s[|s| - 1];
      var d := DropDuplicates(p);
      assert forall y :: y in s <==> y in p || y == x;
      if x in p then d else d + [x]
  }

  lemma FirstIndexExtend(p: seq<Row>, x: Row, y: Row)
    requires y in p
    ensures FirstIndex(p + [x], y) == FirstIndex(p, y)
  {
    var i := FirstIndex(p, y);
    var s := p + [x];
    assert s[i] == y && s[..i] == p[..i];
    var j := FirstIndex(s, y);
    assert forall k :: 0 <= k < i ==> s[k] != y by {
      assert forall k :: 0 <= k < i ==> s[..i][k] == s[k];
    }
    assert forall k :: 0 <= k < j ==> s[k] != y by {
      assert forall k :: 0 <= k < j ==> s[..j][k] == s[k];
    }
  }

  /** The rows of r appear in the order of their first occurrences in s. */
  predicate InFirstOccurrenceOrder(s: seq<Row>, r: seq<Row>)
    requires forall x :: x in r ==> x in s
  {
    forall i, j :: 0 <= i < j < |r| ==> FirstIndex(s, r[i]) < FirstIndex(s, r[j])
  }

  /** The rows that are kept stay in the order of their first occurrences. */
  lemma {:induction false} DropDuplicatesKeepsOrder(s: seq<Row>)
    ensures InFirstOccurrenceOrder(s, DropDuplicates(s))
  {
    if s != [] {
      var p := s[..|s| - 1];
      var x := s[|s| - 1];
      assert s == p + [x];
      DropDuplicatesKeepsOrder(p);
      var d := DropDuplicates(p);
      assert InFirstOccurrenceOrder(p, d);
      forall y | y in d ensures FirstIndex(s, y) == FirstIndex(p, y) < |p| {
        FirstIndexExtend(p, x, y);
      }
      if x in p {
        forall i, j | 0 <= i < j < |d| ensures FirstIndex(s, d[i]) < FirstIndex(s, d[j]) {
          assert d[i] in d && d[j] in d;
        }
      } else {
        assert forall k :: 0 <= k < |p| ==> s[k] != x by {
          assert forall k :: 0 <= k < |p| ==> s[k] == p[k];
        }
        assert FirstIndex(s, x) == |p|;
        var r := d + [x];
        forall i, j | 0 <= i < j < |r| ensures FirstIndex(s, r[i]) < FirstIndex(s, r[j]) {
          assert r[i] == d[i] && d[i] in d;
          if j < |d| {
            assert r[j] == d[j] && d[j] in d;
          }
        }
      }
    }
  }

  /** Rows without duplicates pass step 1 unchanged. */
  lemma {:induction false} DropDuplicatesOfDistinct(s: seq<Row>)
    requires Distinct(s)
    ensures DropDuplicates(s) == s
  {
    if s != [] {
      var p := s[..|s| - 1];
      assert Distinct(p);
      DropDuplicatesOfDistinct(p);
      assert s == p + [s[|s| - 1]];
    }
  }

  /** df.drop_duplicates(), scanning the rows once and remembering those already seen. */
  method DropDuplicateRows(rows: seq<Row>) returns (kept: seq<Row>)
    ensures kept == DropDuplicates(rows)
  {
    var seen: set<Row> := {};
    kept := [];
    for i := 0 to |rows|
      invariant kept == DropDuplicates(rows[..i])
      invariant forall x :: x in seen <==> x in rows[..i]
    {
      assert rows[..i + 1][..i] == rows[..i];
      if rows[i] !in seen {
        kept := kept + [rows[i]];
        seen := seen + {rows[i]};
      }
      assert rows[..i + 1] == rows[..i] + [rows[i]];
    }
    assert rows[..|rows|] == rows;
  }

  // ── Steps 2 to 6, one row at a time ─────────────────────────────────

  /** Step 2: plan_name.str.title(); the name is left in title-case normal form and nothing else changes. */
  function TitlePlan(r: Row): (t: Row)
    ensures t.planName == TitleCase(r.planName) && TitleCase(t.planName) == t.planName
    ensures t.(planName := r.planName) == r
  {
    TitleCaseIdempotent(r.planName);
    r.(planName := TitleCase(r.planName))
  }

  /**
   * Step 3 for one cell: a timestamp stays, ISO or "%m/%d/%Y" text is read
   * as that date, and any other text stops the cleaning, as
   * pd.to_datetime(format="mixed") does.
   */
  function ParseJoinCell(c: JoinCell): (r: Result<Day, CleanError>)
    ensures c.Stamp? ==> r == Success(c.day)
    ensures c.Text? ==> (r.Success? <==> ParseUs(c.text).Some? || ParseIso(c.text).Some?)
    ensures c.Text? && r.Success? ==> FormatUs(r.value) == c.text || FormatIso(r.value) == c.text
  {
    match c
    case Stamp(d) => Success(d)
    case Text(s) =>
      if ParseIso(s).Some? then
        FormatIsoOfParseIso(s);
        Success(ParseIso(s).value)
      else if ParseUs(s).Some? then
        FormatUsOfParseUs(s);
        Success(ParseUs(s).value)
      else Failure(UnparseableJoinDate(s))
  }

  /** Step 3 for one row: join_date becomes a timestamp; nothing else changes. */
  function StampJoin(r: Row): (t: Result<Row, CleanError>)
    ensures t.Success? <==> ParseJoinCell(r.joinDate).Success?
    ensures t.Success? ==> t.value.joinDate == Stamp(ParseJoinCell(r.joinDate).value) && t.value.(joinDate := r.joinDate) == r
    ensures r.joinDate.Stamp? ==> t == Success(r)
  {
    match ParseJoinCell(r.joinDate)
    case Success(d) => Success(r.(joinDate := Stamp(d)))
    case Failure(e) => Failure(e)
  }

  /**
   * Step 4: price_lookup.get(plan_name, plan_price) where the price is null.
   * Only a null price of a known plan changes, and it becomes that plan's price.
   */
  function FillPrice(r: Row): (t: Row)
    ensures t.planPrice.Some? <==> r.planPrice.Some? || r.planName in PlanPrices
    ensures r.planPrice.None? && r.planName in PlanPrices ==> t.planPrice == Some(PlanPrices[r.planName])
    ensures r.planPrice.Some? || r.planName !in PlanPrices ==> t == r
    ensures t.(planPrice := r.planPrice) == r
  {
    if r.planPrice.None? && r.planName in PlanPrices then r.(planPrice := Some(PlanPrices[r.planName])) else r
  }

  /** Step 5: region.fillna("Unknown"); only a null region changes. */
  function FillRegion(r: Row): (t: Row)
    ensures t.region.Some?
    ensures r.region.Some? ==> t == r
    ensures r.region.None? ==> t == r.(region := Some("Unknown"))
  {
    if r.region.None? then r.(region := Some("Unknown")) else r
  }

  /** A cancellation date before the join date. */
  predicate CancelsBeforeJoining(r: Row)
    requires r.joinDate.Stamp?
  {
    r.cancellationDate.Some? && r.cancellationDate.value < r.joinDate.day
  }

  /**
   * Step 6: a row that cancels before it joins keeps its place, but loses its
   * cancellation date and reason and is marked not churned; every other row
   * is untouched.
   */
  function RepairDates(r: Row): (t: Row)
    requires r.joinDate.Stamp?
    ensures t.joinDate == r.joinDate && !CancelsBeforeJoining(t)
    ensures CancelsBeforeJoining(r) ==>
              t == r.(cancellationDate := None, isChurned := 0, cancellationReason := None)
    ensures !CancelsBeforeJoining(r) ==> t == r
  {
    if CancelsBeforeJoining(r) then r.(cancellationDate := None, isChurned := 0, cancellationReason := None)
    else r
  }

  /** What every cleaned row satisfies. */
  predicate CleanForm(t: Row) {
    && t.joinDate.Stamp?
    && TitleCase(t.planName) == t.planName
    && (t.planName in PlanPrices ==> t.planPrice.Some?)
    && t.region.Some?
    && !CancelsBeforeJoining(t)
  }

  /** Steps 2 to 6 applied to one row. */
  function NormalizeRow(r: Row): (t: Result<Row, CleanError>)
    ensures t.Success? <==> ParseJoinCell(r.joinDate).Success?
    ensures t.Success? ==> CleanForm(t.value)
    ensures t.Success? ==> && t.value.planName == TitleCase(r.planName)
                           && t.value.joinDate == Stamp(ParseJoinCell(r.joinDate).value)
    ensures t.Success? ==>
              t.value.(planName := r.planName, joinDate := r.joinDate, planPrice := r.planPrice, region := r.region,
                       isChurned := r.isChurned, cancellationDate := r.cancellationDate,
                       cancellationReason := r.cancellationReason) == r
  {
    match StampJoin(TitlePlan(r))
    case Failure(e) => Failure(e)
    case Success(p) => Success(RepairDates(FillRegion(FillPrice(p))))
  }

  /**
   * The values steps 4 to 6 give: a present price stays and a null one takes
   * the price of the (title-cased) plan if it has one; a null region becomes
   * "Unknown" and a present one stays; the churn columns change only for a
   * row that cancels before it joins, which loses its cancellation and is
   * marked not churned.
   */
  lemma NormalizeRowFills(r: Row)
    requires NormalizeRow(r).Success?
    ensures var t := NormalizeRow(r).value;
            var plan := TitleCase(r.planName);
            && t.planPrice == (if r.planPrice.Some? then r.planPrice
                               else if plan in PlanPrices then Some(PlanPrices[plan]) else None)
            && t.region == (if r.region.None? then Some("Unknown") else r.region)
    ensures var t := NormalizeRow(r).value;
            var early := r.cancellationDate.Some? && r.cancellationDate.value < ParseJoinCell(r.joinDate).value;
            && (early ==> t.cancellationDate.None? && t.cancellationReason.None? && t.isChurned == 0)
            && (!early ==> && t.cancellationDate == r.cancellationDate && t.cancellationReason == r.cancellationReason
                           && t.isChurned == r.isChurned)
  {
  }

  /** A row already in clean form is left as it is. */
  lemma NormalizeCleanRow(t: Row)
    requires CleanForm(t)
    ensures NormalizeRow(t) == Success(t)
  {
    assert TitlePlan(t) == t;
  }

  /** Normalising twice gives the same row as normalising once. */
  lemma NormalizeRowIdempotent(r: Row)
    requires NormalizeRow(r).Success?
    ensures NormalizeRow(NormalizeRow(r).value) == NormalizeRow(r)
  {
    NormalizeCleanRow(NormalizeRow(r).value);
  }

  /** A row step applied to every row; the first row it fails on aborts the whole run. */
  function MapRows(step: Row -> Result<Row, CleanError>, rows: seq<Row>): (r: Result<seq<Row>, CleanError>)
    ensures r.Success? ==> |r.value| == |rows|
  {
    if rows == [] then Success([])
    else
      match step(rows[0])
      case Failure(e) => Failure(e)
      case Success(t) =>
        match MapRows(step, rows[1..])
        case Failure(e) => Failure(e)
        case Success(ts) => Success([t] + ts)
  }

  /** On success every row is stepped in place; a failure is the failure of some row. */
  lemma {:induction false} MapRowsResult(step: Row -> Result<Row, CleanError>, rows: seq<Row>)
    ensures var r := MapRows(step, rows);
            && (r.Success? ==> |r.value| == |rows|
                               && forall i :: 0 <= i < |rows| ==> step(rows[i]) == Success(r.value[i]))
            && (r.Failure? ==> exists i :: 0 <= i < |rows| && step(rows[i]) == Failure(r.error))
  {
    if rows != [] && step(rows[0]).Success? {
      var tail := rows[1..];
      MapRowsResult(step, tail);
      var r := MapRows(step, rows);
      if r.Success? {
        var ts := MapRows(step, tail).value;
        assert r.value == [step(rows[0]).value] + ts;
        forall i | 0 <= i < |rows| ensures step(rows[i]) == Success(r.value[i]) {
          if i > 0 {
            assert rows[i] == tail[i - 1] && r.value[i] == ts[i - 1];
          }
        }
      } else {
        var i :| 0 <= i < |tail| && step(tail[i]) == Failure(r.error);
        assert rows[i + 1] == tail[i];
      }
    }
  }

  /** If the step succeeds on every row, the run succeeds with exactly those results. */
  lemma {:induction false} MapRowsSuccess(step: Row -> Result<Row, CleanError>, rows: seq<Row>, out: seq<Row>)
    requires |out| == |rows| && forall i :: 0 <= i < |rows| ==> step(rows[i]) == Success(out[i])
    ensures MapRows(step, rows) == Success(out)
  {
    if rows != [] {
      assert step(rows[0]) == Success(out[0]);
      forall i | 0 <= i < |rows| - 1 ensures step(rows[1..][i]) == Success(out[1..][i]) {
        assert rows[1..][i] == rows[i + 1];
      }
      MapRowsSuccess(step, rows[1..], out[1..]);
      assert out == [out[0]] + out[1..];
    }
  }

  /** The run fails with the error of the first row the step fails on. */
  lemma {:induction false} MapRowsFailure(step: Row -> Result<Row, CleanError>, rows: seq<Row>, i: nat, e: CleanError)
    requires i < |rows| && step(rows[i]) == Failure(e)
    requires forall j :: 0 <= j < i ==> step(rows[j]).Success?
    ensures MapRows(step, rows) == Failure(e)
  {
    if i > 0 {
      MapRowsFailure(step, rows[1..], i - 1, e);
    }
  }

  /** Steps 2 to 6 over all rows; the first row whose join date cannot be read aborts the whole run. */
  function NormalizeAll(rows: seq<Row>): (r: Result<seq<Row>, CleanError>)
    ensures r.Success? ==> |r.value| == |rows|
  {
    MapRows(NormalizeRow, rows)
  }

  /** On success every row is normalised in place; a failure is the failure of some row. */
  lemma NormalizeAllResult(rows: seq<Row>)
    ensures var r := NormalizeAll(rows);
            && (r.Success? ==> |r.value| == |rows|
                               && forall i :: 0 <= i < |rows| ==> NormalizeRow(rows[i]) == Success(r.value[i]))
            && (r.Failure? ==> exists i :: 0 <= i < |rows| && NormalizeRow(rows[i]) == Failure(r.error))
  {
    MapRowsResult(NormalizeRow, rows);
  }

  /** Row k of a successful run is the normalisation of input row k. */
  lemma NormalizedAt(rows: seq<Row>, k: nat)
    requires NormalizeAll(rows).Success? && k < |rows|
    ensures k < |NormalizeAll(rows).value| && NormalizeRow(rows[k]) == Success(NormalizeAll(rows).value[k])
  {
    NormalizeAllResult(rows);
  }

  /** clean_data: step 1, then steps 2 to 6. */
  function Clean(dirty: seq<Row>): (r: Result<seq<Row>, CleanError>)
    ensures r.Success? ==> |r.value| == |DropDuplicates(dirty)| <= |dirty|
  {
    NormalizeAll(DropDuplicates(dirty))
  }

  // ── The cleaner as clean_data runs it: one column-wide step after another ──

  method StandardizePlanNames(rows: seq<Row>) returns (out: seq<Row>)
    ensures |out| == |rows| && forall i :: 0 <= i < |rows| ==> out[i] == TitlePlan(rows[i])
  {
    out := rows;
    for i := 0 to |out|
      invariant |out| == |rows|
      invariant forall j :: 0 <= j < i ==> out[j] == TitlePlan(rows[j])
      invariant forall j :: i <= j < |rows| ==> out[j] == rows[j]
    {
      out := out[i := out[i].(planName := TitleCase(out[i].planName))];
    }
  }

  method StandardizeJoinDates(rows: seq<Row>) returns (res: Result<seq<Row>, CleanError>)
    ensures res.Success? ==> |res.value| == |rows|
                             && forall i :: 0 <= i < |rows| ==> StampJoin(rows[i]) == Success(res.value[i])
    ensures res.Failure? ==> exists i :: 0 <= i < |rows| && StampJoin(rows[i]) == Failure(res.error)
                                         && forall j :: 0 <= j < i ==> StampJoin(rows[j]).Success?
  {
    var out := rows;
    for i := 0 to |out|
      invariant |out| == |rows|
      invariant forall j :: 0 <= j < i ==> StampJoin(rows[j]) == Success(out[j])
      invariant forall j :: i <= j < |rows| ==> out[j] == rows[j]
    {
      var cell := ParseJoinCell(out[i].joinDate);
      if cell.Failure? {
        return Failure(cell.error);
      }
      out := out[i := out[i].(joinDate := Stamp(cell.value))];
    }
    return Success(out);
  }

  method FillMissingPrices(rows: seq<Row>) returns (out: seq<Row>)
    ensures |out| == |rows| && forall i :: 0 <= i < |rows| ==> out[i] == FillPrice(rows[i])
  {
    out := rows;
    for i := 0 to |out|
      invariant |out| == |rows|
      invariant forall j :: 0 <= j < i ==> out[j] == FillPrice(rows[j])
      invariant forall j :: i <= j < |rows| ==> out[j] == rows[j]
    {
      if out[i].planPrice.None? && out[i].planName in PlanPrices {
        out := out[i := out[i].(planPrice := Some(PlanPrices[out[i].planName]))];
      }
    }
  }

  method FillMissingRegions(rows: seq<Row>) returns (out: seq<Row>)
    ensures |out| == |rows| && forall i :: 0 <= i < |rows| ==> out[i] == FillRegion(rows[i])
  {
    out := rows;
    for i := 0 to |out|
      invariant |out| == |rows|
      invariant forall j :: 0 <= j < i ==> out[j] == FillRegion(rows[j])
      invariant forall j :: i <= j < |rows| ==> out[j] == rows[j]
    {
      if out[i].region.None? {
        out := out[i := out[i].(region := Some("Unknown"))];
      }
    }
  }

  method RepairCancellationDates(rows: seq<Row>) returns (out: seq<Row>)
    requires forall i :: 0 <= i < |rows| ==> rows[i].joinDate.Stamp?
    ensures |out| == |rows| && forall i :: 0 <= i < |rows| ==> out[i] == RepairDates(rows[i])
  {
    out := rows;
    for i := 0 to |out|
      invariant |out| == |rows|
      invariant forall j :: 0 <= j < i ==> out[j] == RepairDates(rows[j])
      invariant forall j :: i <= j < |rows| ==> out[j] == rows[j]
    {
      var r := out[i];
      if CancelsBeforeJoining(r) {
        out := out[i := r.(cancellationDate := None, isChurned := 0, cancellationReason := None)];
      }
    }
  }

  /** clean_data(dirty_df). */
  method CleanData(dirty: seq<Row>) returns (res: Result<seq<Row>, CleanError>)
    ensures res == Clean(dirty)
  {
    var df := DropDuplicateRows(dirty);
    ghost var deduped := df;
    df := StandardizePlanNames(df);
    var parsed := StandardizeJoinDates(df);
    if parsed.Failure? {
      var i :| 0 <= i < |df| && StampJoin(df[i]) == Failure(parsed.error)
               && forall j :: 0 <= j < i ==> StampJoin(df[j]).Success?;
      NormalizeAllFailure(deduped, i, parsed.error);
      return Failure(parsed.error);
    }
    df := parsed.value;
    df := FillMissingPrices(df);
    df := FillMissingRegions(df);
    df := RepairCancellationDates(df);
    NormalizeAllSuccess(deduped, df);
    return Success(df);
  }

  lemma NormalizeAllSuccess(rows: seq<Row>, out: seq<Row>)
    requires |out| == |rows| && forall i :: 0 <= i < |rows| ==> NormalizeRow(rows[i]) == Success(out[i])
    ensures NormalizeAll(rows) == Success(out)
  {
    MapRowsSuccess(NormalizeRow, rows, out);
  }

  lemma NormalizeAllFailure(rows: seq<Row>, i: nat, e: CleanError)
    requires i < |rows| && NormalizeRow(rows[i]) == Failure(e)
    requires forall j :: 0 <= j < i ==> NormalizeRow(rows[j]).Success?
    ensures NormalizeAll(rows) == Failure(e)
  {
    MapRowsFailure(NormalizeRow, rows, i, e);
  }

  // ── What the whole cleaner promises ─────────────────────────────────

  /**
   * Only step 1 changes the number of rows, and every row that comes out is
   * in clean form.
   */
  lemma CleanOutput(dirty: seq<Row>)
    requires Clean(dirty).Success?
    ensures var out := Clean(dirty).value;
            && |out| == |DropDuplicates(dirty)| <= |dirty|
            && forall i :: 0 <= i < |out| ==> CleanForm(out[i])
  {
    NormalizeAllResult(DropDuplicates(dirty));
    var out := Clean(dirty).value;
    forall i | 0 <= i < |out| ensures CleanForm(out[i]) {
      assert NormalizeRow(DropDuplicates(dirty)[i]) == Success(out[i]);
    }
  }

  /** Cleaning fails exactly when some raw join date is text in neither recognised format. */
  lemma CleanFailsIff(dirty: seq<Row>)
    ensures Clean(dirty).Failure? <==>
            exists i :: 0 <= i < |dirty| && ParseJoinCell(dirty[i].joinDate).Failure?
  {
    var d := DropDuplicates(dirty);
    NormalizeAllResult(d);
    if Clean(dirty).Failure? {
      var k :| 0 <= k < |d| && NormalizeRow(d[k]) == Failure(Clean(dirty).error);
      assert d[k] in dirty;
      var i :| 0 <= i < |dirty| && dirty[i] == d[k];
    } else {
      forall i | 0 <= i < |dirty| ensures ParseJoinCell(dirty[i].joinDate).Success? {
        assert dirty[i] in d;
        var k :| 0 <= k < |d| && d[k] == dirty[i];
        assert NormalizeRow(d[k]).Success?;
      }
    }
  }

  /**
   * A row that joined on "2023-05-10" but cancelled on 2023-01-01 (ordinal
   * 738521, see ScenarioOrdinals) is kept: its join date becomes the
   * timestamp 738650, which is 2023-05-10, and it loses its cancellation.
   */
  lemma CancelBeforeJoinIsRepaired(r: Row)
    requires r.joinDate == Text("2023-05-10")
    requires r.cancellationDate == Some(738521)
    ensures NormalizeRow(r).Success?
    ensures var t := NormalizeRow(r).value;
            && t.joinDate == Stamp(738650)
            && t.cancellationDate.None? && t.cancellationReason.None? && t.isChurned == 0
  {
    ScenarioOrdinals();
    IsoJoinDateRead();
    var stamped := TitlePlan(r).(joinDate := Stamp(738650));
    assert StampJoin(TitlePlan(r)) == Success(stamped);
    var filled := FillRegion(FillPrice(stamped));
    assert CancelsBeforeJoining(filled);
  }

  lemma ScenarioOrdinals()
    ensures FromCivil(Civil(2023, 5, 10)) == 738650 && FromCivil(Civil(2023, 1, 1)) == 738521
  {
  }

  lemma IsoJoinDateRead()
    ensures ParseJoinCell(Text("2023-05-10")) == Success(FromCivil(Civil(2023, 5, 10)))
  {
    var join := FromCivil(Civil(2023, 5, 10));
    ToCivilOfFromCivil(Civil(2023, 5, 10));
    PadExamples();
    assert FormatIso(join) == "2023-05-10";
    ParseIsoOfFormatIso(join);
  }
}

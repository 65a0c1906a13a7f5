/**
 * generate_customers: one record per customer, derived from the random
 * draws (given here as parameters, each within the range its random call
 * can return). Join dates fall in 2021-01-01 .. 2024-06-30; tenure and
 * lifetime are measured against 2024-09-30.
 */
module Generator {
  import opened Wrappers
  import opened Calendar
  import opened Records
  import opened Churn

  const JoinStart: Day := FromCivil(Civil(2021, 1, 1))
  const JoinEnd: Day := FromCivil(Civil(2024, 6, 30))
  /** The fixed "today" of the generator. */
  const Reference: Day := FromCivil(Civil(2024, 9, 30))

  /** The three dates as Python's date.toordinal numbers them. */
  lemma FixedDateOrdinals()
    ensures JoinStart == 737791 && JoinEnd == 739067 && Reference == 739159
  {
  }

  /**
   * random_date(start, end): start plus randint(0, days between them);
   * `draw` is what randint returned. randint refuses an empty range, so an
   * end before the start gives None.
   */
  function RandomDate(start: Day, end: Day, draw: nat): (r: Option<Day>)
    requires start <= end ==> draw <= end - start
    ensures r.Some? <==> start <= end
    ensures r.Some? ==> start <= r.value <= end
  {
    if start <= end then Some(start + draw) else None
  }

  /** Every day of the range, ends included, is the result of some draw. */
  lemma RandomDateCoversRange(start: Day, end: Day, d: Day)
    requires start <= d <= end
    ensures exists draw: nat :: draw <= end - start && RandomDate(start, end, draw) == Some(d)
  {
    assert RandomDate(start, end, d - start) == Some(d);
  }

  /** Whole 30-day months from the join date to the reference date (Python's floor division). */
  function TenureMonths(join: Day): (t: int)
    ensures t * 30 <= Reference - join < t * 30 + 30
    ensures JoinStart <= join <= JoinEnd ==> 3 <= t <= 45
  {
    (Reference - join) / 30
  }

  /** Last day a churned customer may cancel: tenure_months*30 days after joining, but not after the reference date. */
  function CancelWindowEnd(join: Day): (e: int)
    requires JoinStart <= join <= JoinEnd
    ensures join + 30 < e <= Reference
  {
    var e := join + TenureMonths(join) * 30;
    if e < Reference then e else Reference
  }

  /** The cap at the reference date never binds: the window always ends tenure_months*30 days after joining. */
  lemma CancelWindowEndIsTenureEnd(join: Day)
    requires JoinStart <= join <= JoinEnd
    ensures CancelWindowEnd(join) == join + TenureMonths(join) * 30
    ensures TenureMonths(join) >= 3
  {
  }

  /** The outcomes of the random calls for one customer, in the order the generator makes them. */
  datatype Draws = Draws(
    ageGroup: string,
    age: int,
    region: string,
    planName: string,
    paymentMethod: string,
    joinOffset: nat,
    avgMonthlyLogins: nat,
    avgSessionMinutes: nat,
    supportTickets: nat,
    billingIssues: nat,
    coin: real,
    cancelOffset: nat,
    reason: string)

  /** Each draw lies in the range of the random call it stands for. */
  predicate ValidDraws(d: Draws) {
    && d.ageGroup in AgeGroups
    && AgeGroups[d.ageGroup].0 <= d.age <= AgeGroups[d.ageGroup].1
    && d.region in Regions
    && d.planName in PlanPrices
    && d.paymentMethod in PaymentMethods
    && d.joinOffset <= JoinEnd - JoinStart
    && 0.0 <= d.coin < 1.0
    && d.cancelOffset <= CancelWindowEnd(JoinStart + d.joinOffset) - (JoinStart + d.joinOffset + 30)
    && d.reason in CancellationReasons
  }

  /** The row as it stands before the churn decision (the churn columns hold the not-churned values). */
  function Profile(id: int, d: Draws): (r: Row)
    requires ValidDraws(d)
  {
    var join := RandomDate(JoinStart, JoinEnd, d.joinOffset).value;
    Row(id, d.age, d.ageGroup, Some(d.region), d.planName, Some(PlanPrices[d.planName]),
        d.paymentMethod, Stamp(join), TenureMonths(join), d.avgMonthlyLogins, d.avgSessionMinutes,
        d.supportTickets, d.billingIssues, 0, None, None, Reference - join)
  }

  /**
   * random.random() < churn_prob, with the probability in hundredths: a coin
   * below the base rate always churns, one at or above the cap never does.
   */
  predicate Churns(row: Row, coin: real)
    ensures coin < BaseRate as real / 100.0 ==> Churns(row, coin)
    ensures coin >= Cap as real / 100.0 ==> !Churns(row, coin)
  {
    coin * 100.0 < ChurnProbability(row) as real
  }

  /** The churn columns agree with each other: is_churned is 1 exactly when a cancellation date and reason are set. */
  predicate ChurnConsistent(r: Row) {
    && (r.isChurned == 0 || r.isChurned == 1)
    && (r.isChurned == 1 <==> r.cancellationDate.Some?)
    && (r.isChurned == 1 <==> r.cancellationReason.Some?)
  }

  /** What every generated row satisfies. */
  predicate GeneratedRow(r: Row, id: int) {
    && r.customerId == id
    && r.ageGroup in AgeGroups
    && AgeGroups[r.ageGroup].0 <= r.age <= AgeGroups[r.ageGroup].1
    && 18 <= r.age <= 80
    && r.region.Some? && r.region.value in Regions
    && r.planName in PlanPrices && r.planPrice == Some(PlanPrices[r.planName])
    && r.paymentMethod in PaymentMethods
    && r.joinDate.Stamp? && JoinStart <= r.joinDate.day <= JoinEnd
    && r.tenureMonths == TenureMonths(r.joinDate.day)
    && ChurnConsistent(r)
    && (r.cancellationReason.Some? ==> r.cancellationReason.value in CancellationReasons)
    && (r.cancellationDate.Some? ==>
          && r.joinDate.day + 30 <= r.cancellationDate.value
          && r.cancellationDate.value <= r.joinDate.day + r.tenureMonths * 30 <= Reference
          && r.customerLifetimeDays == r.cancellationDate.value - r.joinDate.day)
    && (r.cancellationDate.None? ==> r.customerLifetimeDays == Reference - r.joinDate.day)
  }

  /** A whole generated data set: row k is customer k + 1. */
  predicate GeneratedData(rows: seq<Row>) {
    forall k :: 0 <= k < |rows| ==> GeneratedRow(rows[k], k + 1)
  }

  /** In generated data the customer id gives the row's position. */
  lemma GeneratedIdAt(rows: seq<Row>, k: nat)
    requires GeneratedData(rows) && k < |rows|
    ensures rows[k].customerId == k + 1
  {
  }

  /** The record generated for customer `id` from draws `d`. */
  function Customer(id: int, d: Draws): (r: Row)
    requires ValidDraws(d)
    ensures GeneratedRow(r, id)
    ensures r.isChurned == 1 <==> Churns(r, d.coin)
  {
    AgeGroupBounds(d.ageGroup);
    var row := Profile(id, d);
    var join := row.joinDate.day;
    CancelWindowEndIsTenureEnd(join);
    assert join == JoinStart + d.joinOffset;
    if Churns(row, d.coin) then
      var cancel := RandomDate(join + 30, CancelWindowEnd(join), d.cancelOffset).value;
      var r := row.(isChurned := 1, cancellationDate := Some(cancel), cancellationReason := Some(d.reason),
                    customerLifetimeDays := cancel - join);
      ChurnIgnoresOtherColumns(r, row);
      r
    else
      row
  }

  /** One pass of generate_customers' loop body: the record of customer `id`. */
  method GenerateCustomer(id: int, d: Draws) returns (row: Row)
    requires ValidDraws(d)
    ensures row == Customer(id, d)
  {
    row := Profile(id, d);
    var join := row.joinDate.day;
    assert join == JoinStart + d.joinOffset;
    CancelWindowEndIsTenureEnd(join);
    var churnProb := ChurnProbability(row);
    if d.coin * 100.0 < churnProb as real {
      var cancel := RandomDate(join + 30, CancelWindowEnd(join), d.cancelOffset).value;
      row := row.(isChurned := 1, cancellationDate := Some(cancel), cancellationReason := Some(d.reason),
                  customerLifetimeDays := cancel - join);
    } else {
      row := row.(isChurned := 0, cancellationDate := None, cancellationReason := None,
                  customerLifetimeDays := Reference - join);
    }
  }

  /**
   * The closing summary reads the is_churned column, which a frame built
   * from no records does not have.
   */
  datatype GenerateError = MissingChurnColumn

  /**
   * generate_customers(n): customers 1..n, the i-th derived from the i-th
   * draws. With n = 0 the summary line raises KeyError.
   */
  method GenerateCustomers(n: nat, draws: seq<Draws>) returns (res: Result<seq<Row>, GenerateError>)
    requires |draws| == n
    requires forall k :: 0 <= k < n ==> ValidDraws(draws[k])
    ensures n == 0 <==> res.Failure?
    ensures res.Success? ==> |res.value| == n
    ensures res.Success? ==> forall k :: 0 <= k < n ==> res.value[k] == Customer(k + 1, draws[k])
    ensures res.Success? ==> GeneratedData(res.value)
  {
    var records := [];
    for i := 1 to n + 1
      invariant |records| == i - 1
      invariant forall k :: 0 <= k < i - 1 ==> records[k] == Customer(k + 1, draws[k])
    {
      var row := GenerateCustomer(i, draws[i - 1]);
      records := records + [row];
    }
    if n == 0 {
      return Failure(MissingChurnColumn);
    }
    forall k | 0 <= k < n ensures GeneratedRow(records[k], k + 1) {
      assert records[k] == Customer(k + 1, draws[k]);
    }
    return Success(records);
  }

  /** Generated customer ids are distinct. */
  lemma GeneratedIdsDistinct(records: seq<Row>)
    requires GeneratedData(records)
    ensures forall i, j :: 0 <= i < j < |records| ==> records[i].customerId != records[j].customerId
  {
  }
}

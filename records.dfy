/**
 * The customer record the generator produces and the cleaner repairs, and
 * the fixed lookup tables (plans with their prices, age groups, regions,
 * payment methods, cancellation reasons).
 */
module Records {
  import opened Wrappers
  import opened Calendar

  /**
   * A join_date cell: a timestamp as the generator writes it, or text after
   * the defect step has rendered it as a string.
   */
  datatype JoinCell = Stamp(day: Day) | Text(text: string)

  /**
   * One row of the customer data frame. Null cells are None. Prices are in
   * cents, average logins and session minutes in tenths (both are rounded to
   * one decimal), is_churned is the integer 1 or 0.
   */
  datatype Row = Row(
    customerId: int,
    age: int,
    ageGroup: string,
    region: Option<string>,
    planName: string,
    planPrice: Option<int>,
    paymentMethod: string,
    joinDate: JoinCell,
    tenureMonths: int,
    avgMonthlyLogins: int,
    avgSessionMinutes: int,
    supportTickets: int,
    billingIssuesCount: int,
    isChurned: int,
    cancellationDate: Option<Day>,
    cancellationReason: Option<string>,
    customerLifetimeDays: int)

  /** SUBSCRIPTION_PLANS, price in cents. */
  const PlanPrices: map<string, int> := map["Basic" := 999, "Standard" := 1599, "Premium" := 2299]

  /** AGE_GROUPS: label to inclusive (lowest, highest) age. */
  const AgeGroups: map<string, (int, int)> :=
    map["18-24" := (18, 24), "25-34" := (25, 34), "35-44" := (35, 44),
        "45-54" := (45, 54), "55-64" := (55, 64), "65+" := (65, 80)]

  const Regions: seq<string> := ["Northeast", "Southeast", "Midwest", "Southwest", "West", "International"]

  const PaymentMethods: seq<string> := ["Credit Card", "Debit Card", "PayPal", "Bank Transfer"]

  const CancellationReasons: seq<string> :=
    ["Too Expensive", "Not Enough Content", "Technical Issues",
     "Switching to Competitor", "No Longer Needed", "Found Better Alternative"]

  /** Every age group lies inside 18..80 and its bounds are in order. */
  lemma AgeGroupBounds(g: string)
    requires g in AgeGroups
    ensures 18 <= AgeGroups[g].0 <= AgeGroups[g].1 <= 80
  {
  }
}

/**
 * calculate_churn_probability: a base churn rate plus fixed weights for
 * low engagement, plan tier, short tenure, billing issues, young age group
 * and international region, capped at 95%. Probabilities are in hundredths.
 */
module Churn {
  import opened Wrappers
  import opened Records

  const BaseRate: int := 10
  const Cap: int := 95

  /** Low engagement: fewer than 3 (else fewer than 8) logins a month; logins are in tenths. */
  function EngagementRisk(logins: int): (w: int)
    ensures w == 35 || w == 15 || w == 0
  {
    if logins < 30 then 35 else if logins < 80 then 15 else 0
  }

  function PlanRisk(plan: string): (w: int)
    ensures w == 8 || w == 4 || w == 0
  {
    if plan == "Premium" then 8 else if plan == "Standard" then 4 else 0
  }

  /** New customers: under 6 (else under 12) months of tenure. */
  function TenureRisk(months: int): (w: int)
    ensures w == 20 || w == 8 || w == 0
  {
    if months < 6 then 20 else if months < 12 then 8 else 0
  }

  function BillingRisk(issues: int): (w: int)
    ensures w == 12 || w == 0
  {
    if issues > 0 then 12 else 0
  }

  function AgeRisk(group: string): (w: int)
    ensures w == 6 || w == 0
  {
    if group == "18-24" || group == "25-34" then 6 else 0
  }

  function RegionRisk(region: Option<string>): (w: int)
    ensures w == 10 || w == 0
  {
    if region == Some("International") then 10 else 0
  }

  /** The base rate plus the weight of every risk factor present, capped. */
  function ChurnProbability(r: Row): (p: int)
    ensures BaseRate <= p <= Cap
  {
    var prob := BaseRate + EngagementRisk(r.avgMonthlyLogins) + PlanRisk(r.planName)
                + TenureRisk(r.tenureMonths) + BillingRisk(r.billingIssuesCount)
                + AgeRisk(r.ageGroup) + RegionRisk(r.region);
    if prob < Cap then prob else Cap
  }

  /** Only the six risk columns matter: the churn outcome columns do not feed back. */
  lemma ChurnIgnoresOtherColumns(a: Row, b: Row)
    requires a.avgMonthlyLogins == b.avgMonthlyLogins && a.planName == b.planName
    requires a.tenureMonths == b.tenureMonths && a.billingIssuesCount == b.billingIssuesCount
    requires a.ageGroup == b.ageGroup && a.region == b.region
    ensures ChurnProbability(a) == ChurnProbability(b)
  {
  }

  /**
   * Fewer logins never lower the churn probability; against an engaged
   * customer (8 or more logins), under 3 logins adds exactly 35 and 3 to
   * under 8 adds exactly 15, below the cap.
   */
  lemma FewerLoginsNoLowerChurn(a: Row, b: Row)
    requires a == b.(avgMonthlyLogins := a.avgMonthlyLogins)
    requires a.avgMonthlyLogins <= b.avgMonthlyLogins
    ensures ChurnProbability(a) >= ChurnProbability(b)
    ensures b.avgMonthlyLogins >= 80 && a.avgMonthlyLogins < 30 && ChurnProbability(b) + 35 <= Cap ==>
              ChurnProbability(a) == ChurnProbability(b) + 35
    ensures b.avgMonthlyLogins >= 80 && 30 <= a.avgMonthlyLogins < 80 && ChurnProbability(b) + 15 <= Cap ==>
              ChurnProbability(a) == ChurnProbability(b) + 15
  {
  }

  /**
   * A shorter tenure never lowers the churn probability; against a customer
   * of 12 months or more, under 6 months adds exactly 20 and 6 to 11 months
   * adds exactly 8, below the cap.
   */
  lemma ShorterTenureNoLowerChurn(a: Row, b: Row)
    requires a == b.(tenureMonths := a.tenureMonths)
    requires a.tenureMonths <= b.tenureMonths
    ensures ChurnProbability(a) >= ChurnProbability(b)
    ensures b.tenureMonths >= 12 && a.tenureMonths < 6 && ChurnProbability(b) + 20 <= Cap ==>
              ChurnProbability(a) == ChurnProbability(b) + 20
    ensures b.tenureMonths >= 12 && 6 <= a.tenureMonths < 12 && ChurnProbability(b) + 8 <= Cap ==>
              ChurnProbability(a) == ChurnProbability(b) + 8
  {
  }

  /** Low engagement is the biggest factor: its top weight exceeds every other factor's weight. */
  lemma EngagementIsBiggestFactor(logins: int, plan: string, months: int, issues: int, group: string, region: Option<string>)
    requires logins < 30
    ensures EngagementRisk(logins) > PlanRisk(plan) && EngagementRisk(logins) > TenureRisk(months)
    ensures EngagementRisk(logins) > BillingRisk(issues) && EngagementRisk(logins) > AgeRisk(group)
    ensures EngagementRisk(logins) > RegionRisk(region)
  {
  }

  /**
   * The plan tier weighs less than short tenure, a billing issue or an
   * international region: by the weights, plan price is not the second
   * churn driver.
   */
  lemma PlanWeighsLessThanTenureBillingRegion(plan: string, months: int, issues: int)
    requires months < 6 && issues > 0
    ensures PlanRisk(plan) < TenureRisk(months) && PlanRisk(plan) < BillingRisk(issues)
    ensures PlanRisk(plan) < RegionRisk(Some("International"))
  {
  }

  /** Having had a billing issue never lowers the churn probability. */
  lemma BillingIssueNoLowerChurn(a: Row, b: Row)
    requires a == b.(billingIssuesCount := a.billingIssuesCount)
    requires a.billingIssuesCount > 0 && b.billingIssuesCount <= 0
    ensures ChurnProbability(a) >= ChurnProbability(b)
    ensures ChurnProbability(b) + 12 <= Cap ==> ChurnProbability(a) == ChurnProbability(b) + 12
  {
  }

  /** A pricier plan never lowers the churn probability (price sensitivity). */
  lemma PricierPlanNoLowerChurn(a: Row, b: Row)
    requires a == b.(planName := a.planName)
    requires a.planName in PlanPrices && b.planName in PlanPrices
    requires PlanPrices[a.planName] >= PlanPrices[b.planName]
    ensures ChurnProbability(a) >= ChurnProbability(b)
  {
  }

  /** Premium over Basic adds exactly 8, Standard over Basic exactly 4, below the cap. */
  lemma PlanTierAddsWeight(a: Row, b: Row)
    requires a == b.(planName := a.planName) && b.planName == "Basic"
    ensures a.planName == "Premium" && ChurnProbability(b) + 8 <= Cap ==> ChurnProbability(a) == ChurnProbability(b) + 8
    ensures a.planName == "Standard" && ChurnProbability(b) + 4 <= Cap ==> ChurnProbability(a) == ChurnProbability(b) + 4
  {
  }

  /** Belonging to a young age group ("18-24" or "25-34") never lowers the probability, and adds exactly 6 below the cap. */
  lemma YoungAgeGroupNoLowerChurn(a: Row, b: Row)
    requires a == b.(ageGroup := a.ageGroup)
    requires a.ageGroup == "18-24" || a.ageGroup == "25-34"
    ensures ChurnProbability(a) >= ChurnProbability(b)
    ensures b.ageGroup != "18-24" && b.ageGroup != "25-34" && ChurnProbability(b) + 6 <= Cap ==>
              ChurnProbability(a) == ChurnProbability(b) + 6
  {
  }

  /** An international customer never churns less than the same customer elsewhere, and exactly 10 more below the cap. */
  lemma InternationalNoLowerChurn(a: Row, b: Row)
    requires a == b.(region := a.region)
    requires a.region == Some("International") && b.region != Some("International")
    ensures ChurnProbability(a) >= ChurnProbability(b)
    ensures ChurnProbability(b) + 10 <= Cap ==> ChurnProbability(a) == ChurnProbability(b) + 10
  {
  }

  /** A customer with no risk factor churns at the base rate. */
  lemma NoRiskIsBaseRate(r: Row)
    requires r.avgMonthlyLogins >= 80 && r.tenureMonths >= 12 && r.billingIssuesCount <= 0
    requires r.planName != "Premium" && r.planName != "Standard"
    requires r.ageGroup != "18-24" && r.ageGroup != "25-34" && r.region != Some("International")
    ensures ChurnProbability(r) == BaseRate
  {
  }

  /** A customer with every risk factor reaches the cap (the weights sum past it). */
  lemma AllRisksReachCap(r: Row)
    requires r.avgMonthlyLogins < 30 && r.planName == "Premium" && r.tenureMonths < 6
    requires r.billingIssuesCount > 0 && (r.ageGroup == "18-24" || r.ageGroup == "25-34")
    requires r.region == Some("International")
    ensures ChurnProbability(r) == Cap
  {
  }
}

/**
 * `CostProjector`: monthly cost, revenue, profit and margin of a proposed
 * price, and a verdict against a fixed margin threshold. Amounts are exact
 * reals; the presentation rounding of the returned figures is not modelled
 * (the verdict is taken on the unrounded margin, as in the source).
 */
module Projector {

  /** The `recommendation` strings. */
  datatype Recommendation = Viable | ThinMargins | IncreaseHourlyRate

  function RecommendationText(r: Recommendation): string {
    match r
    case Viable => "Viable"
    case ThinMargins => "Thin margins - increase price or reduce costs"
    case IncreaseHourlyRate => "Increase hourly rate or optimize compute"
  }

  /** One projection; `volume` is calls or hours per month. */
  datatype Projection = Projection(
    volume: int,
    monthlyCost: real,
    monthlyRevenue: real,
    monthlyProfit: real,
    marginPercent: real,
    recommendation: Recommendation)

  /** Margin threshold of API services, in percent. */
  const ApiThreshold: real := 50.0
  /** Margin threshold of compute services, in percent. */
  const ComputeThreshold: real := 60.0

  /** Profit as a percentage of revenue, and 0 when revenue is not positive. */
  function MarginPercent(profit: real, revenue: real): (m: real)
    ensures revenue > 0.0 ==> m * revenue == profit * 100.0
    ensures revenue <= 0.0 ==> m == 0.0
  {
    if revenue > 0.0 then profit / revenue * 100.0 else 0.0
  }

  /** The shared tail of both projections: profit, margin and the verdict
      against `threshold`, with `fallback` as the non-viable advice. */
  function Assess(volume: int, cost: real, revenue: real, threshold: real, fallback: Recommendation): (p: Projection)
    requires 0.0 < threshold < 100.0 && fallback != Viable
    ensures p.volume == volume && p.monthlyCost == cost && p.monthlyRevenue == revenue
    ensures p.monthlyProfit == revenue - cost
    ensures revenue > 0.0 ==> p.marginPercent * revenue == (revenue - cost) * 100.0
    ensures revenue <= 0.0 ==> p.marginPercent == 0.0
    ensures p.recommendation == Viable || p.recommendation == fallback
    ensures p.recommendation == Viable <==> p.marginPercent >= threshold
    ensures p.recommendation == Viable <==>
              revenue > 0.0 && cost * 100.0 <= revenue * (100.0 - threshold)
  {
    var profit := revenue - cost;
    var margin := MarginPercent(profit, revenue);
    MarginThreshold(profit, revenue, margin, threshold);
    Projection(volume, cost, revenue, profit, margin, if margin >= threshold then Viable else fallback)
  }

  /** A margin clears a positive threshold exactly when revenue is positive
      and cost leaves the threshold's share of revenue as profit. */
  lemma MarginThreshold(profit: real, revenue: real, margin: real, threshold: real)
    requires 0.0 < threshold
    requires revenue > 0.0 ==> margin * revenue == profit * 100.0
    requires revenue <= 0.0 ==> margin == 0.0
    ensures margin >= threshold <==> revenue > 0.0 && profit * 100.0 >= threshold * revenue
  {
    if revenue > 0.0 {
      assert margin >= threshold <==> margin * revenue >= threshold * revenue;
    }
  }

  /** `project_api_service`: cost per call, price per thousand calls, and a
      50% margin threshold. */
  function ProjectApiService(callsPerMonth: int, costPerCall: real, pricePer1k: real): (p: Projection)
    ensures p.volume == callsPerMonth
    ensures p.monthlyCost == callsPerMonth as real * costPerCall
    ensures p.monthlyRevenue * 1000.0 == callsPerMonth as real * pricePer1k
    ensures p.monthlyProfit == p.monthlyRevenue - p.monthlyCost
    ensures p.monthlyRevenue > 0.0 ==> p.marginPercent * p.monthlyRevenue == p.monthlyProfit * 100.0
    ensures p.monthlyRevenue <= 0.0 ==> p.marginPercent == 0.0
    ensures p.recommendation == Viable <==> p.marginPercent >= ApiThreshold
    ensures p.recommendation == Viable <==> p.monthlyRevenue > 0.0 && 2.0 * p.monthlyCost <= p.monthlyRevenue
    ensures p.recommendation != Viable ==> p.recommendation == ThinMargins
    ensures RecommendationText(p.recommendation)
            == if p.marginPercent >= 50.0 then "Viable" else "Thin margins - increase price or reduce costs"
  {
    var cost := callsPerMonth as real * costPerCall;
    var revenue := (callsPerMonth as real / 1000.0) * pricePer1k;
    Assess(callsPerMonth, cost, revenue, ApiThreshold, ThinMargins)
  }

  /** `project_compute_service`: cost and rate per hour, and a 60% margin
      threshold. */
  function ProjectComputeService(hoursPerMonth: int, costPerHour: real, hourlyRate: real): (p: Projection)
    ensures p.volume == hoursPerMonth
    ensures p.monthlyCost == hoursPerMonth as real * costPerHour
    ensures p.monthlyRevenue == hoursPerMonth as real * hourlyRate
    ensures p.monthlyProfit == p.monthlyRevenue - p.monthlyCost
    ensures p.monthlyRevenue > 0.0 ==> p.marginPercent * p.monthlyRevenue == p.monthlyProfit * 100.0
    ensures p.monthlyRevenue <= 0.0 ==> p.marginPercent == 0.0
    ensures p.recommendation == Viable <==> p.marginPercent >= ComputeThreshold
    ensures p.recommendation == Viable <==> p.monthlyRevenue > 0.0 && 5.0 * p.monthlyCost <= 2.0 * p.monthlyRevenue
    ensures p.recommendation != Viable ==> p.recommendation == IncreaseHourlyRate
    ensures RecommendationText(p.recommendation)
            == if p.marginPercent >= 60.0 then "Viable" else "Increase hourly rate or optimize compute"
  {
    var cost := hoursPerMonth as real * costPerHour;
    var revenue := hoursPerMonth as real * hourlyRate;
    Assess(hoursPerMonth, cost, revenue, ComputeThreshold, IncreaseHourlyRate)
  }

  /** With a positive call volume the API verdict depends only on the unit
      economics: viable exactly when the price per thousand calls is positive
      and at least twice the cost of a thousand calls. */
  lemma ApiVerdictIgnoresVolume(callsPerMonth: int, costPerCall: real, pricePer1k: real)
    requires callsPerMonth > 0
    ensures ProjectApiService(callsPerMonth, costPerCall, pricePer1k).recommendation == Viable
            <==> pricePer1k > 0.0 && 2000.0 * costPerCall <= pricePer1k
  {
    var p := ProjectApiService(callsPerMonth, costPerCall, pricePer1k);
    var n := callsPerMonth as real;
    assert p.monthlyRevenue == n * pricePer1k / 1000.0;
    ScalePositive(n, pricePer1k, 0.0);
    ScalePositive(n, 2000.0 * costPerCall, pricePer1k);
    assert 2.0 * p.monthlyCost <= p.monthlyRevenue <==> n * (2000.0 * costPerCall) <= n * pricePer1k;
  }

  /** With a positive number of hours the compute verdict depends only on the
      hourly figures: viable exactly when the rate is positive and the hourly
      cost is at most 40% of it. */
  lemma ComputeVerdictIgnoresVolume(hoursPerMonth: int, costPerHour: real, hourlyRate: real)
    requires hoursPerMonth > 0
    ensures ProjectComputeService(hoursPerMonth, costPerHour, hourlyRate).recommendation == Viable
            <==> hourlyRate > 0.0 && 5.0 * costPerHour <= 2.0 * hourlyRate
  {
    var n := hoursPerMonth as real;
    ScalePositive(n, hourlyRate, 0.0);
    ScalePositive(n, 5.0 * costPerHour, 2.0 * hourlyRate);
    assert 5.0 * (n * costPerHour) == n * (5.0 * costPerHour);
    assert 2.0 * (n * hourlyRate) == n * (2.0 * hourlyRate);
  }

  /** Multiplying by a positive factor keeps the order. */
  lemma ScalePositive(n: real, a: real, b: real)
    requires n > 0.0
    ensures a <= b <==> n * a <= n * b
    ensures a > b <==> n * a > n * b
  {
    if a <= b {
      assert n * (b - a) >= 0.0;
    } else {
      assert n * (a - b) > 0.0;
    }
  }

  /** The documented example: 50,000 calls a month at $0.002 a call, priced
      at $5 per thousand calls, is "Viable" with a 60% margin. */
  lemma ApiDocumentedExample()
    ensures ProjectApiService(50000, 0.002, 5.0)
            == Projection(50000, 100.0, 250.0, 150.0, 60.0, Viable)
    ensures RecommendationText(ProjectApiService(50000, 0.002, 5.0).recommendation) == "Viable"
  {
  }

  /** The module's own demonstration: 100,000 calls a month at $0.002 a call,
      priced at $10 per thousand calls, is "Viable" with an 80% margin. */
  lemma ApiDemonstrationExample()
    ensures ProjectApiService(100000, 0.002, 10.0)
            == Projection(100000, 200.0, 1000.0, 800.0, 80.0, Viable)
    ensures RecommendationText(ProjectApiService(100000, 0.002, 10.0).recommendation) == "Viable"
  {
  }
}

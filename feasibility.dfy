/**
 * The feasibility engine: from scalar site parameters (roof area, rainfall,
 * tank size, household, installation cost and the optional per-capita use,
 * water tariff and roof type) to a report with hydrology, financials,
 * environmental impact, reliability, a climate projection, chart series and
 * a score out of 100 with its category.
 *
 * Arithmetic is over exact reals. `Math.round` is `Round` (halves go up) and
 * `Number(x.toFixed(k))` is `ToFixed` (halves go away from zero).
 */
module Feasibility {
  import opened JsValues

  const FirstFlushLoss: real := 0.05
  const EvaporationLoss: real := 0.02
  const RechargeFraction: real := 0.4
  const DeclineRate: real := 5.0
  const SavingsGrowth: real := 1.03
  const Co2KgPerKl: real := 2.5
  const TankerCapacity: real := 5000.0
  const SubsidyThreshold: real := 30000.0
  const UrbanFloodReduction: real := 2.5
  const DefaultDailyUse: real := 135.0
  const DefaultWaterCost: real := 0.02
  const DefaultRoofType: string := "Concrete"

  /** Litres per square metre of catchment per millimetre of rain that run off each roof type. */
  const RunoffCoefficients: map<string, real> :=
    map["Concrete" := 0.85, "Metal Sheet" := 0.9, "Tile" := 0.8, "Asbestos" := 0.82, "Other" := 0.75]

  /** Weights of each month, January first, in the annual rainfall (they add up to 1.025). */
  const MonthlyDistribution: seq<real> :=
    [0.02, 0.025, 0.03, 0.04, 0.07, 0.15, 0.28, 0.22, 0.10, 0.05, 0.02, 0.02]

  const Months: seq<string> :=
    ["Jan", "Feb", "Mar", "Apr", "May", "Jun", "Jul", "Aug", "Sep", "Oct", "Nov", "Dec"]

  /** The engine's input. An absent optional field takes its default. */
  datatype FeasibilityInput = FeasibilityInput(
    roofArea: real,          // m²
    annualRainfall: real,    // mm per year
    tankSize: real,          // L
    householdSize: real,     // people
    installationCost: real,  // INR
    avgDailyUse: Option<real>,   // L per person per day
    waterCost: Option<real>,     // INR per L
    roofType: Option<string>)

  /** The engine does not validate; the model asks for non-negative quantities. */
  predicate ValidInput(inp: FeasibilityInput)
  {
    && inp.roofArea >= 0.0 && inp.annualRainfall >= 0.0 && inp.tankSize >= 0.0
    && inp.householdSize >= 0.0 && inp.installationCost >= 0.0
    && (inp.avgDailyUse.Some? ==> inp.avgDailyUse.value >= 0.0)
    && (inp.waterCost.Some? ==> inp.waterCost.value >= 0.0)
  }

  datatype Hydrology = Hydrology(
    roofArea: real, runoffCoefficient: real, annualHarvestable: int, netAnnualHarvest: int,
    overflowLoss: int, firstFlushLossPercent: real, evaporationLossPercent: real,
    groundwaterRecharge: int, harvestUtilizationPercent: real)

  datatype YearCostBenefit = YearCostBenefit(year: int, cost: real, savings: int)

  datatype Financials = Financials(
    installationCost: real, annualSavings: int, paybackYears: Option<real>, roiPercent: real,
    netSavings10yr: int, costBenefitTrend: seq<YearCostBenefit>, subsidyEligible: bool)

  datatype EnvironmentalImpact = EnvironmentalImpact(
    groundwaterRecharge: int, co2SavedKgPerYear: real, co2SavedTonsPerYear: real,
    tankerTripsAvoided: int, urbanFloodReductionPercent: real)

  datatype ReliabilityEstimate = ReliabilityEstimate(
    reliabilityPercent: int, tankInfluence: string, rainfallSpread: string)

  datatype ClimateTrend = ClimateTrend(
    baseRainfall: real, projectedRainfall: seq<int>, avgDeclineRate: real, climateResilience: real)

  datatype MonthPoint = MonthPoint(month: string, rainfall: int, harvested: int, netHarvest: int)

  datatype Charts = Charts(monthlyRainfallTrend: seq<MonthPoint>, costBenefitTrend: seq<YearCostBenefit>)

  datatype Summary = Summary(
    annualHarvestKl: real, annualDemandKl: real, coveragePercent: real, roiPercent: real,
    reliabilityPercent: int, paybackYears: Option<real>, finalVerdict: string)

  datatype Report = Report(
    score: int, category: string, hydrology: Hydrology, financials: Financials,
    environmentalImpact: EnvironmentalImpact, reliability: ReliabilityEstimate,
    climateTrend: ClimateTrend, charts: Charts, summary: Summary, recommendations: seq<string>)

  // ---------------------------------------------------------------- numbers

  function Max(a: real, b: real): real { if a >= b then a else b }
  function Min(a: real, b: real): real { if a <= b then a else b }
  function MaxInt(a: int, b: int): int { if a >= b then a else b }

  /** `Math.round`: the nearest integer, a half rounded up. */
  function Round(x: real): (r: int)
    ensures x - 0.5 < r as real <= x + 0.5
  {
    (x + 0.5).Floor
  }

  lemma RoundMonotone(x: real, y: real)
    requires x <= y
    ensures Round(x) <= Round(y)
  {
  }

  function Pow10(n: nat): (r: real)
    ensures r >= 1.0
  {
    if n == 0 then 1.0 else 10.0 * Pow10(n - 1)
  }

  /** `x * 10^digits` rounded to an integer, a half rounded away from zero. */
  function ScaledRound(x: real, digits: nat): (n: int)
    ensures x >= 0.0 ==> n >= 0 && x * Pow10(digits) - 0.5 < n as real <= x * Pow10(digits) + 0.5
    ensures x < 0.0 ==> n <= 0 && x * Pow10(digits) - 0.5 <= n as real < x * Pow10(digits) + 0.5
  {
    var p := Pow10(digits);
    if x >= 0.0 then
      MulMonotone(p, 0.0, x);
      Round(x * p)
    else
      MulMonotone(p, x, 0.0);
      -Round(-(x * p))
  }

  /**
   * `Number(x.toFixed(digits))`: the multiple of 10^-digits that `ScaledRound`
   * picks, so within half a unit of the last place of `x`.
   */
  function ToFixed(x: real, digits: nat): (r: real)
    ensures r * Pow10(digits) == ScaledRound(x, digits) as real
    ensures x >= 0.0 ==> r >= 0.0
    ensures x <= 0.0 ==> r <= 0.0
    ensures -0.5 <= (r - x) * Pow10(digits) <= 0.5
  {
    var p := Pow10(digits);
    var n := ScaledRound(x, digits);
    RoundedQuotient(x, p, n);
    n as real / p
  }

  /** Dividing a rounded multiple `n` of `x * p` back by `p` lands within half a step of `x`. */
  lemma RoundedQuotient(x: real, p: real, n: int)
    requires p > 0.0
    requires -0.5 <= n as real - x * p <= 0.5
    requires x > 0.0 ==> n >= 0
    requires x < 0.0 ==> n <= 0
    requires x == 0.0 ==> n == 0
    ensures (n as real / p) * p == n as real
    ensures x >= 0.0 ==> n as real / p >= 0.0
    ensures x <= 0.0 ==> n as real / p <= 0.0
    ensures -0.5 <= (n as real / p - x) * p <= 0.5
  {
    DivCancel(n as real, p);
    SubMul(n as real / p, x, p);
  }

  lemma DivCancel(a: real, p: real)
    requires p > 0.0
    ensures (a / p) * p == a
    ensures a >= 0.0 ==> a / p >= 0.0
    ensures a <= 0.0 ==> a / p <= 0.0
  {
  }

  lemma SubMul(a: real, b: real, p: real)
    ensures (a - b) * p == a * p - b * p
  {
  }

  /** Multiplying by a non-negative factor keeps the order. */
  lemma MulMonotone(c: real, a: real, b: real)
    requires c >= 0.0 && a <= b
    ensures c * a <= c * b
  {
  }

  /** `base` raised to `n`, as `Math.pow`. */
  function Pow(base: real, n: nat): (r: real)
    ensures base >= 1.0 ==> r >= 1.0
  {
    if n == 0 then 1.0 else base * Pow(base, n - 1)
  }

  function Sum(s: seq<real>): real
  {
    if s == [] then 0.0 else s[0] + Sum(s[1..])
  }

  function SumInts(s: seq<int>): int
  {
    if s == [] then 0 else s[0] + SumInts(s[1..])
  }

  // ---------------------------------------------------------------- hydrology

  /** The roof type's runoff coefficient; an absent type is "Concrete", an unknown one gets 0.85. */
  function RunoffCoefficient(roofType: Option<string>): (c: real)
    ensures 0.75 <= c <= 0.9
    ensures roofType.None? ==> c == 0.85
    ensures roofType == Some("Concrete") ==> c == 0.85
    ensures roofType == Some("Metal Sheet") ==> c == 0.9
    ensures roofType == Some("Tile") ==> c == 0.8
    ensures roofType == Some("Asbestos") ==> c == 0.82
    ensures roofType == Some("Other") ==> c == 0.75
    ensures roofType.Some? && roofType.value !in RunoffCoefficients ==> c == 0.85
  {
    var name := if roofType.Some? then roofType.value else DefaultRoofType;
    if name in RunoffCoefficients then RunoffCoefficients[name] else 0.85
  }

  function DailyUse(inp: FeasibilityInput): real
  {
    if inp.avgDailyUse.Some? then inp.avgDailyUse.value else DefaultDailyUse
  }

  function WaterCost(inp: FeasibilityInput): real
  {
    if inp.waterCost.Some? then inp.waterCost.value else DefaultWaterCost
  }

  /** Litres that run off the roof in a year: 1 mm on 1 m² is 1 L. */
  function GrossHarvest(inp: FeasibilityInput): (g: real)
    ensures inp.roofArea >= 0.0 && inp.annualRainfall >= 0.0 ==> g >= 0.0
  {
    var c := RunoffCoefficient(inp.roofType);
    assert inp.roofArea >= 0.0 && inp.annualRainfall >= 0.0 ==> inp.roofArea * inp.annualRainfall >= 0.0;
    inp.roofArea * inp.annualRainfall * c
  }

  /** The gross harvest less the first-flush and evaporation losses, never negative. */
  function NetHarvest(gross: real): (net: real)
    ensures net >= 0.0
    ensures gross >= 0.0 ==> net <= gross && net == gross * 0.93
    ensures gross <= 0.0 ==> net == 0.0
  {
    Max(0.0, gross * (1.0 - FirstFlushLoss - EvaporationLoss))
  }

  function AnnualDemand(inp: FeasibilityInput): (d: real)
    ensures ValidInput(inp) ==> d >= 0.0
  {
    var daily := inp.householdSize * DailyUse(inp);
    daily * 365.0
  }

  /** Net harvest as a percentage of demand, 0 when there is no demand; not capped at 100. */
  function Utilization(net: real, demand: real): (u: real)
    ensures demand <= 0.0 ==> u == 0.0
    ensures demand > 0.0 ==> u * demand == net * 100.0
    ensures net >= 0.0 ==> u >= 0.0
  {
    if demand > 0.0 then net / demand * 100.0 else 0.0
  }

  /** What the tank cannot hold. */
  function OverflowLoss(net: real, tankSize: real): (o: real)
    ensures o >= 0.0 && o >= net - tankSize
    ensures o == 0.0 || o == net - tankSize
    ensures tankSize >= net ==> o == 0.0
  {
    Max(0.0, net - tankSize)
  }

  // ---------------------------------------------------------------- climate projection

  /** Ten yearly rainfall figures declining by 5 mm a year from the base, never below 0. */
  function ProjectedRainfall(rainfall: real): (r: seq<int>)
    ensures |r| == 10
    ensures forall i :: 0 <= i < 10 ==> r[i] >= 0
    ensures r[0] == MaxInt(0, Round(rainfall))
    ensures forall i :: 0 <= i < 10 ==> r[i] == MaxInt(0, Round(rainfall) - 5 * i)
  {
    assert forall i :: 0 <= i < 10 ==> Round(rainfall - i as real * DeclineRate) == Round(rainfall) - 5 * i by {
      forall i | 0 <= i < 10 ensures Round(rainfall - i as real * DeclineRate) == Round(rainfall) - 5 * i {
        RoundShift(rainfall, 5 * i);
      }
    }
    seq(10, i requires 0 <= i < 10 => MaxInt(0, Round(rainfall - i as real * DeclineRate)))
  }

  /** Rounding commutes with subtracting a whole number. */
  lemma RoundShift(x: real, k: int)
    ensures Round(x - k as real) == Round(x) - k
  {
  }

  /** The projection never rises, and falls by exactly 5 each year while it stays positive. */
  lemma ProjectionDeclines(rainfall: real)
    ensures forall i, j :: 0 <= i <= j < 10 ==> ProjectedRainfall(rainfall)[j] <= ProjectedRainfall(rainfall)[i]
    ensures forall i :: 0 <= i < 9 && ProjectedRainfall(rainfall)[i + 1] > 0 ==>
      ProjectedRainfall(rainfall)[i] == ProjectedRainfall(rainfall)[i + 1] + 5
  {
    var r := ProjectedRainfall(rainfall);
    forall i, j | 0 <= i <= j < 10 ensures r[j] <= r[i] {
      RoundMonotone(rainfall - j as real * DeclineRate, rainfall - i as real * DeclineRate);
    }
    forall i | 0 <= i < 9 && r[i + 1] > 0 ensures r[i] == r[i + 1] + 5 {
      var x := rainfall - i as real * DeclineRate;
      assert rainfall - (i + 1) as real * DeclineRate == x - 5.0;
      assert (x - 5.0 + 0.5).Floor == (x + 0.5).Floor - 5;
    }
  }

  /** The resilience figure uses only the fixed decline rate. */
  function ClimateResilience(): (c: real)
    ensures c == 96.0
  {
    Max(0.0, 100.0 - DeclineRate * 0.8)
  }

  // ---------------------------------------------------------------- finances

  /** The yearly savings: the harvest priced at the tariff, rounded to a whole rupee. */
  function AnnualSavings(net: real, waterCost: real): (s: int)
    ensures net * waterCost - 0.5 < s as real <= net * waterCost + 0.5
    ensures net >= 0.0 && waterCost >= 0.0 ==> s >= 0
  {
    Round(net * waterCost)
  }

  /** Years to recover the cost to one decimal; none when nothing is saved. */
  function PaybackYears(installationCost: real, annualSavings: int): (p: Option<real>)
    ensures p.None? <==> annualSavings <= 0
    ensures p.Some? && installationCost >= 0.0 ==> p.value >= 0.0
    ensures p.Some? ==> -0.05 <= p.value - installationCost / annualSavings as real <= 0.05
  {
    if annualSavings > 0 then Some(ToFixed(installationCost / annualSavings as real, 1)) else None
  }

  /** Yearly savings as a percentage of the cost, to one decimal; 0 when nothing was spent. */
  function RoiPercent(installationCost: real, annualSavings: int): (r: real)
    ensures installationCost <= 0.0 ==> r == 0.0
    ensures installationCost > 0.0 && annualSavings >= 0 ==> r >= 0.0
    ensures installationCost > 0.0 ==>
      -0.05 <= r - annualSavings as real / installationCost * 100.0 <= 0.05
  {
    if installationCost > 0.0 then ToFixed(annualSavings as real / installationCost * 100.0, 1) else 0.0
  }

  /** Five years of constant cost against savings that grow 3% a year. */
  function CostBenefitTrend(installationCost: real, annualSavings: int): (r: seq<YearCostBenefit>)
    ensures |r| == 5
    ensures forall i :: 0 <= i < 5 ==> r[i].year == i + 1 && r[i].cost == installationCost
    ensures forall i :: 0 <= i < 5 ==> r[i].savings == YearSavings(annualSavings, i)
  {
    seq(5, i requires 0 <= i < 5 => YearCostBenefit(i + 1, installationCost, YearSavings(annualSavings, i)))
  }

  /** The savings of the year after `years` full years, grown by 3% a year and rounded. */
  function YearSavings(annualSavings: int, years: nat): int
  {
    Round(Grown(annualSavings as real, years))
  }

  /** `amount` grown by 3% a year for `years` years. */
  function Grown(amount: real, years: nat): (g: real)
    ensures amount >= 0.0 ==> g >= amount
  {
    if years == 0 then amount else Grown(amount, years - 1) * SavingsGrowth
  }

  /** Growing year by year is multiplying by `Math.pow(1.03, years)`. */
  lemma {:induction false} GrownIsPow(amount: real, years: nat)
    ensures Grown(amount, years) == amount * Pow(SavingsGrowth, years)
  {
    if years > 0 {
      GrownIsPow(amount, years - 1);
      var p := Pow(SavingsGrowth, years - 1);
      assert amount * p * SavingsGrowth == amount * (SavingsGrowth * p);
    }
  }

  lemma {:induction false} GrownMonotone(amount: real, i: nat, j: nat)
    requires amount >= 0.0 && i <= j
    ensures Grown(amount, i) <= Grown(amount, j)
    decreases j
  {
    if i < j {
      GrownMonotone(amount, i, j - 1);
    }
  }

  lemma YearSavingsMonotone(s: int, i: nat, j: nat)
    requires s >= 0 && i <= j
    ensures YearSavings(s, i) <= YearSavings(s, j)
  {
    GrownMonotone(s as real, i, j);
    RoundMonotone(Grown(s as real, i), Grown(s as real, j));
  }

  /** The first year saves the annual amount and later years never save less. */
  lemma CostBenefitSavingsGrow(installationCost: real, annualSavings: int)
    requires annualSavings >= 0
    ensures CostBenefitTrend(installationCost, annualSavings)[0].savings == annualSavings
    ensures forall i, j :: 0 <= i <= j < 5 ==>
      CostBenefitTrend(installationCost, annualSavings)[i].savings <= CostBenefitTrend(installationCost, annualSavings)[j].savings
  {
    var r := CostBenefitTrend(installationCost, annualSavings);
    forall i, j | 0 <= i <= j < 5 ensures r[i].savings <= r[j].savings {
      YearSavingsMonotone(annualSavings, i, j);
    }
  }

  // ---------------------------------------------------------------- reliability

  /** The tank term: a 10000 L tank earns the full 30 points. */
  function TankTerm(tankSize: real): (t: real)
    ensures t <= 30.0
    ensures tankSize >= 0.0 ==> t >= 0.0
  {
    Min(30.0, tankSize / 10000.0 * 30.0)
  }

  /** The utilisation term: full coverage of demand earns the full 15 points. */
  function UtilizationTerm(utilization: real): (t: real)
    ensures t <= 15.0
    ensures utilization >= 0.0 ==> t >= 0.0
  {
    Min(15.0, utilization / 100.0 * 15.0)
  }

  /** 50 plus the two capped terms, clamped to [25, 95] and rounded. */
  function ReliabilityPercent(tankSize: real, utilization: real): (r: int)
    ensures 25 <= r <= 95
    ensures tankSize >= 0.0 && utilization >= 0.0 ==> r >= 50
  {
    var raw := 50.0 + TankTerm(tankSize) + UtilizationTerm(utilization);
    Round(Min(95.0, Max(25.0, raw)))
  }

  /** A bigger tank never lowers reliability, nor does a higher utilisation. */
  lemma ReliabilityMonotone(t1: real, t2: real, u1: real, u2: real)
    requires t1 <= t2 && u1 <= u2
    ensures ReliabilityPercent(t1, u1) <= ReliabilityPercent(t2, u2)
  {
    var raw1 := 50.0 + TankTerm(t1) + UtilizationTerm(u1);
    var raw2 := 50.0 + TankTerm(t2) + UtilizationTerm(u2);
    assert raw1 <= raw2;
    RoundMonotone(Min(95.0, Max(25.0, raw1)), Min(95.0, Max(25.0, raw2)));
  }

  // ---------------------------------------------------------------- monthly distribution

  /** Each element divided by `t`, as `map(v => v / t)`. */
  function DivideAll(s: seq<real>, t: real): (r: seq<real>)
    requires t != 0.0
    ensures |r| == |s|
    ensures forall i :: 0 <= i < |s| ==> r[i] == s[i] / t
  {
    if s == [] then [] else [s[0] / t] + DivideAll(s[1..], t)
  }

  lemma {:induction false} SumDivideAll(s: seq<real>, t: real)
    requires t != 0.0
    ensures Sum(DivideAll(s, t)) == Sum(s) / t
  {
    if s != [] {
      SumDivideAll(s[1..], t);
      assert DivideAll(s, t)[1..] == DivideAll(s[1..], t);
      assert s[0] / t + Sum(s[1..]) / t == (s[0] + Sum(s[1..])) / t;
    }
  }

  lemma SumStep(s: seq<real>, k: nat)
    requires k < |s|
    ensures Sum(s[k..]) == s[k] + Sum(s[k + 1..])
  {
    assert s[k..][1..] == s[k + 1..];
  }

  lemma DistributionTotal()
    ensures Sum(MonthlyDistribution) == 1.025
  {
    var w := MonthlyDistribution;
    assert w[12..] == [];
    SumStep(w, 11); SumStep(w, 10); SumStep(w, 9); SumStep(w, 8);
    SumStep(w, 7); SumStep(w, 6); SumStep(w, 5); SumStep(w, 4);
    SumStep(w, 3); SumStep(w, 2); SumStep(w, 1); SumStep(w, 0);
    assert w[0..] == w;
  }

  /** The month weights divided by their total. */
  function NormalizedDistribution(): (w: seq<real>)
    ensures |w| == 12
    ensures forall i :: 0 <= i < 12 ==> w[i] >= 0.0
  {
    DistributionTotal();
    DistributionNonnegative();
    DivideAllNonnegative(MonthlyDistribution, Sum(MonthlyDistribution));
    DivideAll(MonthlyDistribution, Sum(MonthlyDistribution))
  }

  lemma DistributionNonnegative()
    ensures forall i :: 0 <= i < |MonthlyDistribution| ==> MonthlyDistribution[i] >= 0.0
  {
  }

  lemma DivideAllNonnegative(s: seq<real>, t: real)
    requires t > 0.0 && forall i :: 0 <= i < |s| ==> s[i] >= 0.0
    ensures forall i :: 0 <= i < |s| ==> DivideAll(s, t)[i] >= 0.0
  {
    forall i | 0 <= i < |s| ensures DivideAll(s, t)[i] >= 0.0 {
      DivNonnegative(s[i], t);
    }
  }

  lemma DivNonnegative(a: real, t: real)
    requires a >= 0.0 && t > 0.0
    ensures a / t >= 0.0
  {
    assert a / t * t == a;
  }

  /** The normalised weights add up to exactly 1. */
  lemma NormalizedSumsToOne()
    ensures Sum(NormalizedDistribution()) == 1.0
  {
    DistributionTotal();
    SumDivideAll(MonthlyDistribution, Sum(MonthlyDistribution));
  }

  function ScaleAll(c: real, s: seq<real>): (r: seq<real>)
    ensures |r| == |s|
    ensures forall i :: 0 <= i < |s| ==> r[i] == c * s[i]
    ensures c >= 0.0 && (forall i :: 0 <= i < |s| ==> s[i] >= 0.0) ==> forall i :: 0 <= i < |r| ==> r[i] >= 0.0
  {
    if s == [] then [] else [c * s[0]] + ScaleAll(c, s[1..])
  }

  lemma {:induction false} SumScaleAll(c: real, s: seq<real>)
    ensures Sum(ScaleAll(c, s)) == c * Sum(s)
  {
    if s != [] {
      SumScaleAll(c, s[1..]);
      assert ScaleAll(c, s)[1..] == ScaleAll(c, s[1..]);
    }
  }

  function RoundAll(s: seq<real>): (r: seq<int>)
    ensures |r| == |s|
    ensures forall i :: 0 <= i < |s| ==> r[i] == Round(s[i])
    ensures (forall i :: 0 <= i < |s| ==> s[i] >= 0.0) ==> forall i :: 0 <= i < |r| ==> r[i] >= 0
  {
    seq(|s|, i requires 0 <= i < |s| => Round(s[i]))
  }

  /** Rounding n numbers one by one moves their total by at most n / 2. */
  lemma {:induction false} RoundedTotalNear(s: seq<real>)
    ensures Sum(s) - |s| as real / 2.0 <= SumInts(RoundAll(s)) as real <= Sum(s) + |s| as real / 2.0
  {
    if s != [] {
      RoundedTotalNear(s[1..]);
      assert RoundAll(s)[1..] == RoundAll(s[1..]);
    }
  }

  /** One annual figure spread over the twelve months by the normalised weights, each rounded. */
  function MonthlyColumn(annual: real): (c: seq<int>)
    ensures |c| == 12
    ensures annual >= 0.0 ==> forall i :: 0 <= i < 12 ==> c[i] >= 0
  {
    RoundAll(ScaleAll(annual, NormalizedDistribution()))
  }

  /** The twelve monthly figures add up to the annual one, give or take 6. */
  lemma MonthlyColumnNearAnnual(annual: real)
    ensures annual - 6.0 <= SumInts(MonthlyColumn(annual)) as real <= annual + 6.0
  {
    var w := NormalizedDistribution();
    RoundedTotalNear(ScaleAll(annual, w));
    SumScaleAll(annual, w);
    NormalizedSumsToOne();
  }

  /** Twelve points, January to December, of monthly rainfall, gross harvest and net harvest. */
  function MonthlyTrend(rainfall: real, gross: real, net: real): (r: seq<MonthPoint>)
    ensures |r| == 12
    ensures forall i :: 0 <= i < 12 ==> r[i].month == Months[i]
    ensures forall i :: 0 <= i < 12 ==> r[i].rainfall == MonthlyColumn(rainfall)[i]
    ensures forall i :: 0 <= i < 12 ==> r[i].harvested == MonthlyColumn(gross)[i]
    ensures forall i :: 0 <= i < 12 ==> r[i].netHarvest == MonthlyColumn(net)[i]
  {
    MonthPoints(MonthlyColumn(rainfall), MonthlyColumn(gross), MonthlyColumn(net))
  }

  /** The chart points of the twelve months, one column per series. */
  function MonthPoints(rc: seq<int>, gc: seq<int>, nc: seq<int>): (r: seq<MonthPoint>)
    requires |rc| == |gc| == |nc| == 12
    ensures |r| == 12
    ensures forall i :: 0 <= i < 12 ==> r[i] == MonthPoint(Months[i], rc[i], gc[i], nc[i])
  {
    seq(12, i requires 0 <= i < 12 => MonthPoint(Months[i], rc[i], gc[i], nc[i]))
  }

  /** The twelve monthly net harvests of the chart add up to the annual net harvest, give or take 6 L. */
  lemma MonthlyNetNearAnnual(rainfall: real, gross: real, net: real)
    ensures net - 6.0 <= SumInts(NetHarvests(MonthlyTrend(rainfall, gross, net))) as real <= net + 6.0
  {
    NetHarvestsOfPoints(MonthlyColumn(rainfall), MonthlyColumn(gross), MonthlyColumn(net));
    MonthlyColumnNearAnnual(net);
  }

  lemma NetHarvestsOfPoints(rc: seq<int>, gc: seq<int>, nc: seq<int>)
    requires |rc| == |gc| == |nc| == 12
    ensures NetHarvests(MonthPoints(rc, gc, nc)) == nc
  {
  }

  /** The net-harvest series of a chart. */
  function NetHarvests(trend: seq<MonthPoint>): (r: seq<int>)
    ensures |r| == |trend|
    ensures forall i :: 0 <= i < |trend| ==> r[i] == trend[i].netHarvest
  {
    seq(|trend|, i requires 0 <= i < |trend| => trend[i].netHarvest)
  }

  // ---------------------------------------------------------------- environment

  /** The CO2 saved: 2.5 kg per kilolitre harvested, to one decimal. */
  function Co2SavedKg(net: real): (kg: real)
    ensures -0.05 <= kg - net / 1000.0 * Co2KgPerKl <= 0.05
    ensures net >= 0.0 ==> kg >= 0.0
    ensures net == 0.0 ==> kg == 0.0
  {
    ToFixedWithin(net / 1000.0 * Co2KgPerKl, 1);
    ToFixed(net / 1000.0 * Co2KgPerKl, 1)
  }

  // ---------------------------------------------------------------- score

  /** Up to 30 points for covering demand. */
  function CoverageScore(utilization: real): (s: real)
    ensures s <= 30.0
    ensures utilization >= 0.0 ==> s >= 0.0
  {
    Min(30.0, utilization / 100.0 * 30.0)
  }

  /** Up to 25 points for a short payback; a missing or zero payback earns nothing. */
  function PaybackScore(payback: Option<real>): (s: real)
    ensures 0.0 <= s <= 25.0
    ensures payback.None? ==> s == 0.0
  {
    if payback.Some? && payback.value != 0.0 then Max(0.0, Min(25.0, 10.0 / payback.value * 25.0)) else 0.0
  }

  /** A faster payback never scores lower. */
  lemma PaybackScoreAntitone(p1: real, p2: real)
    requires 0.0 < p1 <= p2
    ensures PaybackScore(Some(p1)) >= PaybackScore(Some(p2))
  {
    assert 10.0 / p1 >= 10.0 / p2 by {
      assert 10.0 / p1 * p1 == 10.0 && 10.0 / p2 * p2 == 10.0;
      assert 10.0 / p2 * p1 <= 10.0 / p2 * p2;
    }
  }

  /** Up to 25 points for reliability. */
  function ReliabilityScore(reliability: int): (s: real)
    ensures s <= 25.0
    ensures reliability >= 0 ==> s >= 0.0
  {
    Min(25.0, reliability as real / 100.0 * 25.0)
  }

  /**
   * Up to 20 points for CO2 saved per kL harvested. Without any harvest the
   * ratio is 0 / 0 in the source; here it earns nothing.
   */
  function EnvironmentalScore(co2Kg: real, net: real): (s: real)
    requires co2Kg >= 0.0
    ensures 0.0 <= s <= 20.0
    ensures net <= 0.0 ==> s == 0.0
  {
    if net > 0.0 then
      assert co2Kg / (net / 1000.0) >= 0.0;
      Min(20.0, co2Kg / (net / 1000.0) * 5.0)
    else 0.0
  }

  /** The sum of the four parts, capped at 100 and rounded. */
  function FinalScore(coverage: real, payback: real, reliability: real, environmental: real): (s: int)
    requires coverage >= 0.0 && payback >= 0.0 && reliability >= 0.0 && environmental >= 0.0
    ensures 0 <= s <= 100
  {
    Round(Min(100.0, coverage + payback + reliability + environmental))
  }

  /** "Feasible" from 75, "Marginal" from 50, "Not Feasible" below. */
  function Category(score: int): (c: string)
    ensures c in {"Feasible", "Marginal", "Not Feasible"}
    ensures c == "Feasible" <==> score >= 75
    ensures c == "Marginal" <==> 50 <= score < 75
    ensures c == "Not Feasible" <==> score < 50
  {
    if score >= 75 then "Feasible" else if score >= 50 then "Marginal" else "Not Feasible"
  }

  // ---------------------------------------------------------------- the report

  function NetOf(inp: FeasibilityInput): (net: real)
    ensures net >= 0.0
    ensures GrossHarvest(inp) >= 0.0 ==> net <= GrossHarvest(inp)
  {
    NetHarvest(GrossHarvest(inp))
  }

  function UtilizationOf(inp: FeasibilityInput): (u: real)
    ensures u >= 0.0
  {
    Utilization(NetOf(inp), AnnualDemand(inp))
  }

  function SavingsOf(inp: FeasibilityInput): (s: int)
    ensures ValidInput(inp) ==> s >= 0
  {
    AnnualSavings(NetOf(inp), WaterCost(inp))
  }

  function PaybackOf(inp: FeasibilityInput): (p: Option<real>)
    ensures p.None? <==> SavingsOf(inp) <= 0
  {
    PaybackYears(inp.installationCost, SavingsOf(inp))
  }

  function ReliabilityOf(inp: FeasibilityInput): (r: int)
    ensures 25 <= r <= 95
    ensures inp.tankSize >= 0.0 ==> r >= 50
  {
    ReliabilityPercent(inp.tankSize, UtilizationOf(inp))
  }

  function ScoreOf(inp: FeasibilityInput): (s: int)
    ensures 0 <= s <= 100
  {
    var net := NetOf(inp);
    FinalScore(CoverageScore(UtilizationOf(inp)), PaybackScore(PaybackOf(inp)),
               ReliabilityScore(ReliabilityOf(inp)), EnvironmentalScore(Co2SavedKg(net), net))
  }

  /** The whole report for one set of site parameters. */
  function GenerateFeasibilityReport(inp: FeasibilityInput): (r: Report)
    ensures 0 <= r.score <= 100
    ensures r.category in {"Feasible", "Marginal", "Not Feasible"}
    ensures r.category == "Feasible" <==> r.score >= 75
    ensures r.category == "Marginal" <==> 50 <= r.score < 75
    ensures r.hydrology.netAnnualHarvest >= 0
    ensures GrossHarvest(inp) >= 0.0 ==> r.hydrology.netAnnualHarvest <= r.hydrology.annualHarvestable
    ensures r.hydrology.overflowLoss >= 0 && r.hydrology.groundwaterRecharge >= 0
    ensures r.hydrology.harvestUtilizationPercent >= 0.0
    ensures inp.tankSize >= NetOf(inp) ==> r.hydrology.overflowLoss == 0
    ensures 25 <= r.reliability.reliabilityPercent <= 95
    ensures ValidInput(inp) ==> r.financials.annualSavings >= 0
    ensures r.financials.paybackYears.None? <==> r.financials.annualSavings <= 0
    ensures inp.installationCost == 0.0 ==> r.financials.roiPercent == 0.0
    ensures r.financials.subsidyEligible <==> inp.installationCost > SubsidyThreshold
    ensures |r.financials.costBenefitTrend| == 5
    ensures forall i :: 0 <= i < 5 ==>
      r.financials.costBenefitTrend[i].year == i + 1 && r.financials.costBenefitTrend[i].cost == inp.installationCost
    ensures |r.climateTrend.projectedRainfall| == 10 && r.climateTrend.climateResilience == 96.0
    ensures forall i :: 0 <= i < 10 ==> r.climateTrend.projectedRainfall[i] >= 0
    ensures |r.charts.monthlyRainfallTrend| == 12
    ensures forall i :: 0 <= i < 12 ==>
      r.charts.monthlyRainfallTrend[i].month == Months[i] && r.charts.monthlyRainfallTrend[i].netHarvest >= 0
    ensures r.charts.costBenefitTrend == r.financials.costBenefitTrend
    ensures r.environmentalImpact.co2SavedKgPerYear >= 0.0 && r.environmentalImpact.tankerTripsAvoided >= 0
    ensures r.summary.finalVerdict == r.category && r.summary.roiPercent == r.financials.roiPercent
    ensures r.summary.reliabilityPercent == r.reliability.reliabilityPercent
    ensures r.summary.paybackYears == r.financials.paybackYears
    ensures r.recommendations == []
  {
    var hydrology := HydrologyOf(inp);
    var financials := FinancialsOf(inp);
    var reliability := ReliabilityOf(inp);
    var score := ScoreOf(inp);
    var category := Category(score);
    Report(
      score, category, hydrology, financials, EnvironmentalImpactOf(inp),
      ReliabilityEstimate(reliability,
                          "Larger tanks improve supply reliability during dry months.",
                          "Regions with balanced rainfall have higher year-round reliability."),
      ClimateTrend(inp.annualRainfall, ProjectedRainfall(inp.annualRainfall), DeclineRate, ClimateResilience()),
      Charts(MonthlyTrend(inp.annualRainfall, GrossHarvest(inp), NetOf(inp)), financials.costBenefitTrend),
      SummaryOf(NetOf(inp), AnnualDemand(inp), UtilizationOf(inp), financials.roiPercent, reliability,
                financials.paybackYears, category),
      [])
  }

  /**
   * The hydrology section: the rounded harvest figures, the overflow beyond
   * the tank, the recharge share and the utilisation to two places.
   */
  function HydrologyOf(inp: FeasibilityInput): (h: Hydrology)
    ensures h.roofArea == inp.roofArea && h.runoffCoefficient == RunoffCoefficient(inp.roofType)
    ensures h.annualHarvestable == Round(GrossHarvest(inp)) && h.netAnnualHarvest == Round(NetOf(inp))
    ensures h.netAnnualHarvest >= 0
    ensures GrossHarvest(inp) >= 0.0 ==> h.netAnnualHarvest <= h.annualHarvestable
    ensures h.overflowLoss >= 0 && h.groundwaterRecharge >= 0
    ensures inp.tankSize >= NetOf(inp) ==> h.overflowLoss == 0
    ensures h.groundwaterRecharge == Round(NetOf(inp) * RechargeFraction)
    ensures h.harvestUtilizationPercent >= 0.0
    ensures -0.005 <= h.harvestUtilizationPercent - UtilizationOf(inp) <= 0.005
  {
    var gross := GrossHarvest(inp);
    var net := NetOf(inp);
    var recharge := net * RechargeFraction;
    assert gross >= 0.0 ==> Round(net) <= Round(gross) by {
      if gross >= 0.0 { RoundMonotone(net, gross); }
    }
    RoundMonotone(0.0, net);
    RoundMonotone(0.0, recharge);
    ToFixedWithin(UtilizationOf(inp), 2);
    Hydrology(inp.roofArea, RunoffCoefficient(inp.roofType), Round(gross), Round(net),
              Round(OverflowLoss(net, inp.tankSize)), FirstFlushLoss, EvaporationLoss, Round(recharge),
              ToFixed(UtilizationOf(inp), 2))
  }

  /** The financial section: savings, payback, ROI, ten-year net savings, the five-year trend and subsidy eligibility. */
  function FinancialsOf(inp: FeasibilityInput): (f: Financials)
    ensures f.installationCost == inp.installationCost && f.annualSavings == SavingsOf(inp)
    ensures f.paybackYears == PaybackOf(inp)
    ensures f.roiPercent == RoiPercent(inp.installationCost, f.annualSavings)
    ensures f.costBenefitTrend == CostBenefitTrend(inp.installationCost, f.annualSavings)
    ensures f.netSavings10yr == Round(f.annualSavings as real * 10.0 - inp.installationCost)
    ensures f.subsidyEligible <==> inp.installationCost > SubsidyThreshold
  {
    var savings := SavingsOf(inp);
    Financials(inp.installationCost, savings, PaybackOf(inp), RoiPercent(inp.installationCost, savings),
               Round(savings as real * 10.0 - inp.installationCost),
               CostBenefitTrend(inp.installationCost, savings), inp.installationCost > SubsidyThreshold)
  }

  /** The environmental section: the recharge, the CO2 saved in kilograms and in tonnes, and the tanker trips avoided. */
  function EnvironmentalImpactOf(inp: FeasibilityInput): (e: EnvironmentalImpact)
    ensures e.groundwaterRecharge == Round(NetOf(inp) * RechargeFraction)
    ensures e.co2SavedKgPerYear == Co2SavedKg(NetOf(inp)) && e.co2SavedKgPerYear >= 0.0
    ensures -0.0005 <= e.co2SavedTonsPerYear - e.co2SavedKgPerYear / 1000.0 <= 0.0005
    ensures e.tankerTripsAvoided == Round(NetOf(inp) / TankerCapacity) && e.tankerTripsAvoided >= 0
    ensures e.urbanFloodReductionPercent == UrbanFloodReduction
  {
    var net := NetOf(inp);
    var co2Kg := Co2SavedKg(net);
    RoundMonotone(0.0, net / TankerCapacity);
    ToFixedWithin(co2Kg / 1000.0, 3);
    EnvironmentalImpact(Round(net * RechargeFraction), co2Kg, ToFixed(co2Kg / 1000.0, 3),
                        Round(net / TankerCapacity), UrbanFloodReduction)
  }

  /**
   * The report's figures are the engine's: its score, its coefficient, one
   * recharge figure in both places, the grown savings of each year and the
   * monthly series of the annual figures.
   */
  lemma ReportFigures(inp: FeasibilityInput)
    ensures var r := GenerateFeasibilityReport(inp);
      && r.score == ScoreOf(inp) && r.hydrology.runoffCoefficient == RunoffCoefficient(inp.roofType)
      && r.hydrology.groundwaterRecharge == r.environmentalImpact.groundwaterRecharge == Round(NetOf(inp) * RechargeFraction)
      && r.financials.annualSavings == SavingsOf(inp)
      && (forall i :: 0 <= i < 5 ==> r.financials.costBenefitTrend[i].savings == YearSavings(SavingsOf(inp), i))
      && r.charts.monthlyRainfallTrend == MonthlyTrend(inp.annualRainfall, GrossHarvest(inp), NetOf(inp))
  {
    var r := GenerateFeasibilityReport(inp);
    assert r.hydrology == HydrologyOf(inp) && r.financials == FinancialsOf(inp);
    assert r.environmentalImpact == EnvironmentalImpactOf(inp);
  }

  /**
   * The summary: harvest and demand in kilolitres to two places and the
   * coverage to one place, each within half a unit of that place of the
   * engine's figure, and the other figures as given.
   */
  function SummaryOf(net: real, demand: real, utilization: real, roi: real, reliability: int,
                     payback: Option<real>, verdict: string): (s: Summary)
    ensures -0.005 <= s.annualHarvestKl - net / 1000.0 <= 0.005
    ensures -0.005 <= s.annualDemandKl - demand / 1000.0 <= 0.005
    ensures -0.05 <= s.coveragePercent - utilization <= 0.05
    ensures s.roiPercent == roi && s.reliabilityPercent == reliability
    ensures s.paybackYears == payback && s.finalVerdict == verdict
  {
    ToFixedWithin(net / 1000.0, 2);
    ToFixedWithin(demand / 1000.0, 2);
    ToFixedWithin(utilization, 1);
    Summary(ToFixed(net / 1000.0, 2), ToFixed(demand / 1000.0, 2), ToFixed(utilization, 1), roi,
            reliability, payback, verdict)
  }

  /** The summary's harvest, demand and coverage are the engine's figures up to their rounding. */
  lemma SummaryFigures(inp: FeasibilityInput)
    ensures var r := GenerateFeasibilityReport(inp);
      && -0.005 <= r.summary.annualHarvestKl - NetOf(inp) / 1000.0 <= 0.005
      && -0.005 <= r.summary.annualDemandKl - AnnualDemand(inp) / 1000.0 <= 0.005
      && -0.05 <= r.summary.coveragePercent - UtilizationOf(inp) <= 0.05
  {
    var r := GenerateFeasibilityReport(inp);
    var f := FinancialsOf(inp);
    assert r.summary == SummaryOf(NetOf(inp), AnnualDemand(inp), UtilizationOf(inp), f.roiPercent,
                                  ReliabilityOf(inp), f.paybackYears, Category(ScoreOf(inp)));
  }

  /** Rounding to one or two places moves a value by at most half a unit of that place. */
  lemma ToFixedWithin(x: real, digits: nat)
    requires 1 <= digits <= 3
    ensures digits == 1 ==> -0.05 <= ToFixed(x, 1) - x <= 0.05
    ensures digits == 2 ==> -0.005 <= ToFixed(x, 2) - x <= 0.005
    ensures digits == 3 ==> -0.0005 <= ToFixed(x, 3) - x <= 0.0005
  {
    assert Pow10(1) == 10.0 && Pow10(2) == 100.0 && Pow10(3) == 1000.0;
  }

  // ---------------------------------------------------------------- the score as the source computes it

  /**
   * The environmental score as written: `co2 / (net / 1000) * 5` is 0 / 0,
   * which is NaN, when there is no net harvest (the CO2 figure is then 0).
   */
  function EnvironmentalScoreAsWritten(co2Kg: real, net: real): (r: JsNumber)
    requires net >= 0.0 && (net == 0.0 ==> co2Kg == 0.0)
    ensures r.NaN? <==> net == 0.0
    ensures r.Num? ==> r.v <= 20.0
  {
    if net == 0.0 then NaN else Num(Min(20.0, co2Kg / (net / 1000.0) * 5.0))
  }

  /** The final score as written: a NaN part makes the sum, `Math.min` and `Math.round` NaN. */
  function ScoreAsWritten(inp: FeasibilityInput): (r: JsNumber)
    ensures r.NaN? <==> NetOf(inp) == 0.0
    ensures r.Num? ==> r.v <= 100.0
  {
    var net := NetOf(inp);
    var environmental := EnvironmentalScoreAsWritten(Co2SavedKg(net), net);
    if environmental.NaN? then NaN
    else
      var sum := CoverageScore(UtilizationOf(inp)) + PaybackScore(PaybackOf(inp))
               + ReliabilityScore(ReliabilityOf(inp)) + environmental.v;
      Num(Round(Min(100.0, sum)) as real)
  }

  /** The category as written: both comparisons are false for NaN. */
  function CategoryAsWritten(score: JsNumber): (c: string)
    ensures c in {"Feasible", "Marginal", "Not Feasible"}
    ensures score.NaN? ==> c == "Not Feasible"
    ensures score.Num? ==> (c == "Feasible" <==> score.v >= 75.0)
    ensures score.Num? ==> (c == "Marginal" <==> 50.0 <= score.v < 75.0)
  {
    if Ge(score, 75.0) then "Feasible" else if Ge(score, 50.0) then "Marginal" else "Not Feasible"
  }

  /** With no rain (or no roof) the score as written is NaN, reported as "Not Feasible". */
  lemma NoRainScoreIsNaN(inp: FeasibilityInput)
    requires inp.annualRainfall == 0.0
    ensures ScoreAsWritten(inp) == NaN
    ensures CategoryAsWritten(ScoreAsWritten(inp)) == "Not Feasible"
  {
    assert GrossHarvest(inp) == 0.0;
  }

  /** Whenever something is harvested the corrected score is the one the source computes. */
  lemma ScoreAsWrittenAgrees(inp: FeasibilityInput)
    requires NetOf(inp) > 0.0
    ensures ScoreAsWritten(inp) == Num(ScoreOf(inp) as real)
    ensures CategoryAsWritten(ScoreAsWritten(inp)) == Category(ScoreOf(inp))
  {
  }

  /**
   * Without harvest the corrected score is at most 20 (only the reliability
   * part, at most 80% of 25, is left), so the category is the one the source
   * reports, "Not Feasible".
   */
  lemma NoHarvestCategoryAgrees(inp: FeasibilityInput)
    requires NetOf(inp) == 0.0
    ensures ScoreOf(inp) <= 20
    ensures Category(ScoreOf(inp)) == CategoryAsWritten(ScoreAsWritten(inp)) == "Not Feasible"
  {
    var demand := AnnualDemand(inp);
    var u := UtilizationOf(inp);
    if demand > 0.0 {
      assert u * demand == 0.0;
    }
    assert u == 0.0;
    assert SavingsOf(inp) == 0;
    var reliability := ReliabilityOf(inp);
    assert reliability <= 80 by {
      var raw := 50.0 + TankTerm(inp.tankSize) + UtilizationTerm(u);
      assert raw <= 80.0;
      RoundMonotone(Min(95.0, Max(25.0, raw)), 80.0);
    }
    assert ReliabilityScore(reliability) <= 20.0;
    RoundMonotone(Min(100.0, ReliabilityScore(reliability)), 20.0);
  }

  // ---------------------------------------------------------------- properties of the engine

  /** Dividing by a positive number keeps the order. */
  lemma DivMonotone(a: real, b: real, d: real)
    requires a <= b && d > 0.0
    ensures a / d <= b / d
  {
    assert a / d * d == a && b / d * d == b;
  }

  /** More net harvest, for the same demand, never scores lower for coverage. */
  lemma CoverageMonotone(n1: real, n2: real, demand: real)
    requires n1 <= n2
    ensures CoverageScore(Utilization(n1, demand)) <= CoverageScore(Utilization(n2, demand))
  {
    if demand > 0.0 {
      DivMonotone(n1, n2, demand);
    }
  }

  /** A larger roof, everything else equal, harvests no less and scores no less for coverage. */
  lemma RoofAreaMonotone(inp: FeasibilityInput, area: real)
    requires ValidInput(inp) && inp.roofArea <= area
    ensures GrossHarvest(inp) <= GrossHarvest(inp.(roofArea := area))
    ensures NetOf(inp) <= NetOf(inp.(roofArea := area))
    ensures CoverageScore(UtilizationOf(inp)) <= CoverageScore(UtilizationOf(inp.(roofArea := area)))
  {
    var big := inp.(roofArea := area);
    var c := RunoffCoefficient(inp.roofType);
    var rain := inp.annualRainfall;
    MulMonotone(rain, inp.roofArea, area);
    assert inp.roofArea * rain <= area * rain;
    MulMonotone(c, inp.roofArea * rain, area * rain);
    assert GrossHarvest(inp) <= GrossHarvest(big);
    var n1, n2 := NetOf(inp), NetOf(big);
    assert n1 <= n2;
    assert AnnualDemand(big) == AnnualDemand(inp);
    CoverageMonotone(n1, n2, AnnualDemand(inp));
  }
  /** A typical urban site: 120 m² of concrete roof, 850 mm of rain, an 8000 L tank, four people, 36000 INR. */
  const ReferenceSite := FeasibilityInput(120.0, 850.0, 8000.0, 4.0, 36000.0, None, None, None)

  lemma ReferenceSiteReport()
    ensures ValidInput(ReferenceSite)
    ensures GrossHarvest(ReferenceSite) == 86700.0 && NetOf(ReferenceSite) == 80631.0
    ensures SavingsOf(ReferenceSite) == 1613
    ensures RoiPercent(ReferenceSite.installationCost, SavingsOf(ReferenceSite)) == 4.5
    ensures ReliabilityOf(ReferenceSite) == 80
    ensures ScoreOf(ReferenceSite) == 56 && Category(ScoreOf(ReferenceSite)) == "Marginal"
  {
    var inp := ReferenceSite;
    assert RunoffCoefficient(inp.roofType) == 0.85;
    assert GrossHarvest(inp) == 86700.0;
    var net := NetOf(inp);
    assert net == 80631.0;
    assert Round(1612.62) == 1613;
    assert SavingsOf(inp) == 1613;
    assert Round(1613.0 / 36000.0 * 100.0 * 10.0) == 45;
    var demand := AnnualDemand(inp);
    assert demand == 197100.0;
    var u := UtilizationOf(inp);
    assert u == 80631.0 / 197100.0 * 100.0;
    var raw := 50.0 + TankTerm(inp.tankSize) + UtilizationTerm(u);
    assert 80.0 <= raw < 80.5;
    assert ReliabilityOf(inp) == 80;
    assert Round(36000.0 / 1613.0 * 10.0) == 223;
    var payback := PaybackOf(inp);
    assert payback == Some(22.3);
    assert Round(80631.0 / 1000.0 * 2.5 * 10.0) == 2016;
    var co2 := Co2SavedKg(net);
    assert co2 == 201.6;
    var sum := CoverageScore(u) + PaybackScore(payback) + ReliabilityScore(80) + EnvironmentalScore(co2, net);
    assert 55.5 <= sum < 56.5;
  }
}

// Credits awarded for a readings snapshot, over the reals.
module CreditScoring {
  import opened Basics

  // A snapshot entry: text carries what parseFloat makes of it, None for NaN.
  datatype Entry = Null | Num(number: real) | Text(parsed: Option<real>) | Other

  type Snapshot = map<string, Entry>

  datatype Config = Config(
    weightVolumetric: real,
    weightNitrogen: real,
    weightPhosphorus: real,
    phMin: Option<real>,
    phMax: Option<real>,
    tempPenaltyDelta: Option<real>)

  datatype Readings = Readings(flowRate: real, nitrogen: real, phosphorus: real, ph: real, temperature: real)

  function Coerce(e: Entry): real {
    match e
    case Num(v) => v
    case Text(Some(v)) => v
    case _ => 0.0
  }

  function Field(s: Snapshot, key: string): Entry {
    if key in s then s[key] else Null
  }

  function Read(s: Snapshot): Readings {
    var flow := if Field(s, "flowRate").Null? then Field(s, "flow_rate") else Field(s, "flowRate");
    Readings(
      Coerce(flow),
      Coerce(Field(s, "nitrogen")),
      Coerce(Field(s, "phosphorus")),
      Coerce(Field(s, "ph")),
      Coerce(Field(s, "temperature")))
  }

  function Min(a: real, b: real): real { if a <= b then a else b }

  function Max(a: real, b: real): real { if a <= b then b else a }

  function Clamp(v: real, min: real, max: real): real { Max(min, Min(max, v)) }

  // clamp(x, 0, 1) * weight.
  function Weighted(x: real, weight: real): real { Clamp(x, 0.0, 1.0) * weight }

  function Score(r: Readings, c: Config): real {
    Weighted(r.flowRate, c.weightVolumetric)
    + Weighted(1.0 - r.nitrogen / 10.0, c.weightNitrogen)
    + Weighted(1.0 - r.phosphorus / 10.0, c.weightPhosphorus)
  }

  function PhDeviation(ph: real, c: Config): real {
    if c.phMin.Some? && ph < c.phMin.value then c.phMin.value - ph
    else if c.phMax.Some? && ph > c.phMax.value then ph - c.phMax.value
    else 0.0
  }

  function TempDeviation(temperature: real, c: Config): real {
    if c.tempPenaltyDelta.Some? && temperature > c.tempPenaltyDelta.value then temperature - c.tempPenaltyDelta.value
    else 0.0
  }

  function Penalty(r: Readings, c: Config): real {
    Max(0.0, PhDeviation(r.ph, c)) + Max(0.0, TempDeviation(r.temperature, c))
  }

  function Scaled(net: real, area: real): real { net * area }

  function Credits(r: Readings, c: Config, area: real): real {
    Max(0.0, Scaled(Score(r, c) - Penalty(r, c), area))
  }

  function Calculate(s: Snapshot, c: Config, area: real): real {
    Credits(Read(s), c, area)
  }

  predicate NonNegative(c: Config) {
    c.weightVolumetric >= 0.0 && c.weightNitrogen >= 0.0 && c.weightPhosphorus >= 0.0
  }

  function Weights(c: Config): real { c.weightVolumetric + c.weightNitrogen + c.weightPhosphorus }

  lemma ScaledAdds(x: real, y: real, area: real)
    ensures Scaled(x + y, area) == Scaled(x, area) + Scaled(y, area)
  {
  }

  lemma ScaledIsPositive(x: real, area: real)
    requires x >= 0.0 && area >= 0.0
    ensures Scaled(x, area) >= 0.0
    ensures x > 0.0 && area > 0.0 ==> Scaled(x, area) > 0.0
  {
  }

  lemma ScaledIsMonotone(x: real, y: real, area: real)
    requires area >= 0.0
    ensures x <= y ==> Scaled(x, area) <= Scaled(y, area)
    ensures Scaled(0.0, area) == 0.0
    ensures area > 0.0 && x < y ==> Scaled(x, area) < Scaled(y, area)
  {
    if x <= y {
      ScaledAdds(x, y - x, area);
      assert x + (y - x) == y;
      ScaledIsPositive(y - x, area);
    }
  }

  lemma WeightedBounds(x: real, w: real)
    requires w >= 0.0
    ensures 0.0 <= Weighted(x, w) <= w
    ensures w > 0.0 ==> (Weighted(x, w) == w <==> x >= 1.0)
  {
    var v := Clamp(x, 0.0, 1.0);
    assert 0.0 <= v <= 1.0;
    ScaledIsMonotone(0.0, v, w);
    ScaledIsMonotone(v, 1.0, w);
  }

  lemma WeightedIsMonotone(x: real, y: real, w: real)
    requires w >= 0.0 && x <= y
    ensures Weighted(x, w) <= Weighted(y, w)
  {
    ScaledIsMonotone(Clamp(x, 0.0, 1.0), Clamp(y, 0.0, 1.0), w);
  }

  lemma ScoreBounds(r: Readings, c: Config)
    requires NonNegative(c)
    ensures 0.0 <= Score(r, c) <= Weights(c) && Penalty(r, c) >= 0.0
  {
    WeightedBounds(r.flowRate, c.weightVolumetric);
    WeightedBounds(1.0 - r.nitrogen / 10.0, c.weightNitrogen);
    WeightedBounds(1.0 - r.phosphorus / 10.0, c.weightPhosphorus);
  }

  // For every snapshot, with non-negative weights and area.
  lemma CreditBounds(s: Snapshot, c: Config, area: real)
    requires NonNegative(c) && area >= 0.0
    ensures 0.0 <= Calculate(s, c, area) <= Weights(c) * area
  {
    BoundsOfReadings(Read(s), c, area);
  }

  lemma BoundsOfReadings(r: Readings, c: Config, area: real)
    requires NonNegative(c) && area >= 0.0
    ensures 0.0 <= Credits(r, c, area) <= Weights(c) * area
  {
    ScoreBounds(r, c);
    ScaledIsMonotone(Score(r, c) - Penalty(r, c), Weights(c), area);
    ScaledIsMonotone(0.0, Weights(c), area);
  }

  // More flow, less nitrogen, phosphorus and heat and a pH nearer to the band
  // never earn less.
  predicate NoWorse(a: Readings, b: Readings, c: Config) {
    && a.flowRate <= b.flowRate && a.nitrogen >= b.nitrogen && a.phosphorus >= b.phosphorus
    && a.temperature >= b.temperature && PhDeviation(a.ph, c) >= PhDeviation(b.ph, c)
  }

  lemma CreditsAreMonotone(a: Readings, b: Readings, c: Config, area: real)
    requires NonNegative(c) && area >= 0.0 && NoWorse(a, b, c)
    ensures Credits(a, c, area) <= Credits(b, c, area)
  {
    WeightedIsMonotone(a.flowRate, b.flowRate, c.weightVolumetric);
    WeightedIsMonotone(1.0 - a.nitrogen / 10.0, 1.0 - b.nitrogen / 10.0, c.weightNitrogen);
    WeightedIsMonotone(1.0 - a.phosphorus / 10.0, 1.0 - b.phosphorus / 10.0, c.weightPhosphorus);
    assert Penalty(b, c) <= Penalty(a, c);
    ScaledIsMonotone(Score(a, c) - Penalty(a, c), Score(b, c) - Penalty(b, c), area);
  }

  function Distance(x: real, y: real): real { if x <= y then y - x else x - y }

  ghost predicate IsDistanceToBand(d: real, ph: real, lo: real, hi: real) {
    && (forall y: real :: lo <= y <= hi ==> d <= Distance(ph, y))
    && exists y: real :: lo <= y <= hi && d == Distance(ph, y)
  }

  // The pH deviation is the distance to the nearest value of the band.
  lemma PhDeviationIsDistance(ph: real, c: Config)
    requires c.phMin.Some? && c.phMax.Some? && c.phMin.value <= c.phMax.value
    ensures IsDistanceToBand(PhDeviation(ph, c), ph, c.phMin.value, c.phMax.value)
  {
    var lo, hi := c.phMin.value, c.phMax.value;
    var nearest := Clamp(ph, lo, hi);
    assert lo <= nearest <= hi && PhDeviation(ph, c) == Distance(ph, nearest);
  }

  // The full award goes to exactly the readings with full flow, no nitrogen, no
  // phosphorus and no penalty.
  predicate Flawless(r: Readings, c: Config) {
    r.flowRate >= 1.0 && r.nitrogen <= 0.0 && r.phosphorus <= 0.0 && Penalty(r, c) == 0.0
  }

  lemma FullAwardIffFlawless(r: Readings, c: Config, area: real)
    requires c.weightVolumetric > 0.0 && c.weightNitrogen > 0.0 && c.weightPhosphorus > 0.0 && area > 0.0
    ensures Credits(r, c, area) == Weights(c) * area <==> Flawless(r, c)
  {
    ScoreBounds(r, c);
    WeightedBounds(r.flowRate, c.weightVolumetric);
    WeightedBounds(1.0 - r.nitrogen / 10.0, c.weightNitrogen);
    WeightedBounds(1.0 - r.phosphorus / 10.0, c.weightPhosphorus);
    ScaledIsMonotone(Score(r, c) - Penalty(r, c), Weights(c), area);
    ScaledIsMonotone(0.0, Weights(c), area);
  }

  // ── What each reading is worth ───────────────────────────────────────────

  // What parseFloat and the type tests make of an entry.
  predicate Means(e: Entry, v: real) {
    e == Num(v) || e == Text(Some(v)) || (v == 0.0 && (e.Null? || e.Other? || e == Text(None)))
  }

  // Each entry sets the reading it names and no other; flow_rate only counts
  // while flowRate is absent or null.
  lemma EntriesSetTheirReadings(s: Snapshot, e: Entry, v: real)
    requires Means(e, v)
    ensures Read(s["nitrogen" := e]) == Read(s).(nitrogen := v)
    ensures Read(s["phosphorus" := e]) == Read(s).(phosphorus := v)
    ensures Read(s["ph" := e]) == Read(s).(ph := v)
    ensures Read(s["temperature" := e]) == Read(s).(temperature := v)
    ensures e != Null ==> Read(s["flowRate" := e]) == Read(s).(flowRate := v)
    ensures Read(s["flow_rate" := e]) ==
      if "flowRate" in s && s["flowRate"] != Null then Read(s) else Read(s).(flowRate := v)
  {
  }

  lemma WeightedSlope(x: real, y: real, w: real)
    requires 0.0 <= x <= y <= 1.0 && w >= 0.0
    ensures Weighted(y, w) == Weighted(x, w) + Scaled(y - x, w) && Scaled(y - x, w) >= 0.0
  {
    ScaledAdds(x, y - x, w);
    assert x + (y - x) == y;
    ScaledIsPositive(y - x, w);
  }

  lemma NutrientSlope(x: real, y: real, w: real)
    requires 0.0 <= x <= y <= 10.0 && w >= 0.0
    ensures Weighted(1.0 - x / 10.0, w) == Weighted(1.0 - y / 10.0, w) + Scaled((y - x) / 10.0, w)
    ensures Scaled((y - x) / 10.0, w) >= 0.0
  {
    WeightedSlope(1.0 - y / 10.0, 1.0 - x / 10.0, w);
    assert 1.0 - x / 10.0 - (1.0 - y / 10.0) == (y - x) / 10.0;
  }

  // Credits of two readings whose penalty is covered differ by what their
  // scores and penalties differ, per hectare.
  lemma CoveredCredits(a: Readings, b: Readings, c: Config, area: real, d: real)
    requires area >= 0.0 && Penalty(a, c) <= Score(a, c) && d >= 0.0
    requires Score(b, c) - Penalty(b, c) == Score(a, c) - Penalty(a, c) + d
    ensures Credits(b, c, area) == Credits(a, c, area) + d * area
  {
    ScaledAdds(Score(a, c) - Penalty(a, c), d, area);
    ScaledIsPositive(Score(a, c) - Penalty(a, c), area);
    ScaledIsPositive(d, area);
  }

  lemma NitrogenScores(r: Readings, c: Config, less: real)
    requires NonNegative(c) && 0.0 <= less <= r.nitrogen <= 10.0
    ensures var d := Scaled((r.nitrogen - less) / 10.0, c.weightNitrogen);
      d >= 0.0 && Score(r.(nitrogen := less), c) == Score(r, c) + d && Penalty(r.(nitrogen := less), c) == Penalty(r, c)
  {
    NutrientSlope(less, r.nitrogen, c.weightNitrogen);
  }

  lemma PhosphorusScores(r: Readings, c: Config, less: real)
    requires NonNegative(c) && 0.0 <= less <= r.phosphorus <= 10.0
    ensures var d := Scaled((r.phosphorus - less) / 10.0, c.weightPhosphorus);
      d >= 0.0 && Score(r.(phosphorus := less), c) == Score(r, c) + d &&
        Penalty(r.(phosphorus := less), c) == Penalty(r, c)
  {
    NutrientSlope(less, r.phosphorus, c.weightPhosphorus);
  }

  // While the penalty is covered: each unit less of nitrogen between 10 and 0
  // earns a tenth of its weight per hectare,
  lemma NitrogenHasItsPrice(r: Readings, c: Config, area: real, less: real)
    requires area >= 0.0 && NonNegative(c) && Penalty(r, c) <= Score(r, c)
    requires 0.0 <= less <= r.nitrogen <= 10.0
    ensures Credits(r.(nitrogen := less), c, area) ==
      Credits(r, c, area) + (r.nitrogen - less) / 10.0 * c.weightNitrogen * area
  {
    NitrogenScores(r, c, less);
    CoveredCredits(r, r.(nitrogen := less), c, area, Scaled((r.nitrogen - less) / 10.0, c.weightNitrogen));
  }

  // so does each unit less of phosphorus,
  lemma PhosphorusHasItsPrice(r: Readings, c: Config, area: real, less: real)
    requires area >= 0.0 && NonNegative(c) && Penalty(r, c) <= Score(r, c)
    requires 0.0 <= less <= r.phosphorus <= 10.0
    ensures Credits(r.(phosphorus := less), c, area) ==
      Credits(r, c, area) + (r.phosphorus - less) / 10.0 * c.weightPhosphorus * area
  {
    PhosphorusScores(r, c, less);
    CoveredCredits(r, r.(phosphorus := less), c, area, Scaled((r.phosphorus - less) / 10.0, c.weightPhosphorus));
  }

  // and flow between 0 and 1 earns its weight per hectare and unit.
  lemma FlowHasItsPrice(r: Readings, c: Config, area: real, more: real)
    requires area >= 0.0 && NonNegative(c) && Penalty(r, c) <= Score(r, c)
    requires 0.0 <= r.flowRate <= more <= 1.0
    ensures Credits(r.(flowRate := more), c, area) ==
      Credits(r, c, area) + (more - r.flowRate) * c.weightVolumetric * area
  {
    WeightedSlope(r.flowRate, more, c.weightVolumetric);
    CoveredCredits(r, r.(flowRate := more), c, area, Scaled(more - r.flowRate, c.weightVolumetric));
  }

  lemma SameScoreSameCredits(a: Readings, b: Readings, c: Config, area: real)
    requires Score(a, c) == Score(b, c) && Penalty(a, c) == Penalty(b, c)
    ensures Credits(a, c, area) == Credits(b, c, area)
  {
  }

  lemma ClampedAlike(x: real, y: real, w: real)
    requires Clamp(x, 0.0, 1.0) == Clamp(y, 0.0, 1.0)
    ensures Weighted(x, w) == Weighted(y, w)
  {
  }

  // Beyond those ends nothing changes.
  lemma NutrientsEnd(r: Readings, c: Config, area: real, x: real)
    requires x <= 0.0 || x >= 10.0
    ensures var end := if x <= 0.0 then 0.0 else 10.0;
      Credits(r.(nitrogen := x), c, area) == Credits(r.(nitrogen := end), c, area) &&
      Credits(r.(phosphorus := x), c, area) == Credits(r.(phosphorus := end), c, area)
  {
    var end := if x <= 0.0 then 0.0 else 10.0;
    ClampedAlike(1.0 - x / 10.0, 1.0 - end / 10.0, c.weightNitrogen);
    ClampedAlike(1.0 - x / 10.0, 1.0 - end / 10.0, c.weightPhosphorus);
    SameScoreSameCredits(r.(nitrogen := x), r.(nitrogen := end), c, area);
    SameScoreSameCredits(r.(phosphorus := x), r.(phosphorus := end), c, area);
  }

  lemma FlowEnds(r: Readings, c: Config, area: real, x: real)
    requires x <= 0.0 || x >= 1.0
    ensures Credits(r.(flowRate := x), c, area) == Credits(r.(flowRate := if x <= 0.0 then 0.0 else 1.0), c, area)
  {
    var end := if x <= 0.0 then 0.0 else 1.0;
    ClampedAlike(x, end, c.weightVolumetric);
    SameScoreSameCredits(r.(flowRate := x), r.(flowRate := end), c, area);
  }

  // While they are covered, pH outside its band
  lemma AcidityHasItsPrice(r: Readings, c: Config, area: real, ph: real)
    requires area >= 0.0 && Penalty(r, c) <= Score(r, c) && PhDeviation(ph, c) <= PhDeviation(r.ph, c)
    ensures Credits(r.(ph := ph), c, area) ==
      Credits(r, c, area) + (PhDeviation(r.ph, c) - PhDeviation(ph, c)) * area
  {
    CoveredCredits(r, r.(ph := ph), c, area, PhDeviation(r.ph, c) - PhDeviation(ph, c));
  }

  // and heat above its limit cost one point of score per hectare and unit.
  lemma HeatHasItsPrice(r: Readings, c: Config, area: real, cooler: real)
    requires area >= 0.0 && Penalty(r, c) <= Score(r, c)
    requires c.tempPenaltyDelta.Some? && c.tempPenaltyDelta.value <= cooler <= r.temperature
    ensures Credits(r.(temperature := cooler), c, area) == Credits(r, c, area) + (r.temperature - cooler) * area
  {
    CoveredCredits(r, r.(temperature := cooler), c, area, r.temperature - cooler);
  }

  // Heat up to its limit, or without one, costs nothing.
  lemma MildHeatIsFree(r: Readings, c: Config, area: real, t: real)
    requires c.tempPenaltyDelta.None? || (r.temperature <= c.tempPenaltyDelta.value && t <= c.tempPenaltyDelta.value)
    ensures Credits(r.(temperature := t), c, area) == Credits(r, c, area)
  {
    SameScoreSameCredits(r.(temperature := t), r, c, area);
  }

  // A snapshot without a usable pH is scored as pH 0: it earns nothing once the
  // band starts at or above the sum of the weights, however good the rest is.
  lemma MissingPhForfeits(s: Snapshot, c: Config, area: real)
    requires NonNegative(c) && area >= 0.0
    requires Coerce(Field(s, "ph")) == 0.0 && c.phMin.Some? && c.phMin.value >= Weights(c)
    ensures Calculate(s, c, area) == 0.0
  {
    var r := Read(s);
    assert r.ph == 0.0;
    ScoreBounds(r, c);
    assert Penalty(r, c) >= c.phMin.value;
    ScaledIsMonotone(Score(r, c) - Penalty(r, c), 0.0, area);
  }
}

/**
 The deterministic duration policy 130.1 (src/simulation/policy-130-simulator.js).
 */
module PolicySimulator {
  import opened Wrappers
  import ContractCurves

  const SIMULATOR_VERSION := "130.1"
  const MAX_LEVEL: nat := 30
  const MAX_OFFLINE_SECONDS: nat := 72 * 60 * 60
  const MIN_JOB_SECONDS: nat := 60
  const MAX_REDUCTION_BPS: nat := 3_500

  datatype BuildingClass = Production | Logistics | Military | Civic
  datatype Curve = Steady | Accelerated
  datatype Boost = Rested | Cooperative | Migration
  datatype SimulatorError = UnsupportedVersion | InvalidLevel

  datatype Levels = Levels(completed: nat, spent: nat)

  function BaseSeconds(c: BuildingClass): nat {
    match c
    case Production => 8 * 60
    case Logistics => 10 * 60
    case Military => 12 * 60
    case Civic => 15 * 60
  }

  function GrowthBps(curve: Curve): nat {
    match curve
    case Steady => 11_800
    case Accelerated => 11_350
  }

  function BoostBps(b: Boost): nat {
    match b
    case Rested => 1_000
    case Cooperative => 1_500
    case Migration => 2_000
  }

  function CeilDiv(numerator: nat, denominator: nat): nat
    requires denominator > 0
  {
    (numerator + denominator - 1) / denominator
  }

  // ---------------------------------------------------------------- one job

  function Raw(c: BuildingClass, curve: Curve, level: nat): nat
    requires level >= 1
  {
    if level == 1 then BaseSeconds(c) else CeilDiv(Raw(c, curve, level - 1) * GrowthBps(curve), 10_000)
  }

  method RawDurationSeconds(c: BuildingClass, level: int, curve: Curve,
          version: string) returns (r: Result<nat, SimulatorError>)
    ensures r == if version != SIMULATOR_VERSION then Failure(UnsupportedVersion)
                 else if level < 1 || level > MAX_LEVEL then Failure(InvalidLevel)
                 else Success(Raw(c, curve, level))
  {
    if version != SIMULATOR_VERSION {
      return Failure(UnsupportedVersion);
    }
    if level < 1 || level > MAX_LEVEL {
      return Failure(InvalidLevel);
    }
    var duration := BaseSeconds(c);
    for currentLevel := 1 to level
      invariant duration == Raw(c, curve, currentLevel)
    {
      duration := CeilDiv(duration * GrowthBps(curve), 10_000);
    }
    r := Success(duration);
  }

  /** The summed reduction of a set of boosts. */
  function SumBps(boosts: set<Boost>): nat {
    (if Rested in boosts then BoostBps(Rested) else 0) + (if Cooperative in boosts then BoostBps(Cooperative) else 0)
    + (if Migration in boosts then BoostBps(Migration) else 0)
  }

  function Reduction(boosts: set<Boost>): (bps: nat)
    ensures bps <= MAX_REDUCTION_BPS
  {
    if SumBps(boosts) < MAX_REDUCTION_BPS then SumBps(boosts) else MAX_REDUCTION_BPS
  }

  function SetOf(boosts: seq<Boost>): set<Boost> {
    set b | b in boosts
  }

  /** Names are counted once, added and capped: the reduction is that of the set of names. */
  method ReductionBps(boosts: seq<Boost>) returns (bps: nat)
    ensures bps == Reduction(SetOf(boosts))
  {
    var unique: set<Boost> := {};
    var total := 0;
    for i := 0 to |boosts|
      invariant unique == SetOf(boosts[..i])
      invariant total == SumBps(unique)
    {
      assert boosts[..i + 1] == boosts[..i] + [boosts[i]];
      assert SetOf(boosts[..i + 1]) == SetOf(boosts[..i]) + {boosts[i]};
      if boosts[i] !in unique {
        unique := unique + {boosts[i]};
        total := total + BoostBps(boosts[i]);
      }
    }
    assert boosts[..|boosts|] == boosts;
    bps := if total < MAX_REDUCTION_BPS then total else MAX_REDUCTION_BPS;
  }

  /** The duration of a job after its boosts and both caps. */
  function Duration(c: BuildingClass, curve: Curve, level: nat, boosts: set<Boost>): (seconds: nat)
    requires level >= 1
    ensures MIN_JOB_SECONDS <= seconds <= MAX_OFFLINE_SECONDS
  {
    var reduced := CeilDiv(Raw(c, curve, level) * (10_000 - Reduction(boosts)), 10_000);
    var atLeast := if reduced < MIN_JOB_SECONDS then MIN_JOB_SECONDS else reduced;
    if atLeast < MAX_OFFLINE_SECONDS then atLeast else MAX_OFFLINE_SECONDS
  }

  /** `quotient` is the least whole number whose ten thousandfold is at least `product`. */
  predicate LeastCovering(quotient: nat, product: nat) {
    10_000 * quotient - 10_000 < product <= 10_000 * quotient
  }

  lemma CeilDivCovers(product: nat)
    ensures LeastCovering(CeilDiv(product, 10_000), product)
  {
    var up := (product + 9_999) / 10_000;
    assert 10_000 * up <= product + 9_999 < 10_000 * up + 10_000;
  }

  /** How much longer each level takes on a curve: 18 or 13.5 in a hundred. */
  function Growth(curve: Curve): real {
    if curve.Steady? then 1.18 else 1.135
  }

  lemma RaiseDrift(before: nat, after: nat, curve: Curve)
    requires LeastCovering(after, before * GrowthBps(curve))
    ensures before as real * Growth(curve) <= after as real < before as real * Growth(curve) + 1.0
  {
    var product := before * GrowthBps(curve);
    assert before as real * Growth(curve) == product as real / 10_000.0;
  }

  lemma RawStep(c: BuildingClass, curve: Curve, level: nat)
    requires level >= 2
    ensures var before := Raw(c, curve, level - 1) as real * Growth(curve);
      before <= Raw(c, curve, level) as real < before + 1.0
  {
    hide CeilDiv, Growth, GrowthBps, LeastCovering;
    CeilDivCovers(Raw(c, curve, level - 1) * GrowthBps(curve));
    RaiseDrift(Raw(c, curve, level - 1), Raw(c, curve, level), curve);
  }

  /** Where level `n + 1` lies on the exact curve, and by how much rounding may have lifted it. */
  ghost predicate Drifted(c: BuildingClass, curve: Curve, n: nat) {
    var exact := BaseSeconds(c) as real * ContractCurves.Pow(Growth(curve), n);
    exact <= Raw(c, curve, n + 1) as real <= exact + ContractCurves.Series(Growth(curve), n)
  }

  /**
   Rounded up at every level, a raw duration is never below the exact curve and gains less than a second per level,
   compounded.
   */
  lemma {:induction false} RawDrift(c: BuildingClass, curve: Curve, n: nat)
    ensures Drifted(c, curve, n)
  {
    hide CeilDiv, BaseSeconds, Growth, GrowthBps, Raw;
    if n > 0 {
      var r := Growth(curve);
      RawDrift(c, curve, n - 1);
      RawStep(c, curve, n + 1);
      GrowthIsPositive(curve);
      DriftOnce(BaseSeconds(c) as real, ContractCurves.Pow(r, n - 1), ContractCurves.Series(r, n - 1),
                Raw(c, curve, n) as real, Raw(c, curve, n + 1) as real, r);
    } else {
      FirstIsExact(c, curve);
    }
  }

  lemma FirstIsExact(c: BuildingClass, curve: Curve)
    ensures Drifted(c, curve, 0)
  {
  }

  lemma DriftOnce(base: real, power: real, slack: real, before: real, after: real, r: real)
    requires r >= 0.0 && base * power <= before <= base * power + slack
    requires before * r <= after < before * r + 1.0
    ensures base * (r * power) <= after <= base * (r * power) + (r * slack + 1.0)
  {
    ContractCurves.DriftStep(base * power, before, after, slack, r);
    ContractCurves.Regroup(base, power, r);
  }

  lemma GrowthIsPositive(curve: Curve)
    ensures Growth(curve) >= 0.0
  {
  }

  /** What boosts take off, in ten thousandths: 10, 15 and 20 in a hundred together, 35 at most. */
  function TakenOff(boosts: set<Boost>): nat {
    if Rested in boosts && Cooperative in boosts && Migration in boosts then 3_500
    else
      (if Rested in boosts then 1_000 else 0) + (if Cooperative in boosts then 1_500 else 0)
      + (if Migration in boosts then 2_000 else 0)
  }

  /** A job takes what its boosts leave of the raw duration, rounded up, at least a minute and at most three days. */
  lemma BoostsShorten(c: BuildingClass, curve: Curve, level: nat, boosts: set<Boost>) returns (left: nat)
    requires level >= 1
    ensures LeastCovering(left, Raw(c, curve, level) * (10_000 - TakenOff(boosts)))
    ensures Duration(c, curve, level, boosts) == if left < 60 then 60 else if left > 259_200 then 259_200 else left
  {
    hide Raw, CeilDiv;
    left := CeilDiv(Raw(c, curve, level) * (10_000 - TakenOff(boosts)), 10_000);
    CeilDivCovers(Raw(c, curve, level) * (10_000 - TakenOff(boosts)));
    assert Reduction(boosts) == TakenOff(boosts);
  }

  lemma CeilDivMonotone(a: nat, b: nat)
    requires a <= b
    ensures CeilDiv(a, 10_000) <= CeilDiv(b, 10_000)
  {
  }

  lemma ProductMonotone(a: nat, b: nat, x: nat, y: nat)
    requires a <= b && x <= y
    ensures a * x <= b * y
  {
    assert a * x <= b * x <= b * y;
  }

  /** At every level the accelerated curve takes no longer than the steady one. */
  lemma {:induction false} AcceleratedIsNoSlower(c: BuildingClass, level: nat)
    requires level >= 1
    ensures Raw(c, Accelerated, level) <= Raw(c, Steady, level)
  {
    if level > 1 {
      AcceleratedIsNoSlower(c, level - 1);
      ProductMonotone(Raw(c, Accelerated, level - 1), Raw(c, Steady, level - 1), 11_350, 11_800);
      CeilDivMonotone(Raw(c, Accelerated, level - 1) * 11_350, Raw(c, Steady, level - 1) * 11_800);
    }
  }

  /** A job's final duration depends on the raw one monotonically, and more boosts never lengthen it. */
  lemma DurationMonotone(c: BuildingClass, curve: Curve, level: nat, other: Curve, boosts: set<Boost>, more: set<Boost>)
    requires level >= 1 && Raw(c, curve, level) <= Raw(c, other, level) && boosts <= more
    ensures Duration(c, curve, level, more) <= Duration(c, other, level, boosts)
  {
    hide Raw;
    var x, y := Raw(c, curve, level), Raw(c, other, level);
    MoreBoostsReduceMore(boosts, more);
    ProductMonotone(x, y, 10_000 - Reduction(more), 10_000 - Reduction(boosts));
    CeilDivMonotone(x * (10_000 - Reduction(more)), y * (10_000 - Reduction(boosts)));
  }

  lemma MoreBoostsReduceMore(boosts: set<Boost>, more: set<Boost>)
    requires boosts <= more
    ensures Reduction(boosts) <= Reduction(more)
  {
    assert forall b :: b in boosts ==> b in more;
  }

  // ---------------------------------------------------------------- levels within a horizon

  /** The time the first `k` levels take one after the other. */
  function Total(c: BuildingClass, curve: Curve, k: nat): nat {
    if k == 0 then 0 else Total(c, curve, k - 1) + Duration(c, curve, k, {})
  }

  lemma {:induction false} TotalRises(c: BuildingClass, curve: Curve, j: nat, k: nat)
    requires j <= k
    ensures Total(c, curve, j) <= Total(c, curve, k)
    decreases k
  {
    if j < k {
      TotalRises(c, curve, j, k - 1);
    }
  }

  /** The most levels, of at most 30, whose durations fit into the horizon together. */
  ghost predicate MostLevels(c: BuildingClass, curve: Curve, horizon: int, k: nat) {
    && k <= MAX_LEVEL
    && (k > 0 ==> Total(c, curve, k) <= horizon)
    && forall m: nat :: 0 < m <= MAX_LEVEL && Total(c, curve, m) <= horizon ==> m <= k
  }

  /** Once the first `level` levels do not fit, no more of them do. */
  lemma NoMoreFit(c: BuildingClass, curve: Curve, horizon: int, level: nat)
    requires Total(c, curve, level) > horizon
    ensures forall m: nat :: Total(c, curve, m) <= horizon ==> m < level
  {
    forall m: nat | Total(c, curve, m) <= horizon
      ensures m < level
    {
      if level <= m {
        TotalRises(c, curve, level, m);
      }
    }
  }

  lemma TotalStep(c: BuildingClass, curve: Curve, level: nat)
    requires level >= 1
    ensures Total(c, curve, 0) == 0
    ensures Total(c, curve, level) == Total(c, curve, level - 1) + Duration(c, curve, level, {})
  {
    hide Duration;
  }

  method LevelsCompletedBy(c: BuildingClass, curve: Curve, horizon: int) returns (r: Levels)
    ensures MostLevels(c, curve, horizon, r.completed) && r.spent == Total(c, curve, r.completed)
  {
    hide Duration, Total;
    var spent, completed := 0, 0;
    TotalStep(c, curve, 1);
    for level := 1 to MAX_LEVEL + 1
      invariant completed == level - 1 && spent == Total(c, curve, completed)
      invariant completed > 0 ==> spent <= horizon
    {
      var duration := Duration(c, curve, level, {});
      TotalStep(c, curve, level);
      if spent + duration > horizon {
        NoMoreFit(c, curve, horizon, level);
        return Levels(completed, spent);
      }
      spent := spent + duration;
      completed := level;
    }
    r := Levels(completed, spent);
  }

  lemma {:induction false} AcceleratedTotal(c: BuildingClass, k: nat)
    ensures Total(c, Accelerated, k) <= Total(c, Steady, k)
  {
    if k > 0 {
      AcceleratedTotal(c, k - 1);
      AcceleratedIsNoSlower(c, k);
      DurationMonotone(c, Accelerated, k, Steady, {}, {});
    }
  }

  /**
   The number of completed levels is determined by the horizon, never falls when it grows, and is never
   smaller on the accelerated curve.
   */
  lemma CompletedLevelsCompare(c: BuildingClass, curve: Curve, horizon: int, k: nat, longer: int, m: nat, n: nat)
    requires MostLevels(c, curve, horizon, k) && horizon <= longer && MostLevels(c, curve, longer, m)
    requires MostLevels(c, Accelerated, horizon, n)
    ensures k <= m && (horizon == longer ==> k == m)
    ensures curve == Steady ==> k <= n
  {
    AcceleratedTotal(c, k);
  }

  // ---------------------------------------------------------------- the published horizons

  /** Civic level `k` takes `raw` seconds, and the first `k` levels take `total`. */
  ghost predicate At(curve: Curve, k: nat, raw: nat, total: nat) {
    k >= 1 && Raw(Civic, curve, k) == raw && Total(Civic, curve, k) == total
  }

  /** The next four levels, each grown from the one before and rounded up. */
  ghost predicate Climbs(curve: Curve, raw: nat, a: nat, b: nat, c: nat, d: nat) {
    && LeastCovering(a, raw * GrowthBps(curve)) && LeastCovering(b, a * GrowthBps(curve))
    && LeastCovering(c, b * GrowthBps(curve)) && LeastCovering(d, c * GrowthBps(curve))
  }

  lemma LevelUp(curve: Curve, k: nat, raw: nat, total: nat, up: nat)
    requires At(curve, k, raw, total) && LeastCovering(up, raw * GrowthBps(curve)) && 60 <= up <= 259_200
    ensures At(curve, k + 1, up, total + up)
  {
    hide CeilDiv, Duration, Total, GrowthBps;
    CeilDivCovers(raw * GrowthBps(curve));
    TotalStep(Civic, curve, k + 1);
    var left := BoostsShorten(Civic, curve, k + 1, {});
  }

  lemma FourUp(curve: Curve, k: nat, raw: nat, total: nat, a: nat, b: nat, c: nat, d: nat)
    requires At(curve, k, raw, total) && Climbs(curve, raw, a, b, c, d) && 60 <= a <= b <= c <= d <= 259_200
    ensures At(curve, k + 4, d, total + a + b + c + d)
  {
    hide At, LeastCovering, GrowthBps;
    LevelUp(curve, k, raw, total, a);
    LevelUp(curve, k + 1, a, total + a, b);
    LevelUp(curve, k + 2, b, total + a + b, c);
    LevelUp(curve, k + 3, c, total + a + b + c, d);
  }

  lemma FirstLevel(curve: Curve)
    ensures At(curve, 1, 900, 900)
  {
    TotalStep(Civic, curve, 1);
  }

  lemma SteadyTotals()
    ensures At(Steady, 17, 12_756, 78_570) && At(Steady, 18, 15_053, 93_623)
    ensures At(Steady, 29, 92_981, 604_452) && At(Steady, 30, 109_718, 714_170)
  {
    hide At;
    FirstLevel(Steady);
    FourUp(Steady, 1, 900, 900, 1_062, 1_254, 1_480, 1_747);
    FourUp(Steady, 5, 1_747, 6_443, 2_062, 2_434, 2_873, 3_391);
    FourUp(Steady, 9, 3_391, 17_203, 4_002, 4_723, 5_574, 6_578);
    FourUp(Steady, 13, 6_578, 38_080, 7_763, 9_161, 10_810, 12_756);
    LevelUp(Steady, 17, 12_756, 78_570, 15_053);
    FourUp(Steady, 17, 12_756, 78_570, 15_053, 17_763, 20_961, 24_734);
    FourUp(Steady, 21, 24_734, 157_081, 29_187, 34_441, 40_641, 47_957);
    FourUp(Steady, 25, 47_957, 309_307, 56_590, 66_777, 78_797, 92_981);
    LevelUp(Steady, 29, 92_981, 604_452, 109_718);
  }

  lemma AcceleratedTotals()
    ensures At(Accelerated, 20, 10_015, 77_459) && At(Accelerated, 21, 11_368, 88_827)
    ensures At(Accelerated, 30, 35_543, 292_038)
  {
    hide At;
    FirstLevel(Accelerated);
    FourUp(Accelerated, 1, 900, 900, 1_022, 1_160, 1_317, 1_495);
    FourUp(Accelerated, 5, 1_495, 5_894, 1_697, 1_927, 2_188, 2_484);
    FourUp(Accelerated, 9, 2_484, 14_190, 2_820, 3_201, 3_634, 4_125);
    FourUp(Accelerated, 13, 4_125, 27_970, 4_682, 5_315, 6_033, 6_848);
    LevelUp(Accelerated, 17, 6_848, 50_848, 7_773);
    LevelUp(Accelerated, 18, 7_773, 58_621, 8_823);
    LevelUp(Accelerated, 19, 8_823, 67_444, 10_015);
    LevelUp(Accelerated, 20, 10_015, 77_459, 11_368);
    FourUp(Accelerated, 21, 11_368, 88_827, 12_903, 14_645, 16_623, 18_868);
    FourUp(Accelerated, 25, 18_868, 151_866, 21_416, 24_308, 27_590, 31_315);
    LevelUp(Accelerated, 29, 31_315, 256_495, 35_543);
  }

  /** If `k` levels fit into the horizon and `k + 1` do not, or there is none, then `k` is the most. */
  lemma MostAt(curve: Curve, horizon: nat, k: nat)
    requires 1 <= k <= MAX_LEVEL && Total(Civic, curve, k) <= horizon
    requires k < MAX_LEVEL ==> horizon < Total(Civic, curve, k + 1)
    ensures MostLevels(Civic, curve, horizon, k)
  {
    hide Total;
    if k < MAX_LEVEL {
      NoMoreFit(Civic, curve, horizon, k + 1);
    }
  }

  /**
   Civic levels within a day, a week and 30 days: 17, 29 and 30 on the steady curve, 20, 30 and 30 on the
   accelerated one. The published table says 11, 20 and 30, and 14, 27 and 30.
   */
  lemma CivicHorizons()
    ensures MostLevels(Civic, Steady, 86_400, 17) && MostLevels(Civic, Accelerated, 86_400, 20)
    ensures MostLevels(Civic, Steady, 604_800, 29) && MostLevels(Civic, Accelerated, 604_800, 30)
    ensures MostLevels(Civic, Steady, 2_592_000, 30) && MostLevels(Civic, Accelerated, 2_592_000, 30)
  {
    hide Raw, Total, MostLevels;
    SteadyTotals();
    AcceleratedTotals();
    MostAt(Steady, 86_400, 17);
    MostAt(Steady, 604_800, 29);
    MostAt(Steady, 2_592_000, 30);
    MostAt(Accelerated, 86_400, 20);
    MostAt(Accelerated, 604_800, 30);
    MostAt(Accelerated, 2_592_000, 30);
  }

  /** Bare first levels take 8, 10, 12 and 15 minutes; each step and each reduction rounds up once. */
  lemma PublishedDurations(curve: Curve)
    ensures Duration(Production, curve, 1, {}) == 8 * 60 && Duration(Logistics, curve, 1, {}) == 10 * 60
    ensures Duration(Military, curve, 1, {}) == 12 * 60 && Duration(Civic, curve, 1, {}) == 15 * 60
    ensures Duration(Production, Accelerated, 2, {}) == 545
    ensures Duration(Production, Accelerated, 2, {Rested}) == 491
    ensures Duration(Production, curve, 1, {Rested, Cooperative, Migration}) == 312
  {
    var left := BoostsShorten(Production, Accelerated, 2, {Rested});
    left := BoostsShorten(Production, curve, 1, {Rested, Cooperative, Migration});
  }
}

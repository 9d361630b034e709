/**
 Prices and capacities of the on-chain game, iterated with rounding at every level
 (src/world-game/projections.js:19-51 and 103-129), against the exact exponential they round.
 */
module ContractCurves {
  import opened DependencySearch

  datatype BaseCost = BaseCost(values: seq<nat>, factor: nat)

  /** Base price in wood, clay, stone and gold, and the growth per level in hundredths. */
  function BaseCosts(b: Building): (base: BaseCost)
    ensures |base.values| == 4 && 146 <= base.factor <= 166
  {
    match b
    case Townhall => BaseCost([280, 260, 240, 0], 160)
    case Timber => BaseCost([35, 20, 15, 0], 146)
    case Claypit => BaseCost([25, 40, 20, 0], 147)
    case Quarry => BaseCost([30, 25, 45, 0], 148)
    case Warehouse => BaseCost([45, 45, 35, 0], 152)
    case Workshop => BaseCost([90, 110, 105, 15], 160)
    case Goldmine => BaseCost([130, 120, 150, 0], 166)
    case Barracks => BaseCost([125, 145, 105, 25], 162)
  }

  const GOLD: nat := 3

  /** One level's growth, rounded up. */
  function Raise(value: nat, factor: nat): nat {
    (value * factor + 99) / 100
  }

  function Grown(value: nat, factor: nat, levels: nat): nat {
    if levels == 0 then value else Raise(Grown(value, factor, levels - 1), factor)
  }

  /** Workshop I and II cost no gold. */
  predicate Waived(b: Building, level: nat, component: nat) {
    b == Workshop && level <= 1 && component == GOLD
  }

  /** The price of the next level of `b`, which stands at `level`. */
  method GetContractBuildingCost(b: Building, level: nat) returns (cost: seq<nat>)
    ensures |cost| == 4
    ensures forall i :: 0 <= i < 4 ==> cost[i] == CostComponent(b, level, i)
  {
    var definition := BaseCosts(b);
    var values := new nat[4](i requires 0 <= i < 4 => definition.values[i]);
    for l := 0 to level
      invariant forall i :: 0 <= i < 4 ==> values[i] == Grown(definition.values[i], definition.factor, l)
    {
      for index := 0 to 4
        invariant forall i :: 0 <= i < 4 ==>
          values[i] == Grown(definition.values[i], definition.factor, if i < index then l + 1 else l)
      {
        values[index] := Raise(values[index], definition.factor);
      }
    }
    if b == Workshop && level <= 1 {
      values[GOLD] := 0;
    }
    cost := values[..];
  }

  function CostComponent(b: Building, level: nat, component: nat): nat
    requires component < 4
  {
    if Waived(b, level, component) then 0 else Grown(BaseCosts(b).values[component], BaseCosts(b).factor, level)
  }

  /** The workshop's first two levels cost no gold; from then on it costs gold as it grows, and more each level. */
  lemma WorkshopGold(level: nat)
    ensures level <= 1 ==> CostComponent(Workshop, level, GOLD) == 0
    ensures level >= 2 ==> CostComponent(Workshop, level, GOLD) == Grown(15, 160, level) > Grown(15, 160, level - 1)
  {
    if level >= 2 {
      GrownStaysPositive(15, 160, level - 1);
      RaiseRises(Grown(15, 160, level - 1), 160);
    }
  }

  // ---------------------------------------------------------------- the exact curve

  function Pow(r: real, n: nat): real {
    if n == 0 then 1.0 else r * Pow(r, n - 1)
  }

  /** 1 + r + ... + r^(n - 1) */
  ghost function Series(r: real, n: nat): real {
    if n == 0 then 0.0 else r * Series(r, n - 1) + 1.0
  }

  lemma {:induction false} SeriesIsGeometric(r: real, n: nat)
    ensures Series(r, n) * (r - 1.0) == Pow(r, n) - 1.0
  {
    if n > 0 {
      SeriesIsGeometric(r, n - 1);
      assert Series(r, n) * (r - 1.0) == r * (Series(r, n - 1) * (r - 1.0)) + (r - 1.0);
    }
  }

  function Rate(factor: nat): real {
    factor as real / 100.0
  }

  lemma RaiseBounds(value: nat, factor: nat)
    ensures value as real * Rate(factor) <= Raise(value, factor) as real < value as real * Rate(factor) + 1.0
  {
    var product := value * factor;
    assert value as real * Rate(factor) == product as real / 100.0;
    var up := (product + 99) / 100;
    assert 100 * up <= product + 99 && product <= 100 * up;
  }

  lemma ScaleKeepsOrder(a: real, b: real, r: real)
    requires a <= b && r >= 0.0
    ensures a * r <= b * r
  {
  }

  /** One rounded step from a value between `exact` and `exact + slack`. */
  lemma DriftStep(exact: real, before: real, after: real, slack: real, r: real)
    requires r >= 0.0 && exact <= before <= exact + slack
    requires before * r <= after < before * r + 1.0
    ensures exact * r <= after <= exact * r + (r * slack + 1.0)
  {
    ScaleKeepsOrder(exact, before, r);
    ScaleKeepsOrder(before, exact + slack, r);
    assert (exact + slack) * r == exact * r + r * slack;
  }

  lemma Regroup(a: real, b: real, c: real)
    ensures a * b * c == a * (c * b)
  {
  }

  /** Rounding up at every level never falls below the exact curve, and gains less than one per level, compounded. */
  lemma {:induction false} GrownDrift(value: nat, factor: nat, n: nat)
    ensures value as real * Pow(Rate(factor), n) <= Grown(value, factor, n) as real
    ensures Grown(value, factor, n) as real <= value as real * Pow(Rate(factor), n) + Series(Rate(factor), n)
  {
    hide Raise, Rate;
    if n > 0 {
      var r := Rate(factor);
      var exact, before := value as real * Pow(r, n - 1), Grown(value, factor, n - 1);
      GrownDrift(value, factor, n - 1);
      RateIsPositive(factor);
      RaiseBounds(before, factor);
      DriftStep(exact, before as real, Grown(value, factor, n) as real, Series(r, n - 1), r);
      Regroup(value as real, Pow(r, n - 1), r);
    }
  }

  lemma RateIsPositive(factor: nat)
    ensures Rate(factor) >= 0.0
  {
  }

  lemma RaiseRises(value: nat, factor: nat)
    requires value > 0 && factor > 100
    ensures Raise(value, factor) > value
  {
    assert value * factor >= value * 101;
  }

  lemma {:induction false} GrownStaysPositive(value: nat, factor: nat, n: nat)
    requires value > 0 && factor > 100
    ensures Grown(value, factor, n) >= value + n
  {
    if n > 0 {
      GrownStaysPositive(value, factor, n - 1);
      RaiseRises(Grown(value, factor, n - 1), factor);
    }
  }

  lemma GrownDriftGeometric(base: nat, factor: nat, level: nat)
    requires factor > 100
    ensures var r := Rate(factor);
      && r > 1.0
      && base as real * Pow(r, level) <= Grown(base, factor, level) as real
      && Grown(base, factor, level) as real <= base as real * Pow(r, level) + (Pow(r, level) - 1.0) / (r - 1.0)
  {
    var r := Rate(factor);
    GrownDrift(base, factor, level);
    SeriesIsGeometric(r, level);
    DivideBack(Series(r, level), r - 1.0, Pow(r, level) - 1.0);
  }

  /**
   At every level each price component that is not waived lies between base * r^n and
   base * r^n + (r^n - 1) / (r - 1), and rises strictly from level to level when its base is not zero.
   */
  lemma BuildingCostDrift(b: Building, level: nat, component: nat)
    requires component < 4 && !Waived(b, level, component)
    ensures var base, r := BaseCosts(b).values[component] as real, Rate(BaseCosts(b).factor);
      && r > 1.0
      && base * Pow(r, level) <= CostComponent(b, level, component) as real
      && CostComponent(b, level, component) as real <= base * Pow(r, level) + (Pow(r, level) - 1.0) / (r - 1.0)
    ensures BaseCosts(b).values[component] > 0 ==>
      CostComponent(b, level, component) < CostComponent(b, level + 1, component)
  {
    hide Pow, Rate, Raise, BaseCosts;
    var base, factor := BaseCosts(b).values[component], BaseCosts(b).factor;
    GrownDriftGeometric(base, factor, level);
    if base > 0 {
      GrownStaysPositive(base, factor, level);
      RaiseRises(Grown(base, factor, level), factor);
    }
  }

  lemma DivideBack(a: real, b: real, c: real)
    requires b != 0.0 && a * b == c
    ensures a == c / b
  {
  }

  // ---------------------------------------------------------------- capacity

  /** One warehouse level: times 1.7, rounded to the nearest. */
  function Widen(capacity: nat): nat {
    (capacity * 17 + 5) / 10
  }

  function CapacityAfter(steps: nat): nat {
    if steps == 0 then 500 else Widen(CapacityAfter(steps - 1))
  }

  method GetContractCapacity(warehouse: nat) returns (capacity: nat)
    ensures capacity == CapacityAfter(if warehouse == 0 then 0 else warehouse - 1)
  {
    capacity := 500;
    var level := 1;
    while level < warehouse
      invariant level == 1 || 1 <= level <= warehouse
      invariant capacity == CapacityAfter(level - 1)
    {
      capacity := Widen(capacity);
      level := level + 1;
    }
  }

  lemma WidenBounds(capacity: nat)
    ensures capacity as real * 1.7 - 0.5 <= Widen(capacity) as real <= capacity as real * 1.7 + 0.5
    ensures capacity >= 500 ==> Widen(capacity) > capacity
  {
    var wide := Widen(capacity);
    assert 10 * wide <= capacity * 17 + 5 && capacity * 17 + 5 <= 10 * wide + 9;
    assert capacity as real * 1.7 == (capacity * 17) as real / 10.0;
  }

  /** The drift of the nearest rounding: half of the geometric series, on either side. */
  lemma {:induction false} CapacityDriftSeries(n: nat)
    ensures 500.0 * Pow(1.7, n) - 0.5 * Series(1.7, n) <= CapacityAfter(n) as real
    ensures CapacityAfter(n) as real <= 500.0 * Pow(1.7, n) + 0.5 * Series(1.7, n)
    ensures CapacityAfter(n) >= 500
  {
    if n > 0 {
      CapacityDriftSeries(n - 1);
      WidenBounds(CapacityAfter(n - 1));
    }
  }

  /** After n growth steps the capacity is within 0.5 * (1.7^n - 1) / 0.7 of 500 * 1.7^n, and it always grows. */
  lemma CapacityDrift(n: nat)
    ensures 500.0 * Pow(1.7, n) - 0.5 * ((Pow(1.7, n) - 1.0) / 0.7) <= CapacityAfter(n) as real
    ensures CapacityAfter(n) as real <= 500.0 * Pow(1.7, n) + 0.5 * ((Pow(1.7, n) - 1.0) / 0.7)
    ensures CapacityAfter(n) < CapacityAfter(n + 1)
  {
    CapacityDriftSeries(n);
    SeriesIsGeometric(1.7, n);
    WidenBounds(CapacityAfter(n));
  }
}

/**
 What every run of the demo engine keeps (src/game.js:180-454): stocks within capacity, prerequisites met,
 targets within their first stock, and an army that is there when its march is due.
 */
module EconomyInvariant {
  import opened Wrappers
  import opened ContractCurves
  import opened DependencySearch
  import opened DemoEconomy

  // ---------------------------------------------------------------- capacity and prices

  lemma GrowthStep(r: real, p: real)
    requires r > 1.0 && p >= 1.0
    ensures r * p >= p
  {
  }

  lemma {:induction false} PowGrows(r: real, n: nat, m: nat)
    requires r > 1.0 && n <= m
    ensures Pow(r, m) >= Pow(r, n) >= 1.0
    decreases m
  {
    if n < m {
      PowGrows(r, n, m - 1);
      GrowthStep(r, Pow(r, m - 1));
    } else if n > 0 {
      PowGrows(r, n - 1, n - 1);
      GrowthStep(r, Pow(r, n - 1));
    }
  }

  lemma FloorBounds(x: real) returns (n: int)
    ensures n == x.Floor && n as real <= x < n as real + 1.0
  {
    n := x.Floor;
  }

  lemma WholesCompare(m: int, n: int)
    ensures m > n ==> m as real >= n as real + 1.0
    ensures m <= n ==> m as real <= n as real
  {
    if m > n {
      assert m as real == n as real + 1.0 + (m - n - 1) as real;
    } else {
      assert n as real == m as real + (n - m) as real;
    }
  }

  lemma RoundKeepsOrder(a: real, b: real)
    requires a <= b
    ensures Round(a) <= Round(b)
  {
    var m := FloorBounds(a + 0.5);
    var n := FloorBounds(b + 0.5);
    WholesCompare(m, n);
  }

  lemma RoundKeepsWhole(n: int)
    ensures Round(n as real) == n as real
  {
    var m := FloorBounds(n as real + 0.5);
    WholesCompare(m, n);
    WholesCompare(n, m);
  }

  /** Capacity starts at 500 and never falls as the warehouse grows. */
  lemma CapacityGrows(low: nat, high: nat)
    requires low <= high
    ensures 500.0 <= CapacityAt(low) <= CapacityAt(high)
  {
    hide Pow, Round;
    var n, m := if low == 0 then 0 else low - 1, if high == 0 then 0 else high - 1;
    PowGrows(1.7, n, m);
    RoundKeepsOrder(500.0 * Pow(1.7, n), 500.0 * Pow(1.7, m));
    RoundKeepsOrder(500.0, 500.0 * Pow(1.7, n));
    RoundKeepsWhole(500);
  }

  lemma ProductNotNegative(a: real, b: real)
    requires a >= 0.0 && b >= 0.0
    ensures a * b >= 0.0
  {
  }

  lemma PricesStartPositive(b: Building, r: Resource)
    ensures BasePrice(b).0.Get(r) >= 0.0 && BasePrice(b).1 > 1.0
  {
  }

  lemma GrownPriceIsNotNegative(base: real, factor: real, levels: nat)
    requires base >= 0.0 && factor > 1.0
    ensures GrownPrice(base, factor, levels) >= 0.0
  {
    PowGrows(factor, 0, levels);
    ProductNotNegative(base, Pow(factor, levels));
  }

  lemma BuildingCostIsNotNegative(g: Game, b: Building, r: Resource)
    ensures BuildingCost(g, b).Get(r) >= 0.0
  {
    hide GrownPrice, BasePrice;
    var (base, factor) := BasePrice(b);
    PricesStartPositive(b, r);
    GrownPriceIsNotNegative(base.Get(r), factor, g.buildings.Get(b));
    var cost := Each(x => GrownPrice(base.Get(x), factor, g.buildings.Get(b)));
    assert cost.Get(r) >= 0.0 && cost.(gold := 0.0).Get(r) >= 0.0;
  }

  // ---------------------------------------------------------------- the invariant

  predicate Between(s: Stock, low: Stock, high: Stock) {
    forall r: Resource :: low.Get(r) <= s.Get(r) <= high.Get(r)
  }

  /** `s` holds nothing negative and no more of anything than `capacity`. */
  predicate Fits(s: Stock, capacity: real) {
    forall r: Resource :: 0.0 <= s.Get(r) <= capacity
  }

  /** Every level ever built had, and still has, what it demands. */
  ghost predicate Rooted(levels: Levels) {
    forall b: Building, l: nat :: 1 <= l <= levels.Get(b) ==> Meets(levels, Demands(b, l))
  }

  predicate TargetsWithin(targets: seq<Target>) {
    forall i :: 0 <= i < |targets| ==> Between(targets[i].unclaimed, NO_STOCK, targets[i].initial)
  }

  predicate NoneNegative(troops: Troops) {
    forall k: TroopKind :: 0 <= troops.Get(k)
  }

  /** A pending march has a target to reach and somebody marching. */
  predicate MarchMakesSense(g: Game) {
    g.pendingRaid.Some? ==>
      && FindTarget(g.targets, g.pendingRaid.value.target).Some?
      && g.pendingRaid.value.army.Total() > 0
      && NoneNegative(g.pendingRaid.value.army)
  }

  ghost predicate Sound(g: Game) {
    && Fits(g.unclaimed, Capacity(g))
    && Fits(g.resources, Capacity(g))
    && Rooted(g.buildings)
    && TargetsWithin(g.targets)
    && NoneNegative(g.troops)
    && MarchMakesSense(g)
  }

  /** The army of a pending march is still among the troops. */
  predicate ArmyIsThere(g: Game) {
    g.pendingRaid.Some? ==> Available(g.pendingRaid.value.army, g.troops)
  }

  /** Targets keep their names, defences and first stocks. */
  predicate SameRoster(a: seq<Target>, b: seq<Target>) {
    && |a| == |b|
    && forall i :: 0 <= i < |a| ==> a[i].id == b[i].id && a[i].defense == b[i].defense && a[i].initial == b[i].initial
  }

  lemma {:induction false} RosterFindsAlike(a: seq<Target>, b: seq<Target>, id: string)
    requires SameRoster(a, b)
    ensures FindTarget(a, id) == FindTarget(b, id)
  {
    if a != [] {
      RosterFindsAlike(a[1..], b[1..], id);
    }
  }

  // ---------------------------------------------------------------- one step

  lemma AccruedFits(capacity: real, stock: real, rate: real, elapsed: real)
    requires 0.0 <= stock <= capacity && rate >= 0.0 && elapsed >= 0.0
    ensures stock <= Accrued(capacity, stock, rate, elapsed) <= capacity
  {
    ProductNotNegative(rate, elapsed);
  }

  lemma SettleKeepsSound(g: Game, now: real)
    requires Sound(g)
    ensures Sound(Settle(g, now))
  {
    hide Accrued, CapacityAt, Rooted, TargetsWithin, FindTarget;
    forall r: Resource
      ensures 0.0 <= Settle(g, now).unclaimed.Get(r) <= Capacity(g)
    {
      AccruedFits(Capacity(g), g.unclaimed.Get(r), Production(g).Get(r), Elapsed(g, now));
    }
  }

  /** Settling touches the field and the clock, nothing else. */
  lemma SettleOnlyAccrues(g: Game, now: real)
    ensures Settle(g, now) == g.(unclaimed := Settle(g, now).unclaimed, last := now)
  {
  }

  lemma RaisingKeepsRooted(levels: Levels, b: Building)
    requires Rooted(levels) && Meets(levels, Demands(b, levels.Get(b) + 1))
    ensures Rooted(levels.Raised(b))
  {
    hide Demands;
    var raised := levels.Raised(b);
    forall x: Building, l: nat | 1 <= l <= raised.Get(x)
      ensures Meets(raised, Demands(x, l))
    {
      assert Meets(levels, Demands(x, l));
    }
  }

  lemma PaymentFits(resources: Stock, cost: Stock, capacity: real)
    requires Fits(resources, capacity) && CanPay(resources, cost)
    requires forall r: Resource :: cost.Get(r) >= 0.0
    ensures Fits(Pay(resources, cost), capacity)
  {
  }

  lemma UpgradeKeepsSound(g: Game, b: Building, now: real)
    requires Sound(g)
    ensures Sound(Upgrade(g, b, now).0)
  {
    hide CapacityAt, Rooted, TargetsWithin, FindTarget, BuildingCost, Settle, Demands, Meets;
    SettleKeepsSound(g, now);
    var s := Settle(g, now);
    if Upgrade(g, b, now).1 == Done {
      CapacityGrows(s.buildings.warehouse, s.buildings.Raised(b).warehouse);
      assert s.buildings.Raised(b).Get(Warehouse) >= s.buildings.Get(Warehouse);
      RaisingKeepsRooted(s.buildings, b);
      forall r: Resource
        ensures BuildingCost(s, b).Get(r) >= 0.0
      {
        BuildingCostIsNotNegative(s, b, r);
      }
      PaymentFits(s.resources, BuildingCost(s, b), Capacity(s));
    }
  }

  lemma GatherKeepsSound(g: Game, now: real)
    requires Sound(g)
    ensures Sound(StartGathering(g, now).0)
  {
    hide CapacityAt, Rooted, TargetsWithin, FindTarget, Settle;
    SettleKeepsSound(g, now);
  }

  lemma SwapKeepsSound(g: Game, from: Resource, to: Resource, amount: real, now: real)
    requires Sound(g)
    ensures Sound(Swap(g, from, to, amount, now).0)
  {
    hide CapacityAt, Rooted, TargetsWithin, FindTarget, Settle;
    SettleKeepsSound(g, now);
    var given := Max(0.0, amount.Floor as real);
    if Swap(g, from, to, amount, now).1 == Done {
      ProductNotNegative(given, InternalValue(from));
      assert given * InternalValue(from) / InternalValue(to) >= 0.0;
    }
  }

  lemma TroopCostIsNotNegative(k: TroopKind, count: nat, r: Resource)
    ensures TroopCost(k, count).Get(r) >= 0.0
  {
    ProductNotNegative(TroopRules(k).1.Get(r), count as real);
  }

  lemma TrainKeepsSound(g: Game, k: TroopKind, amount: real, now: real)
    requires Sound(g)
    ensures Sound(Train(g, k, amount, now).0)
  {
    hide CapacityAt, Rooted, TargetsWithin, FindTarget, Meets, TroopCost, TroopRules, Settle, CanPay, Pay;
    SettleKeepsSound(g, now);
    SettleOnlyAccrues(g, now);
    var s := Settle(g, now);
    if Train(g, k, amount, now).1 == Done {
      var count := if amount.Floor < 1 then 1 else amount.Floor;
      forall r: Resource
        ensures TroopCost(k, count).Get(r) >= 0.0
      {
        TroopCostIsNotNegative(k, count, r);
      }
      PaymentFits(s.resources, TroopCost(k, count), Capacity(s));
    }
  }

  // ---------------------------------------------------------------- raids

  lemma TakenIsThere(part: real, total: real, carry: real)
    requires 0.0 <= part && total > 0.0 && carry >= 0.0
    ensures 0.0 <= Taken(part, total, carry) <= part
  {
    ProductNotNegative(part / total, carry);
  }

  /** Loot takes nothing that is not there. */
  lemma LootIsThere(stock: Stock, carry: real)
    requires forall r: Resource :: stock.Get(r) >= 0.0
    requires carry >= 0.0
    ensures Between(Loot(stock, carry), NO_STOCK, stock)
  {
    hide Taken;
    var total := stock.wood + stock.clay + stock.stone + stock.gold;
    assert stock.Get(Wood) >= 0.0 && stock.Get(Clay) >= 0.0 && stock.Get(Stone) >= 0.0 && stock.Get(Gold) >= 0.0;
    if total != 0.0 {
      forall r: Resource
        ensures 0.0 <= Taken(stock.Get(r), total, carry) <= stock.Get(r)
      {
        TakenIsThere(stock.Get(r), total, carry);
      }
    }
  }

  lemma CasualtiesAreOfTheArmy(army: Troops, won: bool)
    requires NoneNegative(army)
    ensures NoneNegative(Casualties(army, won)) && Available(Casualties(army, won), army)
  {
    forall k: TroopKind
      ensures 0 <= Casualties(army, won).Get(k) <= army.Get(k)
    {
      assert 0 <= army.Get(k);
    }
  }

  ghost function Stolen(g: Game, i: nat, army: Troops): Stock
    requires i < |g.targets|
  {
    if Attack(army) >= g.targets[i].defense then Loot(g.targets[i].unclaimed, (army.Total() * 18) as real) else NO_STOCK
  }

  lemma FightKeepsSound(g: Game, i: nat, army: Troops)
    requires Sound(g) && i < |g.targets|
    requires NoneNegative(army) && Available(army, g.troops)
    ensures Sound(Fight(g, i, army)) && SameRoster(g.targets, Fight(g, i, army).targets)
  {
    hide CapacityAt, Rooted, FindTarget, Loot, Casualties, Attack;
    var after, stolen, target := Fight(g, i, army), Stolen(g, i, army), g.targets[i];
    CapacityGrows(g.buildings.warehouse, g.buildings.warehouse);
    CasualtiesAreOfTheArmy(army, Attack(army) >= target.defense);
    assert army.Get(Spear) >= 0 && army.Get(Archer) >= 0 && army.Get(Rider) >= 0;
    assert Between(target.unclaimed, NO_STOCK, target.initial);
    forall r: Resource
      ensures target.unclaimed.Get(r) >= 0.0
    {
      assert NO_STOCK.Get(r) == 0.0;
    }
    LootIsThere(target.unclaimed, (army.Total() * 18) as real);
    assert Between(stolen, NO_STOCK, target.unclaimed);
    assert Between(after.targets[i].unclaimed, NO_STOCK, target.initial);
    assert NoneNegative(after.troops);
    assert Fits(after.resources, Capacity(g));
    MarchOutlivesFight(g, after);
  }

  lemma ArmyIsNotNegative(selected: Selection)
    ensures NoneNegative(ArmyOf(selected))
  {
  }

  lemma CountedArmyStays(army: Troops)
    requires NoneNegative(army)
    ensures ArmyOf(AllOf(army)) == army
  {
    assert army.Get(Spear) >= 0 && army.Get(Archer) >= 0 && army.Get(Rider) >= 0;
    var counted := ArmyOf(AllOf(army));
    assert counted.Get(Spear) == army.spear && counted.Get(Archer) == army.archer && counted.Get(Rider) == army.rider;
  }

  lemma MarchOutlivesFight(g: Game, after: Game)
    requires MarchMakesSense(g) && SameRoster(g.targets, after.targets) && after.pendingRaid == g.pendingRaid
    ensures MarchMakesSense(after)
  {
    if g.pendingRaid.Some? {
      RosterFindsAlike(g.targets, after.targets, g.pendingRaid.value.target);
    }
  }

  lemma SendKeepsSound(g: Game, id: string, selected: Selection, now: real)
    requires Sound(g)
    ensures Sound(SendRaid(g, id, selected, now).0)
    ensures SameRoster(g.targets, SendRaid(g, id, selected, now).0.targets)
  {
    hide CapacityAt, Rooted, FindTarget, Fight, Settle, ArmyOf, TargetsWithin;
    SettleKeepsSound(g, now);
    ArmyIsNotNegative(selected);
    var s := Settle(g, now);
    SettleOnlyAccrues(g, now);
    if SendRaid(g, id, selected, now).1 == Done {
      FightKeepsSound(s, FindTarget(s.targets, id).value, ArmyOf(selected));
    }
  }

  lemma StartMarchKeepsSound(g: Game, id: string, selected: Selection, now: real)
    requires Sound(g)
    ensures Sound(StartMarch(g, id, selected, now).0)
    ensures ArmyIsThere(g) ==> ArmyIsThere(StartMarch(g, id, selected, now).0)
  {
    hide CapacityAt, Rooted, FindTarget, Settle, ArmyOf, TargetsWithin, Available;
    SettleKeepsSound(g, now);
    SettleOnlyAccrues(g, now);
    ArmyIsNotNegative(selected);
    var army := ArmyOf(selected);
    assert army.Get(Spear) >= 0 && army.Get(Archer) >= 0 && army.Get(Rider) >= 0;
  }

  lemma ResolveKeepsSound(g: Game, now: real)
    requires Sound(g)
    ensures Sound(ResolveMarch(g, now).0) && SameRoster(g.targets, ResolveMarch(g, now).0.targets)
  {
    hide CapacityAt, Rooted, FindTarget, SendRaid, TargetsWithin, AllOf;
    if g.pendingRaid.Some? {
      SendKeepsSound(g.(pendingRaid := None), g.pendingRaid.value.target, AllOf(g.pendingRaid.value.army), now);
    }
  }

  /** A raid that is due succeeds exactly when its army is still among the troops; either way the march is over. */
  lemma DueMarchSucceedsIff(g: Game, now: real)
    requires Sound(g) && g.pendingRaid.Some? && now >= g.pendingRaid.value.arrivesAt
    ensures ResolveMarch(g, now).1 == Done <==> ArmyIsThere(g)
    ensures ResolveMarch(g, now).0.pendingRaid.None?
    ensures ResolveMarch(g, now).1 == Done || ResolveMarch(g, now).1 == Refused(Availability)
  {
    hide CapacityAt, Rooted, FindTarget, Settle, ArmyOf, AllOf, TargetsWithin, Available, Loot, Casualties, Attack;
    var march := g.pendingRaid.value;
    SettleOnlyAccrues(g.(pendingRaid := None), now);
    CountedArmyStays(march.army);
  }

  // ---------------------------------------------------------------- every step and every run

  lemma StepKeepsSound(g: Game, c: Command, now: real)
    requires Sound(g)
    ensures Sound(Step(g, c, now)) && SameRoster(g.targets, Step(g, c, now).targets)
  {
    hide Sound, Settle, Upgrade, StartGathering, Swap, Train, SendRaid, StartMarch, ResolveMarch;
    StepKeepsTargetsOrRaids(g, c, now);
    match c
    case SettleNow => SettleKeepsSound(g, now);
    case UpgradeBuilding(b) => UpgradeKeepsSound(g, b, now);
    case GatherFields => GatherKeepsSound(g, now);
    case SwapResources(from, to, amount) => SwapKeepsSound(g, from, to, amount, now);
    case TrainTroop(k, count) => TrainKeepsSound(g, k, count, now);
    case SendArmy(id, selected) => SendKeepsSound(g, id, selected, now);
    case StartRaid(id, selected) => StartMarchKeepsSound(g, id, selected, now);
    case ResolveRaid => ResolveKeepsSound(g, now);
  }

  /** Only a raid that is fought reaches the targets, and only troops and marches reach the army. */
  lemma StepKeepsTargetsOrRaids(g: Game, c: Command, now: real)
    ensures c.SendArmy? || c.ResolveRaid? || Step(g, c, now).targets == g.targets
    ensures !(c.SendArmy? || c.ResolveRaid? || c.StartRaid?) ==> Step(g, c, now).pendingRaid == g.pendingRaid
    ensures !(c.SendArmy? || c.ResolveRaid?) ==>
      forall k: TroopKind :: Step(g, c, now).troops.Get(k) >= g.troops.Get(k)
  {
    hide CapacityAt, FindTarget, Settle, SendRaid, ResolveMarch, BuildingCost, Demands, Meets, CanPay, Available,
      TroopRules,
      InternalValue, ArmyOf, Pay;
    SettleOnlyAccrues(g, now);
  }

  /** Without a direct raid, the army of a pending march stays among the troops. */
  lemma StepKeepsArmy(g: Game, c: Command, now: real)
    requires Sound(g) && ArmyIsThere(g) && !c.SendArmy?
    ensures ArmyIsThere(Step(g, c, now))
  {
    hide Sound, Settle, Upgrade, StartGathering, Swap, Train, SendRaid, StartMarch, Fight, FindTarget;
    StepKeepsTargetsOrRaids(g, c, now);
    if c.StartRaid? {
      StartMarchKeepsSound(g, c.id, c.selected, now);
    } else if c.ResolveRaid? && ResolveMarch(g, now).0 != g {
      DueMarchSucceedsIff(g, now);
    }
  }

  lemma {:induction false} RunKeepsSound(g: Game, run: seq<(Command, real)>)
    requires Sound(g)
    ensures Sound(Run(g, run)) && SameRoster(g.targets, Run(g, run).targets)
    ensures ArmyIsThere(g) && (forall i :: 0 <= i < |run| ==> !run[i].0.SendArmy?) ==> ArmyIsThere(Run(g, run))
  {
    hide Sound, Step, ArmyIsThere;
    if run != [] {
      var before, last := run[..|run| - 1], run[|run| - 1];
      RunKeepsSound(g, before);
      StepKeepsSound(Run(g, before), last.0, last.1);
      if ArmyIsThere(g) && forall i :: 0 <= i < |run| ==> !run[i].0.SendArmy? {
        StepKeepsArmy(Run(g, before), last.0, last.1);
      }
    }
  }

  lemma InitialGameIsSound(now: real)
    ensures Sound(InitialGame(now)) && ArmyIsThere(InitialGame(now))
  {
    CapacityGrows(1, 1);
    var g := InitialGame(now);
    assert Rooted(g.buildings);
    assert TargetsWithin(g.targets);
  }

  /**
   Whatever the player does and whatever the clock says: field stock and storage stay between 0 and the
   capacity, target stock between 0 and its first value, no troop count is negative, and every level built
   still has what it demands. As long as no raid is sent directly, a pending march can be made.
   */
  lemma EveryReachableGameIsSound(start: real, run: seq<(Command, real)>)
    ensures var g := Run(InitialGame(start), run);
      && Sound(g)
      && SameRoster(DEMO_TARGETS, g.targets)
      && ((forall i :: 0 <= i < |run| ==> !run[i].0.SendArmy?) ==> ArmyIsThere(g))
  {
    hide Sound, ArmyIsThere, Run;
    InitialGameIsSound(start);
    RunKeepsSound(InitialGame(start), run);
  }

  /** Without direct raids, every march that is due resolves. */
  lemma EveryDueMarchResolves(start: real, run: seq<(Command, real)>, now: real)
    requires forall i :: 0 <= i < |run| ==> !run[i].0.SendArmy?
    requires var g := Run(InitialGame(start), run); g.pendingRaid.Some? && now >= g.pendingRaid.value.arrivesAt
    ensures ResolveMarch(Run(InitialGame(start), run), now).1 == Done
  {
    hide Sound, ArmyIsThere, Run, ResolveMarch;
    EveryReachableGameIsSound(start, run);
    DueMarchSucceedsIff(Run(InitialGame(start), run), now);
  }
}

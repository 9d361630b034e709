/**
 What each operation of the demo engine charges, yields and costs, and when it refuses (src/game.js:60-454),
 measured against the exact curves and against the rules of the on-chain game.
 */
module EconomyRules {
  import opened Wrappers
  import opened ContractCurves
  import opened DependencySearch
  import opened DemoEconomy
  import opened EconomyInvariant
  import opened EconomyLaws
  import PlanExistence

  // ---------------------------------------------------------------- whole numbers

  lemma CeilBounds(x: real) returns (n: int)
    ensures n == Ceil(x) && n as real - 1.0 < x <= n as real
  {
    var m := FloorBounds(-x);
    n := -m;
    assert n as real == -(m as real);
  }

  /** `n` is the greatest whole number not above `x`. */
  predicate IsFloor(n: int, x: real) {
    n as real <= x < n as real + 1.0
  }

  /** `n` is the least whole number not below `x`. */
  predicate IsCeil(n: int, x: real) {
    n as real - 1.0 < x <= n as real
  }

  function Whole(n: int): real {
    n as real
  }

  /** `whole` is `x` rounded up. */
  ghost predicate RoundedUp(whole: real, x: real) {
    exists n: int :: IsCeil(n, x) && whole == Whole(n)
  }

  /** `whole` is `x` rounded down. */
  ghost predicate RoundedDown(whole: real, x: real) {
    exists n: int :: IsFloor(n, x) && whole == Whole(n)
  }

  lemma FloorRoundsDown(x: real)
    ensures RoundedDown(x.Floor as real, x)
  {
    var n := FloorBounds(x);
    assert IsFloor(n, x) && Whole(n) == x.Floor as real;
  }

  lemma CeilRoundsUp(x: real)
    ensures RoundedUp(Ceil(x) as real, x)
  {
    var n := CeilBounds(x);
    assert IsCeil(n, x) && Whole(n) == Ceil(x) as real;
  }

  lemma RoundedUpIsLeast(whole: real, x: real, bound: int)
    requires RoundedUp(whole, x) && x <= bound as real
    ensures whole <= bound as real
    ensures x == bound as real ==> whole == x
  {
    var n: int :| IsCeil(n, x) && whole == Whole(n);
    WholesCompare(n, bound);
    WholesCompare(bound, n);
  }

  // ---------------------------------------------------------------- casualties

  /** How many of one kind fall: the least whole number that is at least the rate, in percent, of those sent. */
  predicate IsShare(lost: int, sent: int, percent: int) {
    100 * (lost - 1) < percent * sent <= 100 * lost
  }

  lemma CeilOfPercent(sent: int, percent: int, x: real)
    requires x * 100.0 == percent as real * sent as real
    ensures IsShare(Ceil(x), sent, percent)
  {
    var n := CeilBounds(x);
    assert x * 100.0 == (percent * sent) as real;
    assert (100 * n) as real == 100.0 * n as real && (100 * (n - 1)) as real == 100.0 * (n as real - 1.0);
    WholesCompare(percent * sent, 100 * n);
    WholesCompare(100 * (n - 1), percent * sent);
    WholesCompare(percent * sent, 100 * (n - 1));
  }

  lemma ShareOfNone(lost: int, sent: int, percent: int)
    requires sent >= 0 && 0 < percent <= 100 && IsShare(lost, sent, percent)
    ensures 0 <= lost <= sent
  {
  }

  /** The share of an army that falls, in percent. */
  function LossPercent(attack: real, defense: real): int {
    if attack >= defense then 8 else 38
  }

  lemma CasualtiesAreShares(army: Troops, won: bool, k: TroopKind)
    requires army.Get(k) >= 0
    ensures IsShare(Casualties(army, won).Get(k), army.Get(k), if won then 8 else 38)
  {
    hide Ceil;
    var percent := if won then 8 else 38;
    var x := army.Get(k) as real * if won then 0.08 else 0.38;
    CeilOfPercent(army.Get(k), percent, x);
    ShareOfNone(Ceil(x), army.Get(k), percent);
  }

  /**
   Of each kind sent, 8 in a hundred fall if the attack reaches the defence and 38 if not, rounded up; so nobody
   falls who was not sent.
   */
  lemma RaidCosts(g: Game, i: nat, army: Troops, k: TroopKind)
    requires i < |g.targets| && army.Get(k) >= 0
    ensures var lost := g.troops.Get(k) - Fight(g, i, army).troops.Get(k);
      && IsShare(lost, army.Get(k), LossPercent(Attack(army), g.targets[i].defense))
      && 0 <= lost <= army.Get(k)
  {
    hide Casualties, Loot, Attack, CapacityAt, Ceil;
    var won := Attack(army) >= g.targets[i].defense;
    CasualtiesAreShares(army, won, k);
    ShareOfNone(Casualties(army, won).Get(k), army.Get(k), if won then 8 else 38);
  }

  /** A won raid never costs more of any kind than a lost one with the same army. */
  lemma VictoryCostsNoMore(g: Game, i: nat, h: Game, j: nat, army: Troops, k: TroopKind)
    requires i < |g.targets| && j < |h.targets| && army.Get(k) >= 0
    requires Attack(army) >= g.targets[i].defense && Attack(army) < h.targets[j].defense
    ensures g.troops.Get(k) - Fight(g, i, army).troops.Get(k) <= h.troops.Get(k) - Fight(h, j, army).troops.Get(k)
  {
    hide Fight, Attack;
    RaidCosts(g, i, army, k);
    RaidCosts(h, j, army, k);
  }

  /** One more of a kind adds that kind's attack; an empty army has none. */
  lemma AttackAddsUp(army: Troops, k: TroopKind)
    ensures Attack(Troops(0, 0, 0)) == 0.0
    ensures Attack(EachTroop(x => army.Get(x) + if x == k then 1 else 0)) == Attack(army) + TroopRules(k).0
  {
  }

  /** What is taken of `part` when `share` of it is due: the share rounded down, or all there is. */
  ghost predicate TakenWhole(taken: real, part: real, share: real) {
    exists whole :: RoundedDown(whole, share) && taken == Min(part, whole)
  }

  /** What an army that carries `carry` is due of a stock. */
  function ShareOf(stock: Stock, carry: real, r: Resource): real
    requires Sum(stock) > 0.0
  {
    stock.Get(r) / Sum(stock) * carry
  }

  lemma TakenIsWhole(part: real, total: real, carry: real, share: real)
    requires total > 0.0 && share == part / total * carry
    ensures TakenWhole(Taken(part, total, carry), part, share)
  {
    hide RoundedDown;
    FloorRoundsDown(share);
  }

  lemma LootIsWhole(stock: Stock, carry: real, r: Resource)
    requires Sum(stock) > 0.0 && carry > 0.0
    ensures TakenWhole(Loot(stock, carry).Get(r), stock.Get(r), ShareOf(stock, carry, r))
  {
    hide TakenWhole, Taken;
    TakenIsWhole(stock.Get(r), Sum(stock), carry, ShareOf(stock, carry, r));
    assert Loot(stock, carry).Get(r) == Taken(stock.Get(r), Sum(stock), carry);
  }

  /** A won raid takes of each resource its share of what the army can carry, rounded down, or all there is. */
  lemma RaidYields(g: Game, i: nat, army: Troops, r: Resource)
    requires i < |g.targets| && army.Total() > 0 && Attack(army) >= g.targets[i].defense
    requires Sum(g.targets[i].unclaimed) > 0.0
    ensures var before, after := g.targets[i].unclaimed, Fight(g, i, army).targets[i].unclaimed;
      TakenWhole(before.Get(r) - after.Get(r), before.Get(r), ShareOf(before, (army.Total() * 18) as real, r))
  {
    hide Casualties, Attack, CapacityAt, TakenWhole, Loot, Sum, ShareOf;
    var before, carry := g.targets[i].unclaimed, (army.Total() * 18) as real;
    assert Fight(g, i, army).targets[i].unclaimed == Pay(before, Loot(before, carry));
    LootIsWhole(before, carry, r);
    assert before.Get(r) - Fight(g, i, army).targets[i].unclaimed.Get(r) == Loot(before, carry).Get(r);
  }

  /** The armies it takes: six spears for the river, eight archers for the ash, eight riders for the iron. */
  lemma SmallestArmies()
    ensures Attack(Troops(5, 0, 0)) < DEMO_TARGETS[0].defense <= Attack(Troops(6, 0, 0))
    ensures Attack(Troops(0, 7, 0)) < DEMO_TARGETS[1].defense <= Attack(Troops(0, 8, 0))
    ensures Attack(Troops(0, 0, 7)) < DEMO_TARGETS[2].defense <= Attack(Troops(0, 0, 8))
  {
  }

  // ---------------------------------------------------------------- construction

  /** The price of a level on the exact curve. */
  function ExactPrice(base: real, factor: real, levels: nat): real {
    base * Pow(factor, levels)
  }

  lemma GrownIsRounded(base: real, factor: real, levels: nat)
    ensures RoundedUp(GrownPrice(base, factor, levels), ExactPrice(base, factor, levels))
  {
    hide Ceil, RoundedUp, Pow;
    var x := base * Pow(factor, levels);
    CeilRoundsUp(x);
    assert GrownPrice(base, factor, levels) == Ceil(x) as real && ExactPrice(base, factor, levels) == x;
  }

  lemma CostOf(g: Game, b: Building, r: Resource)
    ensures var level := g.buildings.Get(b);
      BuildingCost(g, b).Get(r) == if b == Workshop && r == Gold && level == 0 then 0.0
                                   else GrownPrice(BasePrice(b).0.Get(r), BasePrice(b).1, level)
  {
    hide GrownPrice, BasePrice;
    var (base, factor) := BasePrice(b);
    var cost := Each(x => GrownPrice(base.Get(x), factor, g.buildings.Get(b)));
    assert cost.Get(r) == GrownPrice(base.Get(r), factor, g.buildings.Get(b));
  }

  /** Every price is the exact curve rounded up once; only a first workshop needs no gold. */
  lemma PriceIsTheCurve(g: Game, b: Building, r: Resource)
    ensures var level := g.buildings.Get(b);
      if b == Workshop && r == Gold && level == 0 then BuildingCost(g, b).Get(r) == 0.0
      else RoundedUp(BuildingCost(g, b).Get(r), ExactPrice(BasePrice(b).0.Get(r), BasePrice(b).1, level))
  {
    hide GrownPrice, BasePrice, RoundedUp, ExactPrice, BuildingCost;
    CostOf(g, b, r);
    GrownIsRounded(BasePrice(b).0.Get(r), BasePrice(b).1, g.buildings.Get(b));
  }

  /** The place of a resource in the contract's price lists. */
  function Component(r: Resource): (i: nat)
    ensures i < 4
  {
    match r
    case Wood => 0
    case Clay => 1
    case Stone => 2
    case Gold => 3
  }

  lemma BasesAgree(b: Building, r: Resource)
    requires b != Townhall
    ensures BasePrice(b).0.Get(r) == BaseCosts(b).values[Component(r)] as real
    ensures BasePrice(b).1 == Rate(BaseCosts(b).factor)
  {
  }

  /**
   But for the townhall the demo asks what the contract asks for a first level, and never more at any level: the
   contract rounds up at every level, the demo once. Only a second workshop level costs gold here and none there.
   */
  lemma DemoIsNoDearer(g: Game, b: Building, r: Resource)
    requires b != Townhall
    ensures var level := g.buildings.Get(b);
      && (level == 0 ==> BuildingCost(g, b).Get(r) == CostComponent(b, 0, Component(r)) as real)
      && (!(b == Workshop && r == Gold && level == 1) ==>
            BuildingCost(g, b).Get(r) <= CostComponent(b, level, Component(r)) as real)
  {
    hide Ceil, BasePrice, BaseCosts, Grown, Pow, Rate, RoundedUp, BuildingCost;
    var level, c := g.buildings.Get(b), Component(r);
    var value, factor := BaseCosts(b).values[c], BaseCosts(b).factor;
    BasesAgree(b, r);
    PriceIsTheCurve(g, b, r);
    GrownDrift(value, factor, level);
    if !(b == Workshop && r == Gold && level == 0) {
      RoundedUpIsLeast(BuildingCost(g, b).Get(r), ExactPrice(value as real, Rate(factor), level),
                       Grown(value, factor, level));
      FirstLevel(value, factor);
    }
  }

  lemma FirstLevel(value: nat, factor: nat)
    ensures Grown(value, factor, 0) == value && ExactPrice(value as real, Rate(factor), 0) == value as real
  {
  }

  /** The demo demands what the contract demands, except that a first townhall needs nothing. */
  lemma DemandsAreTheContracts(b: Building, level: nat, demanded: Building, at: nat)
    requires level >= 1
    ensures (demanded, at) in Demands(b, level) <==>
      !(b == Townhall && level == 1) && PlanExistence.AtLevel(demanded, at) in PlanExistence.ContractRules(b, level)
  {
  }

  /** The stock covers a price, resource by resource. */
  predicate Covers(stock: Stock, price: Stock) {
    && stock.Get(Wood) >= price.Get(Wood) && stock.Get(Clay) >= price.Get(Clay)
    && stock.Get(Stone) >= price.Get(Stone) && stock.Get(Gold) >= price.Get(Gold)
  }

  /** Everything but stocks and field, as a settle and a payment leave it. */
  predicate ElseUntouched(before: Game, after: Game) {
    && after.targets == before.targets && after.gatherAvailableAt == before.gatherAvailableAt
    && after.pendingRaid == before.pendingRaid
  }

  /**
   An upgrade goes through exactly when every demand of the next level is built and its price is in stock; it takes
   the price and adds the level, and a refused one takes and adds nothing. Demands are looked at first.
   */
  lemma UpgradeTerms(g: Game, b: Building, now: real)
    ensures var (after, out) := Upgrade(g, b, now); var price := BuildingCost(g, b);
      var ready := forall d :: d in Demands(b, g.buildings.Get(b) + 1) ==> g.buildings.Get(d.0) >= d.1;
      && (out == Done <==> ready && Covers(g.resources, price))
      && (out == Refused(Requirements) <==> !ready)
      && (out == Refused(Unaffordable) <==> ready && !Covers(g.resources, price))
      && after.unclaimed == Settle(g, now).unclaimed && after.last == now && after.troops == g.troops
      && ElseUntouched(g, after)
      && (forall r: Resource ::
            after.resources.Get(r) == g.resources.Get(r) - if out == Done then price.Get(r) else 0.0)
      && (forall x: Building :: after.buildings.Get(x) == g.buildings.Get(x) + if out == Done && x == b then 1 else 0)
  {
    hide Demands, GrownPrice, BasePrice, CapacityAt;
    var s := Settle(g, now);
    assert BuildingCost(s, b) == BuildingCost(g, b);
    assert CanPay(g.resources, BuildingCost(g, b)) <==> Covers(g.resources, BuildingCost(g, b)) by {
      CoversIsCanPay(g.resources, BuildingCost(g, b));
    }
  }

  lemma CoversIsCanPay(stock: Stock, price: Stock)
    ensures CanPay(stock, price) <==> Covers(stock, price)
  {
    if Covers(stock, price) {
      forall r: Resource
        ensures stock.Get(r) >= price.Get(r)
      {
      }
    }
  }

  // ---------------------------------------------------------------- training

  /** How many troops a wish for `amount` trains: whole ones, and at least one. */
  predicate Trained(count: int, amount: real) {
    if amount < 1.0 then count == 1 else IsFloor(count, amount)
  }

  lemma CountIsTrained(amount: real)
    ensures Trained(if amount.Floor < 1 then 1 else amount.Floor, amount)
  {
    var n := FloorBounds(amount);
    WholesCompare(n, 0);
    WholesCompare(0, n);
    WholesCompare(1, n);
  }

  /** Training goes through exactly when its demands are built and the price of all troops is in stock. */
  lemma TrainTerms(g: Game, k: TroopKind, amount: real, now: real) returns (count: int)
    ensures Trained(count, amount)
    ensures var (after, out) := Train(g, k, amount, now); var (attack, price, demands) := TroopRules(k);
      var ready := forall d :: d in demands ==> g.buildings.Get(d.0) >= d.1;
      var affordable := forall r: Resource :: g.resources.Get(r) >= count as real * price.Get(r);
      && (out == Done <==> ready && affordable)
      && (out == Refused(Requirements) <==> !ready)
      && (out == Refused(Unaffordable) <==> ready && !affordable)
      && after.unclaimed == Settle(g, now).unclaimed && after.last == now && after.buildings == g.buildings
      && ElseUntouched(g, after)
      && (forall r: Resource ::
            after.resources.Get(r) == g.resources.Get(r) - if out == Done then count as real * price.Get(r) else 0.0)
      && (forall x: TroopKind :: after.troops.Get(x) == g.troops.Get(x) + if out == Done && x == k then count else 0)
  {
    hide CapacityAt, TroopRules, Trained;
    CountIsTrained(amount);
    count := if amount.Floor < 1 then 1 else amount.Floor;
    forall r: Resource
      ensures TroopCost(k, count).Get(r) == count as real * TroopRules(k).1.Get(r)
    {
    }
  }

  // ---------------------------------------------------------------- production and field

  /** Capacity is the exact curve from the first warehouse level on, rounded to the nearest whole number. */
  lemma CapacityIsNearest(warehouse: nat)
    ensures RoundedDown(CapacityAt(warehouse), 500.0 * Pow(1.7, if warehouse == 0 then 0 else warehouse - 1) + 0.5)
  {
    hide RoundedDown, Pow;
    FloorRoundsDown(500.0 * Pow(1.7, if warehouse == 0 then 0 else warehouse - 1) + 0.5);
  }

  /** The building that produces a resource. */
  function Producer(r: Resource): Building {
    match r
    case Wood => Timber
    case Clay => Claypit
    case Stone => Quarry
    case Gold => Goldmine
  }

  /** Each resource is produced by its own building alone, every level of it adding the same. */
  lemma ProductionIsPerLevel(g: Game, h: Game, r: Resource)
    ensures g.buildings.Get(Producer(r)) == 0 ==> Production(g).Get(r) == 0.0
    ensures h.buildings.Get(Producer(r)) == g.buildings.Get(Producer(r)) + 1 ==>
      Production(h).Get(r) == Production(g).Get(r)
        + match r { case Wood => 0.55 case Clay => 0.5 case Stone => 0.46 case Gold => 0.13 }
  {
  }

  /** What a settle makes of `stock` when `millis` have passed: no time backwards, at most eight hours, no overflow. */
  predicate SettledOver(settled: real, capacity: real, stock: real, rate: real, millis: real) {
    && (millis <= 0.0 ==> settled == Min(capacity, stock))
    && (0.0 <= millis <= 28_800_000.0 ==>
          1_000.0 * settled == Min(1_000.0 * capacity, 1_000.0 * stock + rate * millis))
    && (millis >= 28_800_000.0 ==> settled == Min(capacity, stock + rate * 28_800.0))
  }

  /** A settle counts the seconds since the last one, none backwards and at most eight hours, and cuts at capacity. */
  lemma SettleCountsSeconds(g: Game, now: real, r: Resource)
    ensures SettledOver(Settle(g, now).unclaimed.Get(r), Capacity(g), g.unclaimed.Get(r), Production(g).Get(r),
                        now - g.last)
    ensures Settle(g, now).resources == g.resources
  {
    hide Capacity, Production, Accrued, Elapsed, SettledOver;
    assert Settle(g, now).unclaimed.Get(r) ==
      Accrued(Capacity(g), g.unclaimed.Get(r), Production(g).Get(r), Elapsed(g, now));
    ElapsedSeconds(g, now);
    AccruedOver(Capacity(g), g.unclaimed.Get(r), Production(g).Get(r), Elapsed(g, now), now - g.last);
  }

  lemma ElapsedSeconds(g: Game, now: real)
    ensures now <= g.last ==> Elapsed(g, now) == 0.0
    ensures 0.0 <= now - g.last <= 28_800_000.0 ==> 1_000.0 * Elapsed(g, now) == now - g.last
    ensures now - g.last >= 28_800_000.0 ==> Elapsed(g, now) == 28_800.0
  {
  }

  lemma AccruedOver(capacity: real, stock: real, rate: real, elapsed: real, millis: real)
    requires millis <= 0.0 ==> elapsed == 0.0
    requires 0.0 <= millis <= 28_800_000.0 ==> 1_000.0 * elapsed == millis
    requires millis >= 28_800_000.0 ==> elapsed == 28_800.0
    ensures SettledOver(Accrued(capacity, stock, rate, elapsed), capacity, stock, rate, millis)
  {
    if 1_000.0 * elapsed == millis {
      assert rate * millis == 1_000.0 * (rate * elapsed);
    }
  }

  // ---------------------------------------------------------------- swaps

  /** What the internal values come to: 110 wood, 100 clay and 88 stone are worth the same. */
  lemma SwapParities()
    ensures 110.0 * InternalValue(Wood) == 100.0 * InternalValue(Clay) == 88.0 * InternalValue(Stone)
    ensures InternalValue(Gold) == 0.0 < InternalValue(Wood)
  {
  }

  /** Two different resources, neither of them gold, and at least one of the first. */
  predicate Tradable(from: Resource, to: Resource, amount: real) {
    from != Gold && to != Gold && from != to && amount >= 1.0
  }

  /** What `given` of one resource exchanges for in another, before rounding. */
  function Worth(given: real, from: Resource, to: Resource): real
    requires to != Gold
  {
    given * InternalValue(from) / InternalValue(to)
  }

  /** `received` for `given`: its worth rounded down, or what fits into the room left. */
  ghost predicate FairlyExchanged(given: real, received: real, from: Resource, to: Resource, room: real)
    requires to != Gold
  {
    exists whole :: RoundedDown(whole, Worth(given, from, to)) && received == Min(whole, room)
  }

  lemma ExchangeIsFair(given: real, from: Resource, to: Resource, room: real)
    requires to != Gold
    ensures FairlyExchanged(given, Min(Exchanged(given, from, to), room), from, to, room)
  {
    hide RoundedDown, InternalValue;
    FloorRoundsDown(Worth(given, from, to));
  }

  lemma GivenIsWhole(amount: real) returns (given: real)
    ensures given == Max(0.0, amount.Floor as real)
    ensures amount >= 1.0 ==> RoundedDown(given, amount) && given >= 1.0
    ensures amount < 1.0 ==> given == 0.0
  {
    given := Max(0.0, amount.Floor as real);
    var n := FloorBounds(amount);
    WholesCompare(n, 0);
    WholesCompare(1, n);
    assert amount >= 1.0 ==> IsFloor(n, amount) && Whole(n) == given;
  }

  /**
   A swap takes the amount rounded down and gives its worth rounded down, as far as there is room; it is refused
   for the market, for want of stock, or because nothing would be received, in this order.
   */
  lemma SwapTerms(g: Game, from: Resource, to: Resource, amount: real, now: real) returns (given: real, received: real)
    ensures Tradable(from, to, amount) ==>
      RoundedDown(given, amount)
      && FairlyExchanged(given, received, from, to, Max(0.0, Capacity(g) - g.resources.Get(to)))
    ensures var (after, out) := Swap(g, from, to, amount, now); var tradable := Tradable(from, to, amount);
      && (out == Refused(Market) <==> !tradable)
      && (out == Refused(Unaffordable) <==> tradable && g.resources.Get(from) < given)
      && (out == Refused(Full) <==> tradable && g.resources.Get(from) >= given && received == 0.0)
      && (out == Done <==> tradable && g.resources.Get(from) >= given && received != 0.0)
      && (out == Done ==> forall r: Resource ::
            after.resources.Get(r) == if r == from then g.resources.Get(r) - given
                                      else if r == to then g.resources.Get(r) + received else g.resources.Get(r))
      && (out != Done ==> after == Settle(g, now))
      && after.(resources := g.resources) == Settle(g, now)
  {
    hide Capacity, Exchanged, RoundedDown, InternalValue, Production;
    given := GivenIsWhole(amount);
    received := 0.0;
    SameCapacity(g, now);
    if Tradable(from, to, amount) {
      var room := Max(0.0, Capacity(g) - g.resources.Get(to));
      received := Min(Exchanged(given, from, to), room);
      ExchangeIsFair(given, from, to, room);
    }
  }

  /** As much moves as is there and there is room for. */
  predicate MovesWhatFits(moved: real, there: real, room: real) {
    moved <= there && moved <= room && (moved == there || moved == room)
  }

  /**
   A collection takes place exactly when the cooldown is over, and then moves what lies in the field into the
   stock, as far as there is room, and touches nothing else.
   */
  lemma CollectionTerms(g: Game, now: real)
    ensures var (after, out) := StartGathering(g, now); var s := Settle(g, now);
      && (out == Refused(Cooldown) <==> now < g.gatherAvailableAt)
      && (out == Done <==> g.gatherAvailableAt <= now)
      && (out != Done ==> after == g)
      && (out == Done ==> forall r: Resource ::
            var moved := after.resources.Get(r) - g.resources.Get(r);
            && MovesWhatFits(moved, s.unclaimed.Get(r), Max(0.0, Capacity(g) - g.resources.Get(r)))
            && after.unclaimed.Get(r) == s.unclaimed.Get(r) - moved)
      && (out == Done ==>
            after.(resources := s.resources, unclaimed := s.unclaimed, gatherAvailableAt := s.gatherAvailableAt) == s)
  {
    hide Capacity, Production, Accrued;
    SameCapacity(g, now);
  }

  /** For a minute from a collection, whatever else is done, there is no other; then there can be one again. */
  lemma CollectionsAreApart(g: Game, now: real, run: seq<(Command, real)>, later: real)
    requires g.gatherAvailableAt <= now
    requires forall i :: 0 <= i < |run| ==> run[i].1 < now + 60_000.0
    ensures var after := StartGathering(g, now).0;
      && (forall i :: 0 <= i < |run| ==>
            StartGathering(Run(after, run[..i]), run[i].1) == (Run(after, run[..i]), Refused(Cooldown)))
      && (StartGathering(Run(after, run), later).1 == Done <==> later >= now + 60_000.0)
  {
    hide Gather, Step, Run;
    var after := StartGathering(g, now).0;
    assert after.gatherAvailableAt == now + 60_000.0;
    CooldownHolds(after, run);
  }

  lemma SameCapacity(g: Game, now: real)
    ensures Settle(g, now).resources == g.resources && Capacity(Settle(g, now)) == Capacity(g)
  {
    hide CapacityAt, Production;
  }

  // ---------------------------------------------------------------- raids and marches

  /** The troops a wish to send comes to: whole ones, none for a negative number. */
  predicate Counted(count: int, wish: real) {
    if wish < 0.0 then count == 0 else IsFloor(count, wish)
  }

  lemma ArmyIsCounted(selected: Selection, k: TroopKind)
    ensures Counted(ArmyOf(selected).Get(k), selected.Get(k))
  {
    var n := FloorBounds(selected.Get(k));
    WholesCompare(n, 0);
    WholesCompare(-1, n);
    WholesCompare(0, n);
  }

  /** Some target of the list has this id. */
  predicate Listed(targets: seq<Target>, id: string) {
    exists i :: 0 <= i < |targets| && targets[i].id == id
  }

  /** At home are as many of each kind as are sent. */
  predicate AtHome(g: Game, army: Troops) {
    army.spear <= g.troops.spear && army.archer <= g.troops.archer && army.rider <= g.troops.rider
  }

  lemma AtHomeIsAvailable(g: Game, army: Troops)
    ensures Available(army, g.troops) <==> AtHome(g, army)
  {
    assert Available(army, g.troops) ==>
      army.Get(Spear) <= g.troops.Get(Spear) && army.Get(Archer) <= g.troops.Get(Archer)
      && army.Get(Rider) <= g.troops.Get(Rider);
  }

  /** A raid is fought exactly when its target is listed, somebody is sent, and all who are sent are at home. */
  lemma RaidRefusals(g: Game, id: string, selected: Selection, now: real)
    ensures var (after, out) := SendRaid(g, id, selected, now); var army := ArmyOf(selected);
      var sent := Listed(g.targets, id) && army.Total() != 0;
      && (out == Done <==> sent && AtHome(g, army))
      && (out == Refused(Army) <==> !sent)
      && (out == Refused(Availability) <==> sent && !AtHome(g, army))
      && (out != Done ==> after == Settle(g, now))
      && (out == Done ==> exists i :: 0 <= i < |g.targets| && g.targets[i].id == id && (forall j :: 0 <= j < i ==>
            g.targets[j].id != id) && after == Fight(Settle(g, now), i, army))
  {
    hide ArmyOf, Fight, Production, CapacityAt;
    AtHomeIsAvailable(Settle(g, now), ArmyOf(selected));
    AtHomeIsAvailable(g, ArmyOf(selected));
  }

  /**
   A march starts exactly when none is under way and the raid could be fought now; it arrives a minute later, and
   once it has arrived resolving it is the raid with the army that was sent.
   */
  lemma MarchIsTheRaid(g: Game, id: string, selected: Selection, now: real, later: real)
    ensures var (after, out) := StartMarch(g, id, selected, now); var army := ArmyOf(selected);
      && (out == Refused(Marching) <==> g.pendingRaid.Some?)
      && (out == Done <==> g.pendingRaid.None? && SendRaid(g, id, selected, now).1 == Done)
      && (g.pendingRaid.None? && out != Done ==> out == SendRaid(g, id, selected, now).1)
      && after.(pendingRaid := g.pendingRaid) == Settle(g, now)
      && (out != Done ==> after == Settle(g, now))
      && (out == Done ==>
            && (later < now + 60_000.0 ==> ResolveMarch(after, later) == (after, Refused(Marching)))
            && (later >= now + 60_000.0 ==>
                  ResolveMarch(after, later) == SendRaid(Settle(g, now), id, selected, later)))
  {
    hide Fight, Production, CapacityAt, FindTarget, ArmyOf, AllOf;
    ArmyIsNotNegative(selected);
    CountedArmyStays(ArmyOf(selected));
    SettleOnlyAccrues(g, now);
  }
}

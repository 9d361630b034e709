/**
 Laws of the demo engine's operations (src/game.js:233-454): when settling is path independent, what a
 collection, a swap and a raid conserve, and how a direct raid can strand a march.
 */
module EconomyLaws {
  import opened Wrappers
  import opened ContractCurves
  import opened DemoEconomy
  import opened EconomyInvariant

  // ---------------------------------------------------------------- settling

  function SettleAll(g: Game, times: seq<real>): Game {
    if times == [] then g else Settle(SettleAll(g, times[..|times| - 1]), times[|times| - 1])
  }

  /** A clock that never goes back. */
  predicate Forward(start: real, times: seq<real>) {
    && (forall i :: 0 <= i < |times| ==> start <= times[i])
    && (forall i, j :: 0 <= i < j < |times| ==> times[i] <= times[j])
  }

  lemma StocksAgree(a: Stock, b: Stock)
    requires forall r: Resource :: a.Get(r) == b.Get(r)
    ensures a == b
  {
    assert a.Get(Wood) == b.Get(Wood) && a.Get(Clay) == b.Get(Clay);
    assert a.Get(Stone) == b.Get(Stone) && a.Get(Gold) == b.Get(Gold);
  }

  lemma AccruedTwice(capacity: real, stock: real, rate: real, e1: real, e2: real)
    requires rate >= 0.0 && e1 >= 0.0 && e2 >= 0.0
    ensures Accrued(capacity, Accrued(capacity, stock, rate, e1), rate, e2) == Accrued(capacity, stock, rate, e1 + e2)
  {
    ProductNotNegative(rate, e2);
    assert rate * (e1 + e2) == rate * e1 + rate * e2;
  }

  lemma AccruedRises(capacity: real, low: real, high: real, rate: real, e1: real, e2: real)
    requires rate >= 0.0 && 0.0 <= e1 <= e2 && low <= high
    ensures Accrued(capacity, low, rate, e1) <= Accrued(capacity, high, rate, e2)
  {
    ProductNotNegative(rate, e2 - e1);
    assert rate * e2 == rate * e1 + rate * (e2 - e1);
  }

  /** More time changes nothing exactly when nothing is produced or the capacity is reached already. */
  lemma AccruedSettledIff(capacity: real, stock: real, rate: real, e1: real, e2: real)
    requires rate >= 0.0 && 0.0 <= e1 < e2
    ensures Accrued(capacity, stock, rate, e1) == Accrued(capacity, stock, rate, e2)
      <==> rate == 0.0 || Accrued(capacity, stock, rate, e1) == capacity
  {
    assert rate * e2 == rate * e1 + rate * (e2 - e1);
    if rate > 0.0 {
      assert rate * (e2 - e1) > 0.0;
    }
  }

  /** By `now` this resource, if it is produced at all, has filled the field up to the capacity. */
  predicate FullOf(g: Game, now: real, r: Resource) {
    Production(g).Get(r) == 0.0 || g.unclaimed.Get(r) + Production(g).Get(r) * Elapsed(g, now) >= Capacity(g)
  }

  predicate FullBy(g: Game, now: real) {
    forall r: Resource :: FullOf(g, now, r)
  }

  /** The field after one settle through `t` and on to `now`, resource by resource. */
  lemma SettleTwice(g: Game, t: real, now: real, r: Resource)
    requires g.last <= t <= now
    ensures Settle(Settle(g, t), now).unclaimed.Get(r)
      == Accrued(Capacity(g), g.unclaimed.Get(r), Production(g).Get(r), Elapsed(g, t) + Elapsed(Settle(g, t), now))
  {
    AccruedTwice(Capacity(g), g.unclaimed.Get(r), Production(g).Get(r), Elapsed(g, t), Elapsed(Settle(g, t), now));
  }

  const LONGEST_SPAN_MS: real := 1000.0 * MAX_SETTLED_SECONDS

  /** Splitting a span loses no time and wins none exactly when it is not split at all or lasts eight hours at most. */
  lemma SplitSpans(g: Game, t: real, now: real)
    requires g.last <= t <= now
    ensures 0.0 <= Elapsed(g, now) <= Elapsed(g, t) + Elapsed(Settle(g, t), now)
    ensures Elapsed(g, now) == Elapsed(g, t) + Elapsed(Settle(g, t), now)
      <==> now - g.last <= LONGEST_SPAN_MS || t == g.last || t == now
  {
  }

  /** One resource gains nothing by the settle in between exactly when no time is cut off or the field is full of it. */
  lemma DetourOfOne(g: Game, t: real, now: real, r: Resource)
    requires g.last <= t <= now
    ensures Settle(g, now).unclaimed.Get(r) == Settle(Settle(g, t), now).unclaimed.Get(r) <==>
      Elapsed(g, now) == Elapsed(g, t) + Elapsed(Settle(g, t), now) || FullOf(g, now, r)
  {
    hide Accrued, Capacity, Elapsed, Production;
    var short, long := Elapsed(g, now), Elapsed(g, t) + Elapsed(Settle(g, t), now);
    SplitSpans(g, t, now);
    SettleTwice(g, t, now, r);
    ProducesSomething(g, r);
    if short != long {
      AccruedSettledIff(Capacity(g), g.unclaimed.Get(r), Production(g).Get(r), short, long);
      AccruedIsFull(Capacity(g), g.unclaimed.Get(r), Production(g).Get(r), short);
    }
  }

  /** Two settled states of one time differ in the field only. */
  lemma SettledStatesAgree(g: Game, t: real, now: real)
    requires forall r: Resource :: Settle(g, now).unclaimed.Get(r) == Settle(Settle(g, t), now).unclaimed.Get(r)
    ensures Settle(Settle(g, t), now) == Settle(g, now)
  {
    hide Settle;
    SettleOnlyAccrues(g, t);
    SettleOnlyAccrues(g, now);
    SettleOnlyAccrues(Settle(g, t), now);
    StocksAgree(Settle(g, now).unclaimed, Settle(Settle(g, t), now).unclaimed);
  }

  /**
   A settle in between changes nothing exactly when the whole span is no longer than eight hours, or the
   settle comes at one of its ends, or by then the field could take no more anyway.
   */
  lemma DetourIsHarmlessIff(g: Game, t: real, now: real)
    requires g.last <= t <= now
    ensures Settle(Settle(g, t), now) == Settle(g, now)
      <==> now - g.last <= LONGEST_SPAN_MS || t == g.last || t == now || FullBy(g, now)
  {
    hide Settle, Elapsed, FullOf;
    SplitSpans(g, t, now);
    forall r: Resource
      ensures Settle(g, now).unclaimed.Get(r) == Settle(Settle(g, t), now).unclaimed.Get(r) <==>
        Elapsed(g, now) == Elapsed(g, t) + Elapsed(Settle(g, t), now) || FullOf(g, now, r)
    {
      DetourOfOne(g, t, now, r);
    }
    if forall r: Resource :: Settle(g, now).unclaimed.Get(r) == Settle(Settle(g, t), now).unclaimed.Get(r) {
      SettledStatesAgree(g, t, now);
    }
  }

  lemma ProducesSomething(g: Game, r: Resource)
    ensures Production(g).Get(r) >= 0.0
  {
  }

  lemma AccruedIsFull(capacity: real, stock: real, rate: real, elapsed: real)
    ensures Accrued(capacity, stock, rate, elapsed) == capacity <==> stock + rate * elapsed >= capacity
  {
  }

  /** A new game with eight more warehouse levels, left alone for two stretches of eight hours. */
  const ROOMY_GAME := InitialGame(0.0).(buildings := Levels(1, 1, 1, 1, 9, 0, 0, 0))

  lemma RoomyCapacity()
    ensures Capacity(ROOMY_GAME) > 15840.0
  {
    hide Round;
    assert Pow(1.7, 2) == 2.89;
    assert Pow(1.7, 4) == 8.3521;
    assert Pow(1.7, 6) == 24.137569;
    PowGrows(1.7, 6, 8);
    assert Pow(1.7, 8) == 2.89 * Pow(1.7, 6);
    RoundKeepsWhole(30_000);
    RoundKeepsOrder(30_000.0, 500.0 * Pow(1.7, 8));
  }

  /** There one settle half way wins wood that a single settle at the end does not give. */
  lemma DetourMayGain()
    ensures var g := ROOMY_GAME; var t, now := LONGEST_SPAN_MS, 2.0 * LONGEST_SPAN_MS;
      && Settle(g, now).unclaimed.wood < Settle(Settle(g, t), now).unclaimed.wood
      && Settle(Settle(g, t), now) != Settle(g, now)
  {
    hide Capacity;
    RoomyCapacity();
    var g, t, now := ROOMY_GAME, LONGEST_SPAN_MS, 2.0 * LONGEST_SPAN_MS;
    assert Elapsed(g, now) == 28_800.0 && Elapsed(g, t) == 28_800.0 && Elapsed(Settle(g, t), now) == 28_800.0;
    SettleTwice(g, t, now, Wood);
    assert Settle(g, now).unclaimed.Get(Wood) == Accrued(Capacity(g), 0.0, 0.55, 28_800.0);
    assert Settle(Settle(g, t), now).unclaimed.Get(Wood) == Accrued(Capacity(g), 0.0, 0.55, 57_600.0);
  }

  /** Any number of settles within eight hours leaves what one settle at the end leaves. */
  lemma {:induction false} SettlingIsPathIndependent(g: Game, times: seq<real>)
    requires times != [] && Forward(g.last, times)
    requires times[|times| - 1] - g.last <= LONGEST_SPAN_MS
    ensures SettleAll(g, times) == Settle(g, times[|times| - 1])
  {
    hide Settle;
    var before, now := times[..|times| - 1], times[|times| - 1];
    if before != [] {
      var t := before[|before| - 1];
      assert t == times[|times| - 2];
      SettlingIsPathIndependent(g, before);
      DetourIsHarmlessIff(g, t, now);
    }
  }

  /** One more settle keeps a field that is ahead of the single settle ahead of it. */
  lemma StaysAhead(g: Game, often: Game, t: real, now: real, r: Resource)
    requires g.last <= t <= now && often == Settle(g, t).(unclaimed := often.unclaimed)
    requires Settle(g, t).unclaimed.Get(r) <= often.unclaimed.Get(r)
    ensures Settle(g, now).unclaimed.Get(r) <= Settle(often, now).unclaimed.Get(r)
  {
    hide Accrued, CapacityAt;
    SettleTwice(g, t, now, r);
    AccruedRises(Capacity(g), g.unclaimed.Get(r), g.unclaimed.Get(r), Production(g).Get(r), Elapsed(g, now),
      Elapsed(g, t) + Elapsed(Settle(g, t), now));
    AccruedRises(Capacity(g), Settle(g, t).unclaimed.Get(r), often.unclaimed.Get(r), Production(g).Get(r),
      Elapsed(often, now), Elapsed(often, now));
  }

  /** Over any span, settling more often never leaves less in the field, and changes nothing else. */
  lemma {:induction false} SettlingOftenNeverLoses(g: Game, times: seq<real>)
    requires times != [] && Forward(g.last, times)
    ensures var once, often := Settle(g, times[|times| - 1]), SettleAll(g, times);
      && (forall r: Resource :: once.unclaimed.Get(r) <= often.unclaimed.Get(r))
      && often == once.(unclaimed := often.unclaimed)
  {
    hide Settle;
    var before, now := times[..|times| - 1], times[|times| - 1];
    SettleOnlyAccrues(g, now);
    if before != [] {
      var t := before[|before| - 1];
      assert t == times[|times| - 2];
      SettlingOftenNeverLoses(g, before);
      var often := SettleAll(g, before);
      SettleOnlyAccrues(g, t);
      SettleOnlyAccrues(often, now);
      forall r: Resource
        ensures Settle(g, now).unclaimed.Get(r) <= SettleAll(g, times).unclaimed.Get(r)
      {
        StaysAhead(g, often, t, now, r);
      }
    }
  }

  // ---------------------------------------------------------------- collection

  /** Collecting moves stock from the field to the storage: nothing appears, and nothing that fits stays behind. */
  lemma GatherConserves(g: Game, now: real, r: Resource)
    ensures var s, after := Settle(g, now), Gather(g, now);
      && after.resources.Get(r) + after.unclaimed.Get(r) == g.resources.Get(r) + s.unclaimed.Get(r)
      && (Sound(g) ==> after.unclaimed.Get(r) == 0.0 || after.resources.Get(r) == Capacity(g))
  {
    hide Accrued, CapacityAt, Rooted, TargetsWithin, MarchMakesSense, NoneNegative;
    if Sound(g) {
      SettleKeepsSound(g, now);
    }
  }

  /** Until the cooldown is over no collection takes place, whatever else is done. */
  lemma {:induction false} CooldownHolds(g: Game, run: seq<(Command, real)>)
    requires forall i :: 0 <= i < |run| ==> run[i].1 < g.gatherAvailableAt
    ensures Run(g, run).gatherAvailableAt == g.gatherAvailableAt
    ensures forall i :: 0 <= i < |run| ==>
      StartGathering(Run(g, run[..i]), run[i].1) == (Run(g, run[..i]), Refused(Cooldown))
  {
    hide Step;
    if run != [] {
      var before, last := run[..|run| - 1], run[|run| - 1];
      CooldownHolds(g, before);
      StepKeepsCooldown(Run(g, before), last.0, last.1);
      assert forall i :: 0 <= i < |before| ==> before[..i] == run[..i];
    }
  }

  lemma StepKeepsCooldown(g: Game, c: Command, now: real)
    requires now < g.gatherAvailableAt
    ensures Step(g, c, now).gatherAvailableAt == g.gatherAvailableAt
  {
    hide CapacityAt, FindTarget, Accrued, BuildingCost, Demands, Meets, CanPay, Available, TroopCost, TroopRules,
      ArmyOf, Pay,
      Loot, Casualties, Attack;
  }

  // ---------------------------------------------------------------- swaps

  /** Wood, clay and stone at their internal values. */
  function Value(s: Stock): real {
    s.wood + 1.1 * s.clay + 1.25 * s.stone
  }

  lemma OutputIsCovered(given: real, vFrom: real, vTo: real, received: real)
    requires vTo > 0.0 && received <= (given * vFrom / vTo).Floor as real
    ensures received * vTo <= given * vFrom
  {
    var quotient := given * vFrom / vTo;
    assert quotient * vTo == given * vFrom;
    assert received <= quotient;
    ProductNotNegative(quotient - received, vTo);
    assert (quotient - received) * vTo == quotient * vTo - received * vTo;
  }

  /** A swap never raises the value of wood, clay and stone together, nor touches gold; a refused one keeps all. */
  lemma SwapNeverGains(g: Game, from: Resource, to: Resource, amount: real, now: real)
    ensures var (after, outcome) := Swap(g, from, to, amount, now);
      && Value(after.resources) <= Value(g.resources)
      && after.resources.gold == g.resources.gold
      && (outcome != Done ==> after == Settle(g, now))
      && (outcome == Done ==> after.resources.Get(from) < g.resources.Get(from) && after.resources.Get(from) >= 0.0)
  {
    hide Settle, CapacityAt;
    SettleOnlyAccrues(g, now);
    var (after, outcome) := Swap(g, from, to, amount, now);
    if outcome == Done {
      var given, received := Max(0.0, amount.Floor as real), after.resources.Get(to) - g.resources.Get(to);
      OutputIsCovered(given, InternalValue(from), InternalValue(to), received);
      SwappedValue(g.resources, from, to, given, received);
    }
  }

  lemma SwappedValue(s: Stock, from: Resource, to: Resource, given: real, received: real)
    requires from != to && from != Gold && to != Gold
    ensures var paid := With(s, from, s.Get(from) - given);
      Value(With(paid, to, paid.Get(to) + received))
      == Value(s) - given * InternalValue(from) + received * InternalValue(to)
  {
  }

  /** Over any series of swaps, at any times, the value of wood, clay and stone never rises. */
  lemma {:induction false} SwapsNeverGain(g: Game, run: seq<(Command, real)>)
    requires forall i :: 0 <= i < |run| ==> run[i].0.SwapResources?
    ensures Value(Run(g, run).resources) <= Value(g.resources)
  {
    hide Value, Swap;
    if run != [] {
      var before, last := run[..|run| - 1], run[|run| - 1];
      SwapsNeverGain(g, before);
      SwapNeverGains(Run(g, before), last.0.from, last.0.to, last.0.amount, last.1);
    }
  }

  // ---------------------------------------------------------------- raids

  function Sum(s: Stock): real {
    s.wood + s.clay + s.stone + s.gold
  }

  lemma TakenIsAShare(part: real, total: real, carry: real)
    requires total > 0.0
    ensures Taken(part, total, carry) * total <= part * carry
  {
    var share := part / total * carry;
    assert part / total * total == part;
    assert share * total == part / total * total * carry;
    var taken := Taken(part, total, carry);
    assert taken <= share;
    ProductNotNegative(share - taken, total);
    assert (share - taken) * total == share * total - taken * total;
  }

  lemma DivideOut(a: real, b: real, total: real)
    requires total > 0.0
    ensures a > b ==> a * total > total * b
  {
    if a > b {
      assert (a - b) * total > 0.0;
      assert (a - b) * total == a * total - total * b;
    }
  }

  /** All loot together never exceeds what the army can carry. */
  lemma LootFitsTheArmy(stock: Stock, carry: real)
    requires (forall r: Resource :: stock.Get(r) >= 0.0) && carry >= 0.0
    ensures Sum(Loot(stock, carry)) <= carry
  {
    hide Taken;
    var total, loot := Sum(stock), Loot(stock, carry);
    assert stock.Get(Wood) >= 0.0 && stock.Get(Clay) >= 0.0 && stock.Get(Stone) >= 0.0 && stock.Get(Gold) >= 0.0;
    if total > 0.0 && carry != 0.0 {
      forall r: Resource
        ensures loot.Get(r) * total <= stock.Get(r) * carry
      {
        TakenIsAShare(stock.Get(r), total, carry);
      }
      AddShares(loot, stock, total, carry);
      DivideOut(Sum(loot), carry, total);
    }
  }

  lemma AddShares(loot: Stock, stock: Stock, total: real, carry: real)
    requires total == Sum(stock)
    requires forall r: Resource :: loot.Get(r) * total <= stock.Get(r) * carry
    ensures Sum(loot) * total <= total * carry
  {
    assert loot.Get(Wood) * total <= stock.Get(Wood) * carry && loot.Get(Clay) * total <= stock.Get(Clay) * carry;
    assert loot.Get(Stone) * total <= stock.Get(Stone) * carry && loot.Get(Gold) * total <= stock.Get(Gold) * carry;
    assert Sum(loot) * total == loot.wood * total + loot.clay * total + loot.stone * total + loot.gold * total;
    assert total * carry == stock.wood * carry + stock.clay * carry + stock.stone * carry + stock.gold * carry;
  }

  /** What a raid takes is there, fits the army, and is nothing after a defeat. */
  lemma StolenIsThere(g: Game, i: nat, army: Troops)
    requires TargetsWithin(g.targets) && i < |g.targets| && NoneNegative(army)
    ensures Between(Stolen(g, i, army), NO_STOCK, g.targets[i].unclaimed)
    ensures Sum(Stolen(g, i, army)) <= (army.Total() * 18) as real
    ensures Attack(army) < g.targets[i].defense ==> Stolen(g, i, army) == NO_STOCK
  {
    hide Loot, Attack;
    var before := g.targets[i].unclaimed;
    assert army.Get(Spear) >= 0 && army.Get(Archer) >= 0 && army.Get(Rider) >= 0;
    assert Between(before, NO_STOCK, g.targets[i].initial);
    forall r: Resource
      ensures before.Get(r) >= 0.0
    {
      assert NO_STOCK.Get(r) == 0.0;
    }
    LootIsThere(before, (army.Total() * 18) as real);
    LootFitsTheArmy(before, (army.Total() * 18) as real);
  }

  /**
   A raid moves stock from the target to the storage: the storage gains what the target loses, unless it is
   full, a lost raid moves nothing, and what is moved never exceeds 18 for each of the army's troops. Nobody
   but the army can fall.
   */
  lemma RaidConserves(g: Game, i: nat, army: Troops)
    requires Sound(g) && i < |g.targets|
    requires NoneNegative(army) && Available(army, g.troops)
    ensures var after, before := Fight(g, i, army), g.targets[i].unclaimed;
      var taken := Each(r => before.Get(r) - after.targets[i].unclaimed.Get(r));
      && (forall r: Resource ::
            0.0 <= taken.Get(r) && after.resources.Get(r) == Min(Capacity(g), g.resources.Get(r) + taken.Get(r)))
      && Sum(taken) <= (army.Total() * 18) as real
      && (Attack(army) < g.targets[i].defense ==> taken == NO_STOCK && after.resources == g.resources)
      && (forall j :: 0 <= j < |g.targets| && j != i ==> after.targets[j] == g.targets[j])
      && (forall k: TroopKind :: g.troops.Get(k) - army.Get(k) <= after.troops.Get(k) <= g.troops.Get(k))
  {
    hide CapacityAt, Rooted, MarchMakesSense, TargetsWithin, Loot, Casualties, Attack, FindTarget, Sum;
    var after, before, stolen := Fight(g, i, army), g.targets[i].unclaimed, Stolen(g, i, army);
    var taken := Each(r => before.Get(r) - after.targets[i].unclaimed.Get(r));
    CasualtiesAreOfTheArmy(army, Attack(army) >= g.targets[i].defense);
    StolenIsThere(g, i, army);
    forall r: Resource
      ensures taken.Get(r) == stolen.Get(r) && 0.0 <= taken.Get(r)
    {
      assert NO_STOCK.Get(r) == 0.0;
    }
    StocksAgree(taken, stolen);
    if Attack(army) < g.targets[i].defense {
      StocksAgree(after.resources, g.resources);
    }
  }

  // ---------------------------------------------------------------- a stranded march

  const LONE_SPEAR := Troops(1, 0, 0)
  const LONE_CHOICE := Selection(1.0, 0.0, 0.0)

  lemma LoneSpearIsChosen()
    ensures ArmyOf(LONE_CHOICE) == LONE_SPEAR
  {
    var army := ArmyOf(LONE_CHOICE);
    assert army.Get(Spear) == 1 && army.Get(Archer) == 0 && army.Get(Rider) == 0;
  }

  lemma LoneSpearFalls()
    ensures Attack(LONE_SPEAR) < DEMO_TARGETS[0].defense && Casualties(LONE_SPEAR, false).Get(Spear) == 1
  {
  }

  lemma LoneSpearMarches(g: Game)
    requires g.targets == DEMO_TARGETS && g.troops == LONE_SPEAR && g.pendingRaid.None?
    ensures StartMarch(g, "river", LONE_CHOICE, 0.0).0
      == Settle(g, 0.0).(pendingRaid := Some(March("river", LONE_SPEAR, MARCH_DURATION_MS)))
  {
    hide Settle, ArmyOf;
    LoneSpearIsChosen();
    SettleOnlyAccrues(g, 0.0);
    assert FindTarget(DEMO_TARGETS, "river") == Some(0);
  }

  lemma LoneSpearRaids(g: Game)
    requires g.targets == DEMO_TARGETS && g.troops == LONE_SPEAR
    ensures var after := SendRaid(g, "river", LONE_CHOICE, 0.0).0;
      after.troops.Get(Spear) == 0 && after.pendingRaid == g.pendingRaid
  {
    hide Settle, ArmyOf, Attack, Casualties, Loot, CapacityAt;
    LoneSpearIsChosen();
    LoneSpearFalls();
    SettleOnlyAccrues(g, 0.0);
    assert FindTarget(DEMO_TARGETS, "river") == Some(0);
  }

  /** A direct raid can spend the army of a pending march: when that is due, it is refused and gone. */
  lemma DirectRaidStrandsMarch() returns (g: Game, now: real)
    ensures var start := InitialGame(0.0).(troops := LONE_SPEAR);
      g == Step(Step(start, StartRaid("river", LONE_CHOICE), 0.0), SendArmy("river", LONE_CHOICE), 0.0)
    ensures Sound(g) && g.pendingRaid.Some? && now >= g.pendingRaid.value.arrivesAt
    ensures ResolveMarch(g, now).1 == Refused(Availability) && ResolveMarch(g, now).0.pendingRaid.None?
  {
    hide Sound, Settle, StartMarch, SendRaid, ResolveMarch;
    var start := InitialGame(0.0).(troops := LONE_SPEAR);
    var marching := Step(start, StartRaid("river", LONE_CHOICE), 0.0);
    g, now := Step(marching, SendArmy("river", LONE_CHOICE), 0.0), MARCH_DURATION_MS;
    StartIsSound(start);
    StepKeepsSound(start, StartRaid("river", LONE_CHOICE), 0.0);
    StepKeepsSound(marching, SendArmy("river", LONE_CHOICE), 0.0);
    LoneSpearMarches(start);
    SettleOnlyAccrues(start, 0.0);
    LoneSpearRaids(marching);
    assert LONE_SPEAR.Get(Spear) == 1;
    DueMarchSucceedsIff(g, now);
  }

  lemma StartIsSound(start: Game)
    requires start == InitialGame(0.0).(troops := LONE_SPEAR)
    ensures Sound(start)
  {
    hide CapacityAt;
    InitialGameIsSound(0.0);
    assert NoneNegative(LONE_SPEAR);
  }
}

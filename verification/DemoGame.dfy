/**
 The demo engine's mutable state (src/game.js:180-454). Every operation changes the state's fields step by
 step, and ends in the state, and with the answer, that DemoEconomy's function gives.
 */
module DemoGame {
  import opened Wrappers
  import opened DependencySearch
  import opened EconomyLaws
  import opened DemoEconomy

  const RESOURCE_KEYS: seq<Resource> := [Wood, Clay, Stone, Gold]
  const TROOP_KEYS: seq<TroopKind> := [Spear, Archer, Rider]

  /** Where `r` stands among the resource keys. */
  function IndexOf(r: Resource): (i: nat)
    ensures i < 4 && RESOURCE_KEYS[i] == r
  {
    match r
    case Wood => 0
    case Clay => 1
    case Stone => 2
    case Gold => 3
  }

  function TroopIndex(k: TroopKind): (i: nat)
    ensures i < 3 && TROOP_KEYS[i] == k
  {
    match k
    case Spear => 0
    case Archer => 1
    case Rider => 2
  }

  function WithTroop(t: Troops, k: TroopKind, count: int): Troops {
    EachTroop(x => if x == k then count else t.Get(x))
  }

  lemma TroopsAgree(a: Troops, b: Troops)
    requires forall k: TroopKind :: a.Get(k) == b.Get(k)
    ensures a == b
  {
    assert a.Get(Spear) == b.Get(Spear) && a.Get(Archer) == b.Get(Archer) && a.Get(Rider) == b.Get(Rider);
  }

  lemma SettledField(g: Game, now: real, unclaimed: Stock)
    requires forall r: Resource ::
      unclaimed.Get(r) == Accrued(Capacity(g), g.unclaimed.Get(r), Production(g).Get(r), Elapsed(g, now))
    ensures Settle(g, now) == g.(unclaimed := unclaimed, last := now)
  {
    StocksAgree(unclaimed, Settle(g, now).unclaimed);
  }

  class DemoGame {
    var resources: Stock
    var unclaimed: Stock
    var buildings: Levels
    var troops: Troops
    var targets: seq<Target>
    var gatherAvailableAt: real
    var pendingRaid: Option<March>
    var last: real

    function State(): Game
      reads this
    {
      Game(resources, unclaimed, buildings, troops, targets, gatherAvailableAt, pendingRaid, last)
    }

    constructor (now: real)
      ensures State() == InitialGame(now)
    {
      resources, unclaimed := Stock(240.0, 220.0, 210.0, 45.0), NO_STOCK;
      buildings, troops, targets := Levels(1, 1, 1, 1, 1, 0, 0, 0), Troops(0, 0, 0), DEMO_TARGETS;
      gatherAvailableAt, pendingRaid, last := 0.0, None, now;
    }

    method SettleFields(now: real)
      modifies this`unclaimed, this`last
      ensures State() == Settle(old(State()), now)
    {
      hide Settle, Accrued, CapacityAt;
      ghost var before := State();
      var elapsed, production, capacity := Elapsed(State(), now), Production(State()), Capacity(State());
      for i := 0 to 4
        invariant State() == before.(unclaimed := unclaimed)
        invariant forall r: Resource :: IndexOf(r) >= i ==> unclaimed.Get(r) == before.unclaimed.Get(r)
        invariant forall r: Resource :: IndexOf(r) < i ==>
          unclaimed.Get(r) == Accrued(capacity, before.unclaimed.Get(r), production.Get(r), elapsed)
      {
        var r := RESOURCE_KEYS[i];
        unclaimed := With(unclaimed, r, Accrued(capacity, unclaimed.Get(r), production.Get(r), elapsed));
      }
      last := now;
      SettledField(before, now, unclaimed);
    }

    method PayFor(required: Stock)
      modifies this`resources
      ensures resources == Pay(old(resources), required)
    {
      for i := 0 to 4
        invariant forall r: Resource ::
          resources.Get(r) == old(resources).Get(r) - if IndexOf(r) < i then required.Get(r) else 0.0
      {
        var r := RESOURCE_KEYS[i];
        resources := With(resources, r, resources.Get(r) - required.Get(r));
      }
      StocksAgree(resources, Pay(old(resources), required));
    }

    method UpgradeBuilding(b: Building, now: real) returns (outcome: Outcome)
      modifies this
      ensures (State(), outcome) == Upgrade(old(State()), b, now)
    {
      hide Settle, CapacityAt, Demands, Meets, CanPay, Pay, BuildingCost;
      SettleFields(now);
      var required := BuildingCost(State(), b);
      if !Meets(buildings, Demands(b, buildings.Get(b) + 1)) {
        return Refused(Requirements);
      }
      if !CanPay(resources, required) {
        return Refused(Unaffordable);
      }
      PayFor(required);
      buildings := buildings.Raised(b);
      outcome := Done;
    }

    method GatherFields(now: real)
      modifies this`resources, this`unclaimed, this`last
      ensures State() == Gather(old(State()), now)
    {
      hide Settle, CapacityAt, Collectable;
      SettleFields(now);
      ghost var s := State();
      var capacity := Capacity(State());
      for i := 0 to 4
        invariant State() == s.(resources := resources, unclaimed := unclaimed)
        invariant forall r: Resource :: IndexOf(r) >= i ==>
          resources.Get(r) == s.resources.Get(r) && unclaimed.Get(r) == s.unclaimed.Get(r)
        invariant forall r: Resource :: IndexOf(r) < i ==>
          && resources.Get(r) == Gather(old(State()), now).resources.Get(r)
          && unclaimed.Get(r) == Gather(old(State()), now).unclaimed.Get(r)
      {
        var r := RESOURCE_KEYS[i];
        var collected := Collectable(capacity, unclaimed.Get(r), resources.Get(r));
        resources := With(resources, r, resources.Get(r) + collected);
        unclaimed := With(unclaimed, r, unclaimed.Get(r) - collected);
      }
      StocksAgree(resources, Gather(old(State()), now).resources);
      StocksAgree(unclaimed, Gather(old(State()), now).unclaimed);
    }

    method StartGathering(now: real) returns (outcome: Outcome)
      modifies this
      ensures (State(), outcome) == DemoEconomy.StartGathering(old(State()), now)
    {
      hide Gather;
      if now < gatherAvailableAt {
        return Refused(Cooldown);
      }
      GatherFields(now);
      gatherAvailableAt := now + COLLECTION_COOLDOWN_MS;
      outcome := Done;
    }

    method SwapInternal(from: Resource, to: Resource, amount: real, now: real) returns (outcome: Outcome)
      modifies this
      ensures (State(), outcome) == Swap(old(State()), from, to, amount, now)
    {
      hide Settle, CapacityAt, Exchanged, InternalValue;
      SettleFields(now);
      var given := Max(0.0, amount.Floor as real);
      if from == Gold || to == Gold || from == to || given == 0.0 {
        return Refused(Market);
      }
      if resources.Get(from) < given {
        return Refused(Unaffordable);
      }
      var received := Min(Exchanged(given, from, to), Max(0.0, Capacity(State()) - resources.Get(to)));
      if received == 0.0 {
        return Refused(Full);
      }
      resources := With(resources, from, resources.Get(from) - given);
      resources := With(resources, to, resources.Get(to) + received);
      outcome := Done;
    }

    method TrainTroops(k: TroopKind, amount: real, now: real) returns (outcome: Outcome)
      modifies this
      ensures (State(), outcome) == Train(old(State()), k, amount, now)
    {
      hide Settle, CapacityAt, Meets, CanPay, Pay, TroopCost, TroopRules;
      SettleFields(now);
      var count := if amount.Floor < 1 then 1 else amount.Floor;
      var required := TroopCost(k, count);
      if !Meets(buildings, TroopRules(k).2) {
        return Refused(Requirements);
      }
      if !CanPay(resources, required) {
        return Refused(Unaffordable);
      }
      PayFor(required);
      ghost var trained := Train(old(State()), k, amount, now).0.troops;
      troops := WithTroop(troops, k, troops.Get(k) + count);
      TroopsAgree(troops, trained);
      outcome := Done;
    }

    method Bury(casualties: Troops)
      modifies this`troops
      ensures forall k: TroopKind :: troops.Get(k) == old(troops).Get(k) - casualties.Get(k)
    {
      for i := 0 to 3
        invariant forall k: TroopKind ::
          troops.Get(k) == old(troops).Get(k) - if TroopIndex(k) < i then casualties.Get(k) else 0
      {
        var k := TROOP_KEYS[i];
        troops := WithTroop(troops, k, troops.Get(k) - casualties.Get(k));
      }
    }

    method CarryHome(t: nat, stolen: Stock)
      requires t < |targets|
      modifies this`resources, this`targets
      ensures targets == old(targets)[t := old(targets)[t].(unclaimed := Pay(old(targets)[t].unclaimed, stolen))]
      ensures forall r: Resource :: resources.Get(r) == Min(Capacity(State()), old(resources).Get(r) + stolen.Get(r))
    {
      hide CapacityAt;
      var capacity, left := Capacity(State()), targets[t].unclaimed;
      for i := 0 to 4
        invariant targets == old(targets)
        invariant forall r: Resource ::
          left.Get(r) == old(targets)[t].unclaimed.Get(r) - if IndexOf(r) < i then stolen.Get(r) else 0.0
        invariant forall r: Resource ::
          IndexOf(r) < i ==> resources.Get(r) == Min(capacity, old(resources).Get(r) + stolen.Get(r))
        invariant forall r: Resource :: IndexOf(r) >= i ==> resources.Get(r) == old(resources).Get(r)
      {
        var r := RESOURCE_KEYS[i];
        left := With(left, r, left.Get(r) - stolen.Get(r));
        resources := With(resources, r, Min(capacity, resources.Get(r) + stolen.Get(r)));
      }
      targets := targets[t := targets[t].(unclaimed := left)];
      StocksAgree(left, Pay(old(targets)[t].unclaimed, stolen));
    }

    method SendRaid(id: string, selected: Selection, now: real) returns (outcome: Outcome)
      modifies this
      ensures (State(), outcome) == DemoEconomy.SendRaid(old(State()), id, selected, now)
    {
      hide Settle, CapacityAt, FindTarget, ArmyOf, Available, Casualties, Attack, Loot, Pay;
      SettleFields(now);
      ghost var s := State();
      var found, army := FindTarget(targets, id), ArmyOf(selected);
      if found.None? || army.Total() == 0 {
        return Refused(Reason.Army);
      }
      if !Available(army, troops) {
        return Refused(Availability);
      }
      var target := targets[found.value];
      var won := Attack(army) >= target.defense;
      Bury(Casualties(army, won));
      var stolen := if won then Loot(target.unclaimed, (army.Total() * 18) as real) else NO_STOCK;
      CarryHome(found.value, stolen);
      TroopsAgree(troops, Fight(s, found.value, army).troops);
      StocksAgree(resources, Fight(s, found.value, army).resources);
      outcome := Done;
    }

    method StartRaidMarch(id: string, selected: Selection, now: real) returns (outcome: Outcome)
      modifies this
      ensures (State(), outcome) == StartMarch(old(State()), id, selected, now)
    {
      hide Settle, FindTarget, ArmyOf, Available;
      SettleFields(now);
      if pendingRaid.Some? {
        return Refused(Marching);
      }
      var army := ArmyOf(selected);
      if FindTarget(targets, id).None? || army.Total() == 0 {
        return Refused(Reason.Army);
      }
      if !Available(army, troops) {
        return Refused(Availability);
      }
      pendingRaid := Some(March(id, army, now + MARCH_DURATION_MS));
      outcome := Done;
    }

    method ResolveRaidMarch(now: real) returns (outcome: Outcome)
      modifies this
      ensures (State(), outcome) == ResolveMarch(old(State()), now)
    {
      hide DemoEconomy.SendRaid, AllOf;
      if pendingRaid.None? || now < pendingRaid.value.arrivesAt {
        return Refused(Marching);
      }
      var march := pendingRaid.value;
      pendingRaid := None;
      outcome := SendRaid(march.target, AllOf(march.army), now);
    }
  }
}

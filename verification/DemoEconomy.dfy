/**
 The demo engine's economy over the reals (src/game.js): production, collection, construction, internal
 swaps, training and raids, as functions of the state and the clock.
 */
module DemoEconomy {
  import opened Wrappers
  import opened ContractCurves
  import opened DependencySearch

  datatype Resource = Wood | Clay | Stone | Gold

  datatype Stock = Stock(wood: real, clay: real, stone: real, gold: real) {
    function Get(r: Resource): real {
      match r
      case Wood => wood
      case Clay => clay
      case Stone => stone
      case Gold => gold
    }
  }

  /** The stock that holds `f(r)` of each resource. */
  function Each(f: Resource -> real): (s: Stock)
    ensures forall r :: s.Get(r) == f(r)
  {
    Stock(f(Wood), f(Clay), f(Stone), f(Gold))
  }

  datatype TroopKind = Spear | Archer | Rider

  datatype Troops = Troops(spear: int, archer: int, rider: int) {
    function Get(k: TroopKind): int {
      match k
      case Spear => spear
      case Archer => archer
      case Rider => rider
    }

    function Total(): int {
      spear + archer + rider
    }
  }

  function EachTroop(f: TroopKind -> int): (t: Troops)
    ensures forall k :: t.Get(k) == f(k)
  {
    Troops(f(Spear), f(Archer), f(Rider))
  }

  /** How far each building is built. */
  datatype Levels = Levels(
    townhall: nat, timber: nat, claypit: nat, quarry: nat, warehouse: nat, workshop: nat, goldmine: nat, barracks: nat)
  {
    function Get(b: Building): nat {
      match b
      case Townhall => townhall
      case Timber => timber
      case Claypit => claypit
      case Quarry => quarry
      case Warehouse => warehouse
      case Workshop => workshop
      case Goldmine => goldmine
      case Barracks => barracks
    }

    function Raised(b: Building): (l: Levels)
      ensures forall x :: l.Get(x) == Get(x) + if x == b then 1 else 0
    {
      match b
      case Townhall => this.(townhall := townhall + 1)
      case Timber => this.(timber := timber + 1)
      case Claypit => this.(claypit := claypit + 1)
      case Quarry => this.(quarry := quarry + 1)
      case Warehouse => this.(warehouse := warehouse + 1)
      case Workshop => this.(workshop := workshop + 1)
      case Goldmine => this.(goldmine := goldmine + 1)
      case Barracks => this.(barracks := barracks + 1)
    }
  }

  /** The numbers a player asks to send, before they are rounded. */
  datatype Selection = Selection(spear: real, archer: real, rider: real) {
    function Get(k: TroopKind): real {
      match k
      case Spear => spear
      case Archer => archer
      case Rider => rider
    }
  }

  datatype Target = Target(id: string, defense: real, unclaimed: Stock, initial: Stock)

  datatype March = March(target: string, army: Troops, arrivesAt: real)

  datatype Reason = Requirements | Unaffordable | Market | Full | Army | Availability | Marching | Cooldown

  datatype Outcome = Done | Refused(reason: Reason)

  datatype Game = Game(
    resources: Stock, unclaimed: Stock, buildings: Levels, troops: Troops, targets: seq<Target>,
    gatherAvailableAt: real, pendingRaid: Option<March>, last: real)

  const NO_STOCK := Stock(0.0, 0.0, 0.0, 0.0)
  const MAX_SETTLED_SECONDS: real := 28_800.0
  const COLLECTION_COOLDOWN_MS: real := 60_000.0
  const MARCH_DURATION_MS: real := 60_000.0

  function Min(a: real, b: real): real {
    if a < b then a else b
  }

  function Max(a: real, b: real): real {
    if a < b then b else a
  }

  function Ceil(x: real): int {
    -((-x).Floor)
  }

  // ---------------------------------------------------------------- rules

  /** The nearest whole number, halves rounded up. */
  function Round(x: real): real {
    (x + 0.5).Floor as real
  }

  function CapacityAt(warehouse: nat): real {
    Round(500.0 * Pow(1.7, if warehouse == 0 then 0 else warehouse - 1))
  }

  function Capacity(g: Game): real {
    CapacityAt(g.buildings.Get(Warehouse))
  }

  /** Production per second. */
  function Production(g: Game): Stock {
    Stock(0.55 * g.buildings.Get(Timber) as real, 0.5 * g.buildings.Get(Claypit) as real,
          0.46 * g.buildings.Get(Quarry) as real, 0.13 * g.buildings.Get(Goldmine) as real)
  }

  function BasePrice(b: Building): (Stock, real) {
    match b
    case Townhall => (Stock(55.0, 65.0, 75.0, 0.0), 1.58)
    case Timber => (Stock(35.0, 20.0, 15.0, 0.0), 1.46)
    case Claypit => (Stock(25.0, 40.0, 20.0, 0.0), 1.47)
    case Quarry => (Stock(30.0, 25.0, 45.0, 0.0), 1.48)
    case Warehouse => (Stock(45.0, 45.0, 35.0, 0.0), 1.52)
    case Workshop => (Stock(90.0, 110.0, 105.0, 15.0), 1.6)
    case Goldmine => (Stock(130.0, 120.0, 150.0, 0.0), 1.66)
    case Barracks => (Stock(125.0, 145.0, 105.0, 25.0), 1.62)
  }

  /** A price after `levels` levels of growth, rounded up once. */
  function GrownPrice(base: real, factor: real, levels: nat): real {
    Ceil(base * Pow(factor, levels)) as real
  }

  function BuildingCost(g: Game, b: Building): Stock {
    var (base, factor) := BasePrice(b);
    var cost := Each(r => GrownPrice(base.Get(r), factor, g.buildings.Get(b)));
    if b == Workshop && g.buildings.Get(b) == 0 then cost.(gold := 0.0) else cost
  }

  /** What the demo demands before building `b` reaches `level`. */
  function Demands(b: Building, level: nat): seq<(Building, nat)> {
    match b
    case Townhall =>
      if level <= 1 then []
      else
        [(Timber, level), (Claypit, level), (Quarry, level)]
        + (if level >= 3 then [(Warehouse, level - 1)] else [])
        + (if level >= 5 then [(Workshop, level - 3)] else [])
    case Warehouse => [(Townhall, 1)]
    case Workshop => [(Townhall, 2), (Timber, 2), (Claypit, 2), (Quarry, 2)]
    case Goldmine => [(Townhall, 4), (Workshop, 2)]
    case Barracks => [(Townhall, 3), (Workshop, 1)]
    case _ => []
  }

  predicate Meets(levels: Levels, demands: seq<(Building, nat)>) {
    forall d :: d in demands ==> levels.Get(d.0) >= d.1
  }

  function TroopRules(k: TroopKind): (real, Stock, seq<(Building, nat)>) {
    match k
    case Spear => (10.0, Stock(22.0, 16.0, 8.0, 1.0), [(Barracks, 1)])
    case Archer => (17.0, Stock(30.0, 22.0, 12.0, 2.0), [(Barracks, 2), (Workshop, 1)])
    case Rider => (31.0, Stock(45.0, 35.0, 24.0, 4.0), [(Barracks, 3), (Workshop, 2)])
  }

  function TroopCost(k: TroopKind, count: int): Stock {
    Each(r => TroopRules(k).1.Get(r) * count as real)
  }

  predicate CanPay(resources: Stock, cost: Stock) {
    forall r: Resource :: resources.Get(r) >= cost.Get(r)
  }

  function Pay(resources: Stock, cost: Stock): Stock {
    Each(r => resources.Get(r) - cost.Get(r))
  }

  // ---------------------------------------------------------------- operations

  function Elapsed(g: Game, now: real): real {
    Min(MAX_SETTLED_SECONDS, Max(0.0, (now - g.last) / 1000.0))
  }

  /** One resource in the field after `elapsed` seconds of production, cut at the capacity. */
  function Accrued(capacity: real, stock: real, rate: real, elapsed: real): real {
    Min(capacity, stock + rate * elapsed)
  }

  function Settle(g: Game, now: real): Game {
    g.(unclaimed := Each(r => Accrued(Capacity(g), g.unclaimed.Get(r), Production(g).Get(r), Elapsed(g, now))),
       last := now)
  }

  function Upgrade(g: Game, b: Building, now: real): (Game, Outcome) {
    var s := Settle(g, now);
    var cost := BuildingCost(s, b);
    if !Meets(s.buildings, Demands(b, s.buildings.Get(b) + 1)) then (s, Refused(Requirements))
    else if !CanPay(s.resources, cost) then (s, Refused(Unaffordable))
    else (s.(resources := Pay(s.resources, cost), buildings := s.buildings.Raised(b)), Done)
  }

  /** What of one field stock fits into the storage. */
  function Collectable(capacity: real, field: real, stored: real): real {
    Min(field, Max(0.0, capacity - stored))
  }

  function Gather(g: Game, now: real): Game {
    var s := Settle(g, now);
    var collected := Each(r => Collectable(Capacity(s), s.unclaimed.Get(r), s.resources.Get(r)));
    s.(resources := Each(r => s.resources.Get(r) + collected.Get(r)), unclaimed := Pay(s.unclaimed, collected))
  }

  function StartGathering(g: Game, now: real): (Game, Outcome) {
    if now < g.gatherAvailableAt then (g, Refused(Cooldown))
    else (Gather(g, now).(gatherAvailableAt := now + COLLECTION_COOLDOWN_MS), Done)
  }

  /** Internal values; gold has none and cannot be swapped. */
  function InternalValue(r: Resource): real {
    match r
    case Wood => 1.0
    case Clay => 1.1
    case Stone => 1.25
    case Gold => 0.0
  }

  /** What `given` of one resource is worth in another, rounded down. */
  function Exchanged(given: real, from: Resource, to: Resource): real
    requires to != Gold
  {
    (given * InternalValue(from) / InternalValue(to)).Floor as real
  }

  function With(s: Stock, r: Resource, amount: real): Stock {
    Each(x => if x == r then amount else s.Get(x))
  }

  function Swap(g: Game, from: Resource, to: Resource, amount: real, now: real): (Game, Outcome) {
    var s := Settle(g, now);
    var given := Max(0.0, amount.Floor as real);
    if from == Gold || to == Gold || from == to || given == 0.0 then (s, Refused(Market))
    else if s.resources.Get(from) < given then (s, Refused(Unaffordable))
    else
      var received := Min(Exchanged(given, from, to), Max(0.0, Capacity(s) - s.resources.Get(to)));
      if received == 0.0 then (s, Refused(Full))
      else
        var paid := With(s.resources, from, s.resources.Get(from) - given);
        (s.(resources := With(paid, to, paid.Get(to) + received)), Done)
  }

  function Train(g: Game, k: TroopKind, amount: real, now: real): (Game, Outcome) {
    var s := Settle(g, now);
    var count := if amount.Floor < 1 then 1 else amount.Floor;
    var cost := TroopCost(k, count);
    if !Meets(s.buildings, TroopRules(k).2) then (s, Refused(Requirements))
    else if !CanPay(s.resources, cost) then (s, Refused(Unaffordable))
    else
      var troops := EachTroop(x => s.troops.Get(x) + if x == k then count else 0);
      (s.(resources := Pay(s.resources, cost), troops := troops), Done)
  }

  /** What a raid takes of one resource: its proportional share of what the army can carry, rounded down. */
  function Taken(part: real, total: real, carry: real): real
    requires total != 0.0
  {
    Min(part, (part / total * carry).Floor as real)
  }

  /** What a raid takes from a stock, given how much the army can carry. */
  function Loot(stock: Stock, carry: real): Stock {
    var total := stock.wood + stock.clay + stock.stone + stock.gold;
    if total == 0.0 || carry == 0.0 then NO_STOCK
    else Each(r => Taken(stock.Get(r), total, carry))
  }

  /** The first target with this id. */
  function FindTarget(targets: seq<Target>, id: string): (found: Option<nat>)
    ensures found.Some? ==> found.value < |targets| && targets[found.value].id == id
    ensures found.Some? ==> forall i :: 0 <= i < found.value ==> targets[i].id != id
    ensures found.None? ==> forall i :: 0 <= i < |targets| ==> targets[i].id != id
  {
    if targets == [] then None
    else if targets[0].id == id then Some(0)
    else
      var rest := FindTarget(targets[1..], id);
      if rest.None? then None else Some(rest.value + 1)
  }

  function ArmyOf(selected: Selection): Troops {
    EachTroop(k => if selected.Get(k).Floor < 0 then 0 else selected.Get(k).Floor)
  }

  /** An army already counted, as a selection. */
  function AllOf(army: Troops): Selection {
    Selection(army.spear as real, army.archer as real, army.rider as real)
  }

  predicate Available(army: Troops, troops: Troops) {
    forall k: TroopKind :: army.Get(k) <= troops.Get(k)
  }

  function Attack(army: Troops): real {
    TroopRules(Spear).0 * army.spear as real + TroopRules(Archer).0 * army.archer as real
    + TroopRules(Rider).0 * army.rider as real
  }

  function Casualties(army: Troops, won: bool): Troops {
    EachTroop(k =>
      var lost := Ceil(army.Get(k) as real * if won then 0.08 else 0.38);
      if army.Get(k) < lost then army.Get(k) else lost)
  }

  /** The raid itself, for an army that is there. */
  function Fight(g: Game, i: nat, army: Troops): Game
    requires i < |g.targets|
  {
    var target := g.targets[i];
    var won := Attack(army) >= target.defense;
    var lost := Casualties(army, won);
    var stolen := if won then Loot(target.unclaimed, (army.Total() * 18) as real) else NO_STOCK;
    g.(troops := EachTroop(k => g.troops.Get(k) - lost.Get(k)),
       targets := g.targets[i := target.(unclaimed := Pay(target.unclaimed, stolen))],
       resources := Each(r => Min(Capacity(g), g.resources.Get(r) + stolen.Get(r))))
  }

  function SendRaid(g: Game, id: string, selected: Selection, now: real): (Game, Outcome) {
    var s := Settle(g, now);
    var found, army := FindTarget(s.targets, id), ArmyOf(selected);
    if found.None? || army.Total() == 0 then (s, Refused(Army))
    else if !Available(army, s.troops) then (s, Refused(Availability))
    else (Fight(s, found.value, army), Done)
  }

  function StartMarch(g: Game, id: string, selected: Selection, now: real): (Game, Outcome) {
    var s := Settle(g, now);
    var army := ArmyOf(selected);
    if s.pendingRaid.Some? then (s, Refused(Marching))
    else if FindTarget(s.targets, id).None? || army.Total() == 0 then (s, Refused(Army))
    else if !Available(army, s.troops) then (s, Refused(Availability))
    else (s.(pendingRaid := Some(March(id, army, now + MARCH_DURATION_MS))), Done)
  }

  function ResolveMarch(g: Game, now: real): (Game, Outcome) {
    if g.pendingRaid.None? || now < g.pendingRaid.value.arrivesAt then (g, Refused(Marching))
    else
      var march := g.pendingRaid.value;
      SendRaid(g.(pendingRaid := None), march.target, AllOf(march.army), now)
  }

  // ---------------------------------------------------------------- the start and the commands

  const DEMO_TARGETS: seq<Target> := [
    Target("river", 54.0, Stock(135.0, 85.0, 70.0, 12.0), Stock(135.0, 85.0, 70.0, 12.0)),
    Target("ash", 128.0, Stock(245.0, 210.0, 160.0, 28.0), Stock(245.0, 210.0, 160.0, 28.0)),
    Target("iron", 245.0, Stock(410.0, 340.0, 320.0, 55.0), Stock(410.0, 340.0, 320.0, 55.0))]

  function InitialGame(now: real): Game {
    Game(Stock(240.0, 220.0, 210.0, 45.0), NO_STOCK, Levels(1, 1, 1, 1, 1, 0, 0, 0), Troops(0, 0, 0), DEMO_TARGETS,
         0.0, None, now)
  }

  datatype Command =
    | SettleNow
    | UpgradeBuilding(building: Building)
    | GatherFields
    | SwapResources(from: Resource, to: Resource, amount: real)
    | TrainTroop(kind: TroopKind, count: real)
    | SendArmy(id: string, selected: Selection)
    | StartRaid(id: string, selected: Selection)
    | ResolveRaid

  function Step(g: Game, c: Command, now: real): Game {
    match c
    case SettleNow => Settle(g, now)
    case UpgradeBuilding(b) => Upgrade(g, b, now).0
    case GatherFields => StartGathering(g, now).0
    case SwapResources(from, to, amount) => Swap(g, from, to, amount, now).0
    case TrainTroop(k, count) => Train(g, k, count, now).0
    case SendArmy(id, selected) => SendRaid(g, id, selected, now).0
    case StartRaid(id, selected) => StartMarch(g, id, selected, now).0
    case ResolveRaid => ResolveMarch(g, now).0
  }

  function Run(g: Game, run: seq<(Command, real)>): Game {
    if run == [] then g else Step(Run(g, run[..|run| - 1]), run[|run| - 1].0, run[|run| - 1].1)
  }
}

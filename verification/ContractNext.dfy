/**
 When the step offered as next can be begun, under the rules, prices and slots of the on-chain game
 (src/app.js:385-403, src/world-game/build-planner.js:157-205).
 */
module ContractNext {
  import opened Wrappers
  import opened Sorting
  import opened DependencySearch
  import opened PlanExistence
  import opened BuildPlanner
  import opened PlanSoundness
  import opened PlanResult
  import opened PlanLimits
  import opened ContractPlan
  import ContractCurves

  // ---------------------------------------------------------------- slots and stock along the schedule

  /** Slot times have only grown and the stock has only fallen. */
  ghost predicate MovedOn(before: Board, after: Board) {
    && |before.slots| == |after.slots|
    && (forall c :: 0 <= c < |before.slots| ==> before.slots[c] <= after.slots[c])
    && Fits(after.remaining, before.remaining)
  }

  lemma StepMovesOn(p: Problem, now: real, before: Board, work: Work)
    requires before.slots != [] && ValidWork(now, work)
    ensures MovedOn(before, Schedule(p, now, before, work))
  {
    hide ReadyAt, FirstFree, RequirementsOf, Lacking;
  }

  lemma {:induction false} WorksMoveOn(p: Problem, now: real, start: Board, works: seq<Work>, i: nat)
    requires start.slots != [] && ValidWorks(now, works) && i <= |works|
    ensures MovedOn(ScheduleAll(p, now, start, works[..i]), ScheduleAll(p, now, start, works))
  {
    hide Schedule;
    if i == |works| {
      assert works[..i] == works;
    } else {
      var front := works[..|works| - 1];
      assert works[..i] == front[..i];
      FrontWorks(now, works);
      WorksMoveOn(p, now, start, front, i);
      StepMovesOn(p, now, ScheduleAll(p, now, start, front), works[|works| - 1]);
    }
  }

  /** What stands on the board at position `i` is what scheduling work `i` put there. */
  lemma {:induction false} StepAt(p: Problem, now: real, start: Board, works: seq<Work>, i: nat)
    requires start.slots != [] && start.done == [] && i < |works|
    ensures var before := ScheduleAll(p, now, start, works[..i]);
      && |before.done| == i && |ScheduleAll(p, now, start, works).done| == |works|
      && |Schedule(p, now, before, works[i]).done| == i + 1
      && ScheduleAll(p, now, start, works).done[i] == Schedule(p, now, before, works[i]).done[i]
      && forall m :: 0 <= m < |works| ==> ScheduleAll(p, now, start, works).done[m].work == works[m]
  {
    hide ReadyAt, FirstFree, RequirementsOf, Lacking;
    StepsOfWorks(p, now, start, works);
    StepsOfWorks(p, now, start, works[..i]);
    if i < |works| - 1 {
      var front := works[..|works| - 1];
      assert front[..i] == works[..i];
      StepAt(p, now, start, front, i);
    }
  }

  lemma {:induction false} StepsOfWorks(p: Problem, now: real, start: Board, works: seq<Work>)
    requires start.slots != [] && start.done == []
    ensures Works(ScheduleAll(p, now, start, works).done) == works
  {
    hide ReadyAt, FirstFree, RequirementsOf, Lacking;
    if works != [] {
      StepsOfWorks(p, now, start, works[..|works| - 1]);
    }
  }

  /** None of the steps is one that `key` has to wait for. */
  ghost predicate NoneAwaited(p: Problem, works: seq<Work>, key: Key) {
    forall m, r :: 0 <= m < |works| && r in RequirementsOf(p, key) ==>
      !(r.id == Known(works[m].key.0) && r.level == works[m].key.1)
  }

  lemma NoneOnBoard(p: Problem, works: seq<Work>, done: seq<Scheduled>, key: Key)
    requires NoneAwaited(p, works, key) && |done| <= |works| && forall m :: 0 <= m < |done| ==> done[m].work == works[m]
    ensures AwaitsNothing(p, done, key)
  {
    hide RequirementsOf;
    forall r | r in RequirementsOf(p, key)
      ensures Lookup(done, r).None?
    {
      LookupFinds(done, r);
    }
  }

  /** The slots never become free earlier than now. */
  lemma SlotsStayFrom(now: real, before: Board, after: Board)
    requires SlotsFrom(now, before.slots) && MovedOn(before, after)
    ensures SlotsFrom(now, after.slots)
  {
  }

  /** What a step that waits for nothing finds when its turn comes. */
  lemma StepOnItsTurn(p: Problem, now: real, start: Board, works: seq<Work>, i: nat)
    requires start.slots != [] && start.done == [] && SlotsFrom(now, start.slots) && ValidWorks(now, works)
    requires i < |works| && works[i].Todo? && NoneAwaited(p, works, works[i].key)
    ensures var before := ScheduleAll(p, now, start, works[..i]); var done := ScheduleAll(p, now, start, works).done;
      && |done| == |works| && done[i].work == works[i] && SlotsFrom(now, before.slots)
      && done[i].start == before.slots[FirstFree(before.slots)]
      && done[i].affordable == Fits(works[i].cost, before.remaining)
      && AwaitsNothing(p, done, works[i].key)
  {
    hide Schedule, FirstFree, NoneAwaited, AwaitsNothing;
    var before := ScheduleAll(p, now, start, works[..i]);
    StepAt(p, now, start, works, i);
    StepsOfWorks(p, now, start, works[..i]);
    assert forall m :: 0 <= m < i ==> before.done[m].work == Works(before.done)[m];
    NoneOnBoard(p, works, before.done, works[i].key);
    NoneOnBoard(p, works, ScheduleAll(p, now, start, works).done, works[i].key);
    assert works[..i][..0] == [];
    WorksMoveOn(p, now, start, works[..i], 0);
    SlotsStayFrom(now, start, before);
    PlainStep(p, now, before, works[i]);
  }

  /** A step starts no earlier than the first slot is free, and is afforded only from what is left. */
  lemma LaterStep(p: Problem, now: real, start: Board, works: seq<Work>, j: nat)
    requires start.slots != [] && start.done == [] && j < |works| && works[j].Todo?
    ensures var before := ScheduleAll(p, now, start, works[..j]); var done := ScheduleAll(p, now, start, works).done;
      && |done| == |works| && done[j].work == works[j]
      && before.slots[FirstFree(before.slots)] <= done[j].start
      && done[j].affordable == Fits(works[j].cost, before.remaining)
  {
    hide ReadyAt, FirstFree, RequirementsOf, Lacking;
    StepAt(p, now, start, works, j);
    NothingLacks(works[j].cost, ScheduleAll(p, now, start, works[..j]).remaining);
  }

  /** An earlier step that waits for nothing and costs no more can start now if a later one can. */
  lemma CheaperStartsFirst(p: Problem, now: real, start: Board, works: seq<Work>, i: nat, j: nat)
    requires start.slots != [] && start.done == [] && SlotsFrom(now, start.slots) && ValidWorks(now, works)
    requires i < j < |works| && works[i].Todo? && works[j].Todo? && Fits(works[i].cost, works[j].cost)
    requires NoneAwaited(p, works, works[i].key)
    ensures var done := ScheduleAll(p, now, start, works).done;
      && |done| == |works| && (StartsNext(p, now, done, done[j]) ==> StartsNext(p, now, done, done[i]))
  {
    hide ScheduleAll, FirstFree, NoneAwaited, RequirementsOf;
    StepOnItsTurn(p, now, start, works, i);
    LaterStep(p, now, start, works, j);
    assert works[..j][..i] == works[..i];
    WorksMoveOn(p, now, start, works[..j], i);
    var first, second := ScheduleAll(p, now, start, works[..i]), ScheduleAll(p, now, start, works[..j]);
    assert first.slots[FirstFree(first.slots)] <= second.slots[FirstFree(second.slots)];
  }

  // ---------------------------------------------------------------- prices and rules along the levels

  lemma {:induction false} PriceRises(b: Building, level: nat, component: nat)
    requires component < 4
    ensures ContractCurves.CostComponent(b, level, component) <= ContractCurves.CostComponent(b, level + 1, component)
  {
    var value, factor := ContractCurves.BaseCosts(b).values[component], ContractCurves.BaseCosts(b).factor;
    var grown := ContractCurves.Grown(value, factor, level);
    assert grown * factor >= grown * 100;
  }

  lemma PricesRise(b: Building, level: nat)
    ensures Fits(ContractPrice(b, level), ContractPrice(b, level + 1))
  {
    hide ContractCurves.CostComponent;
    PriceRises(b, level, 0);
    PriceRises(b, level, 1);
    PriceRises(b, level, 2);
    PriceRises(b, level, 3);
  }

  /** What a level requires, the next level requires at least as high. */
  lemma RulesRise(b: Building, level: nat, r: Requirement) returns (higher: Requirement)
    requires level >= 1 && r in ContractRules(b, level)
    ensures higher in ContractRules(b, level + 1) && higher.id == r.id && r.level <= higher.level
  {
    match b
    case Townhall => higher := r.(level := r.level + 1);
    case _ => higher := r;
  }

  // ---------------------------------------------------------------- the next step without running jobs

  lemma {:induction false} WorksArePrices(v: Village, q: Projections, active: map<Key, Job>, keys: seq<Key>, i: nat)
    requires PriceAll(v, q, active, keys).Success? && i < |keys|
    ensures |PriceAll(v, q, active, keys).value| == |keys|
    ensures Price(v, q, active, keys[i]) == Success(PriceAll(v, q, active, keys).value[i])
  {
    hide Price;
    PricesPerStep(v, q, active, keys[..|keys| - 1]);
    if i < |keys| - 1 {
      WorksArePrices(v, q, active, keys[..|keys| - 1], i);
    }
  }

  lemma {:induction false} PricesPerStep(v: Village, q: Projections, active: map<Key, Job>, keys: seq<Key>)
    requires PriceAll(v, q, active, keys).Success?
    ensures |PriceAll(v, q, active, keys).value| == |keys|
  {
    if keys != [] {
      PricesPerStep(v, q, active, keys[..|keys| - 1]);
    }
  }

  /** Without running jobs every step is still to do, at the contract's price for the level below it. */
  lemma ContractWork(v: Village, duration: (Building, nat) -> Option<real>, keys: seq<Key>, i: nat)
    requires PriceAll(v, ContractProjections(v, duration), map[], keys).Success? && i < |keys|
    ensures var works := PriceAll(v, ContractProjections(v, duration), map[], keys).value;
      |works| == |keys| && works[i].Todo? && works[i].key == keys[i]
      && works[i].cost == ContractPrice(keys[i].0, keys[i].1 as int - 1)
  {
    hide PriceAll, ContractPrice;
    WorksArePrices(v, ContractProjections(v, duration), map[], keys, i);
  }

  /** The village meets the declared requirements of the step. */
  ghost predicate KeyIsMet(p: Problem, key: Key) {
    forall r :: r in RequirementsOf(p, key) ==> r.id.Known? && p.levels(r.id.building) >= r.level
  }

  lemma MetIsNotAwaited(p: Problem, works: seq<Work>, key: Key)
    requires KeyIsMet(p, key) && forall m :: 0 <= m < |works| ==> works[m].key.1 > p.levels(works[m].key.0)
    ensures NoneAwaited(p, works, key)
  {
  }

  /** The steps of a plan are those the village has not reached. */
  lemma MetIsNotPlanned(p: Problem, keys: seq<Key>, works: seq<Work>, key: Key)
    requires Executable(p, keys) && |works| == |keys| && forall m :: 0 <= m < |works| ==> works[m].key == keys[m]
    requires KeyIsMet(p, key)
    ensures NoneAwaited(p, works, key)
  {
    hide Executable, KeyIsMet, NoneAwaited;
    forall m | 0 <= m < |works|
      ensures works[m].key.1 > p.levels(works[m].key.0)
    {
      StepsPassed(p, keys, keys[m].0, keys[m].1);
      assert keys[m] in keys;
    }
    MetIsNotAwaited(p, works, key);
  }

  /** If the village meets the requirements of a level, it meets those of the level below. */
  lemma MetBelow(v: Village, duration: (Building, nat) -> Option<real>, maximum: nat, b: Building, level: nat)
    requires level >= 1 && KeyIsMet(ProblemOf(v, ContractProjections(v, duration), maximum), (b, level + 1))
    ensures KeyIsMet(ProblemOf(v, ContractProjections(v, duration), maximum), (b, level))
  {
    var p := ProblemOf(v, ContractProjections(v, duration), maximum);
    forall r | r in RequirementsOf(p, (b, level))
      ensures r.id.Known? && p.levels(r.id.building) >= r.level
    {
      var higher := RulesRise(b, level, r);
      assert higher in RequirementsOf(p, (b, level + 1));
    }
  }

  /**
   The step offered as next is its building's next level: the level below it would start no later, cost no
   more, and so be offered first.
   */
  lemma NextIsNextLevel(v: Village, duration: (Building, nat) -> Option<real>, target: (Id, int), maximum: nat)
    requires var q := ContractProjections(v, duration);
      && Plan(v, q, target, maximum).Success? && Plan(v, q, target, maximum).value.next.Some?
      && v.jobs == [] && v.now >= 0.0 && TakesTime(Plan(v, q, target, maximum).value)
    ensures var q := ContractProjections(v, duration); var p := ProblemOf(v, q, maximum);
      var next := Plan(v, q, target, maximum).value.next.value;
      next.work.key.1 == p.levels(next.work.key.0) + 1
  {
    hide Plan, Visit, ScheduleAll, NextStep, PriceAll, ActiveJobs, Executable, InitialSlots, RequirementsOf,
      ContractPrice, Buildable, ContractRules, StartsNext, NoneAwaited, SlotsFrom;
    var q := ContractProjections(v, duration);
    var keys, active, works := PlanDerives(v, q, target, maximum);
    var plan, p := Plan(v, q, target, maximum).value, ProblemOf(v, q, maximum);
    StartIsReady(v, q, p, keys, active, works, plan);
    NoJobsNoActive(v);
    var j := NextStepStarts(p, v.now, plan.steps, |plan.steps|);
    StepsOfWorks(p, v.now, StartBoard(v, q.capacity.value), works);
    assert plan.steps[j].work == Works(plan.steps)[j];
    var k := keys[j];
    StepsPassed(p, keys, k.0, k.1);
    assert k in keys;
    if k.1 > p.levels(k.0) + 1 {
      NeedsComeEarlier(p, keys, j);
      var i :| 0 <= i < j && keys[..j][i] == (k.0, k.1 - 1);
      NextMeetsRequirements(v, q, target, maximum);
      MetBelow(v, duration, maximum, k.0, k.1 - 1);
      MetIsNotPlanned(p, keys, works, keys[i]);
      ContractWork(v, duration, keys, i);
      ContractWork(v, duration, keys, j);
      PricesRise(k.0, k.1 - 2);
      CheaperStartsFirst(p, v.now, StartBoard(v, q.capacity.value), works, i, j);
    }
  }

  lemma NoJobsNoActive(v: Village)
    requires v.jobs == [] && ValidLevels(v)
    ensures ActiveJobs(v, v.jobs) == Success(map[])
  {
  }

  /** Without running jobs, from time zero on, and if new steps take time: the next step can be begun, on any slots. */
  lemma ContractNextCanBegin(v: Village, duration: (Building, nat) -> Option<real>, target: (Id, int), maximum: nat)
    requires var q := ContractProjections(v, duration);
      && Plan(v, q, target, maximum).Success? && Plan(v, q, target, maximum).value.next.Some?
      && v.jobs == [] && v.now >= 0.0 && TakesTime(Plan(v, q, target, maximum).value)
    ensures var q := ContractProjections(v, duration);
      CanBegin(v, ProblemOf(v, q, maximum), Plan(v, q, target, maximum).value.next.value)
  {
    hide Plan, ProblemOf, ContractProjections, TakesTime;
    NextIsAffordable(v, ContractProjections(v, duration), target, maximum);
    NextMeetsRequirements(v, ContractProjections(v, duration), target, maximum);
    NextIsNextLevel(v, duration, target, maximum);
  }

  // ---------------------------------------------------------------- searches that are met at once

  ghost predicate AllMet(p: Problem, requirements: seq<Requirement>) {
    forall r :: r in requirements ==> ValidRequirement(p, r) && p.levels(r.id.building) >= r.level
  }

  lemma {:induction false} MetAddNothing(p: Problem, nodes: seq<Key>, visiting: set<Key>,
          requirements: seq<Requirement>)
    requires AllMet(p, requirements)
    ensures VisitAll(p, nodes, visiting, requirements) == Success(nodes)
  {
    if requirements != [] {
      assert requirements[0] in requirements;
      MetAddNothing(p, nodes, visiting, requirements[1..]);
    }
  }

  /** A missing step adds itself to what its level below and its requirements add. */
  lemma StepIsAdded(p: Problem, nodes: seq<Key>, visiting: set<Key>, k: Key, below: seq<Key>, found: seq<Key>)
    requires k in Universe(p) && p.levels(k.0) < k.1 && k !in nodes && k !in visiting && p.rules(k.0, k.1).Some?
    requires k.1 > 1 ==> Visit(p, nodes, visiting + {k}, (k.0, k.1 - 1)) == Success(below)
    requires k.1 == 1 ==> below == nodes
    requires VisitAll(p, below, visiting + {k}, Sort(p.rules(k.0, k.1).value, StepBefore)) == Success(found)
    ensures Visit(p, nodes, visiting, k) == Success(found + [k])
  {
    hide VisitAll, StepBefore;
  }

  lemma MetStepIsAdded(p: Problem, nodes: seq<Key>, visiting: set<Key>, k: Key, below: seq<Key>)
    requires k in Universe(p) && p.levels(k.0) < k.1 && k !in nodes && k !in visiting
    requires p.rules(k.0, k.1).Some? && AllMet(p, p.rules(k.0, k.1).value)
    requires k.1 > 1 ==> Visit(p, nodes, visiting + {k}, (k.0, k.1 - 1)) == Success(below)
    requires k.1 == 1 ==> below == nodes
    ensures Visit(p, nodes, visiting, k) == Success(below + [k])
  {
    hide Visit, VisitAll, StepBefore, ValidRequirement;
    var requirements := p.rules(k.0, k.1).value;
    SameElements(requirements, Sort(requirements, StepBefore));
    MetAddNothing(p, below, visiting + {k}, Sort(requirements, StepBefore));
    StepIsAdded(p, nodes, visiting, k, below, below);
  }

  lemma TwoLevelsAreFound(p: Problem, b: Building, level: nat)
    requires p.levels(b) == level >= 1 && level + 2 <= p.maximum
    requires p.rules(b, level + 1).Some? && AllMet(p, p.rules(b, level + 1).value)
    requires p.rules(b, level + 2).Some? && AllMet(p, p.rules(b, level + 2).value)
    ensures (b, level + 2) in Universe(p) && Steps(p, (b, level + 2)) == Success([(b, level + 1), (b, level + 2)])
  {
    hide AllMet;
    var lower: Key, upper: Key := (b, level + 1), (b, level + 2);
    assert lower in Universe(p) && upper in Universe(p) && (b, level) in Universe(p);
    assert Visit(p, [], {} + {upper} + {lower}, (b, level)) == Success([]);
    hide Visit, Universe;
    MetStepIsAdded(p, [], {} + {upper}, lower, []);
    assert [] + [lower] == [lower] && [lower] + [upper] == [(b, level + 1), (b, level + 2)];
    MetStepIsAdded(p, [], {}, upper, [lower]);
  }

  lemma MetRules(p: Problem, key: Key)
    requires p.rules(key.0, key.1).Some? && AllMet(p, p.rules(key.0, key.1).value)
    ensures KeyIsMet(p, key)
  {
  }

  // ---------------------------------------------------------------- a next step on top of a running job

  /** A workshop level that gives this many slots. */
  function WorkshopFor(capacity: nat): (level: int)
    ensures 1 <= capacity <= 3 ==> GetContractConstructionCapacity(level) == capacity
  {
    if capacity <= 1 then 10 else if capacity == 2 then 11 else 21
  }

  /** A village in which every building can rise two levels. */
  function Settled(site: Site, stock: Amounts): Village {
    Village((b: Building) => if b == Townhall then 4 else if b == Workshop then WorkshopFor(site.capacity) else 10,
            stock, site.now, site.jobs)
  }

  function Timed(duration: real): (Building, nat) -> Option<real> {
    (b: Building, l: nat) => Some(duration)
  }

  function SettledProblem(site: Site, stock: Amounts): Problem {
    ProblemOf(Settled(site, stock), ContractProjections(Settled(site, stock), Timed(1.0)), 30)
  }

  lemma SettledRulesAreMet(site: Site, stock: Amounts, b: Building, up: nat)
    requires 1 <= up <= 2
    ensures var p := SettledProblem(site, stock);
      p.rules(b, p.levels(b) + up).Some? && AllMet(p, p.rules(b, p.levels(b) + up).value)
  {
    match b
    case Townhall =>
    case Warehouse =>
    case Workshop =>
    case Goldmine =>
    case Barracks =>
    case _ =>
  }

  /** The level under construction at no price, and the level above it at the contract's. */
  lemma LevelsOverJob(v: Village, b: Building, active: map<Key, Job>, lower: Work, upper: Work)
    requires ValidLevels(v) && ValidJobs(v.now, v.jobs) && v.jobs != [] && v.jobs[0].id == Known(b)
    requires ActiveJobs(v, v.jobs) == Success(active)
    requires lower == Running((b, v.buildings(b) + 1), v.jobs[0])
    requires upper == Todo((b, v.buildings(b) + 2), ContractPrice(b, v.buildings(b) + 1), 1.0)
    ensures PriceAll(v, ContractProjections(v, Timed(1.0)), active, [lower.key, upper.key]) == Success([lower, upper])
  {
    hide ActiveJobs, ContractPrice, BeingBuilt, Price;
    var q := ContractProjections(v, Timed(1.0));
    ActiveJobIs(v, 0, active);
    ActiveJobsIff(v, v.jobs);
    NotBuiltTwice(v, b);
    LevelPrice(v, b, active, lower, upper);
    var keys: seq<Key> := [lower.key, upper.key];
    assert keys[..1] == [lower.key] && keys[..1][..0] == [];
    assert PriceAll(v, q, active, keys[..1]) == Success([] + [lower]);
    assert [] + [lower] + [upper] == [lower, upper];
  }

  lemma NotBuiltTwice(v: Village, b: Building)
    requires v.buildings(b) >= 0
    ensures !BeingBuilt(v, v.jobs, (b, v.buildings(b) + 2))
  {
  }

  lemma LevelPrice(v: Village, b: Building, active: map<Key, Job>, lower: Work, upper: Work)
    requires v.buildings(b) >= 0
    requires (b, v.buildings(b) + 1) in active && (b, v.buildings(b) + 2) !in active
    requires lower == Running((b, v.buildings(b) + 1), active[(b, v.buildings(b) + 1)])
    requires upper == Todo((b, v.buildings(b) + 2), ContractPrice(b, v.buildings(b) + 1), 1.0)
    ensures var q := ContractProjections(v, Timed(1.0));
      && Price(v, q, active, (b, v.buildings(b) + 1)) == Success(lower)
      && Price(v, q, active, (b, v.buildings(b) + 2)) == Success(upper)
  {
    hide ContractPrice;
    PriceIsPayable(b, v.buildings(b) + 1);
  }

  /** A slot is free now: then the first of the slots is. */
  lemma FirstIsNow(site: Site)
    requires Accepted(site) && SomeSlotFree(site)
    ensures SlotTimes(site) != [] && SlotTimes(site)[FirstFree(SlotTimes(site))] == site.now
  {
    hide InitialSlots, FirstFree;
    BoardIsReady(site);
    var c :| 0 <= c < |SlotTimes(site)| && SlotTimes(site)[c] <= site.now;
    assert SlotTimes(site)[FirstFree(SlotTimes(site))] <= SlotTimes(site)[c];
  }

  /** The step above a running one starts now and is the one offered. */
  lemma UpperIsNext(p: Problem, now: real, start: Board, lower: Work, upper: Work)
    requires start.slots != [] && start.done == [] && SlotsFrom(now, start.slots)
    requires start.slots[FirstFree(start.slots)] == now
    requires lower.Running? && upper.Todo? && upper.cost == start.remaining && NoneAwaited(p, [lower, upper], upper.key)
    ensures var done := ScheduleAll(p, now, start, [lower, upper]).done;
      && |done| == 2 && done[0].work == lower && done[1].work == upper && NextStep(p, now, done, 2) == Some(done[1])
  {
    hide FirstFree, RequirementsOf, NoneAwaited;
    TwoSteps(p, now, start, lower, upper);
    var one := Schedule(p, now, start, lower);
    NoneOnBoard(p, [lower, upper], one.done, upper.key);
    PlainStep(p, now, one, upper);
    var done := Schedule(p, now, one, upper).done;
    assert done[..1] == one.done;
    NoneOnBoard(p, [lower, upper], done, upper.key);
    SecondIsNext(p, now, done);
  }

  lemma FirstJobIsValid(site: Site)
    requires ValidJobs(site.now, site.jobs) && site.jobs != []
    ensures ValidJob(site.jobs[0], site.now)
  {
  }

  lemma PriceIsPayable(b: Building, level: int)
    ensures Fits(NOTHING, ContractPrice(b, level))
  {
    hide ContractCurves.CostComponent;
  }

  /** On any slots, with any jobs: the level above the one under construction is offered if a slot is free. */
  lemma ContractNextAboveJob(site: Site)
    returns (v: Village, duration: (Building, nat) -> Option<real>, target: (Id, int))
    requires Accepted(site) && SomeSlotFree(site) && site.jobs != []
    ensures Offers(site, false, v, ContractProjections(v, duration), target, 30)
    ensures var q := ContractProjections(v, duration); var next := Plan(v, q, target, 30).value.next.value;
      next.work.key.1 == ProblemOf(v, q, 30).levels(next.work.key.0) + 2
  {
    hide Plan, Visit, ScheduleAll, NextStep, PriceAll, ActiveJobs, InitialSlots, FirstFree, ContractRules,
      ContractPrice, ValidJobs, RequirementsOf, NoneAwaited, AllMet;
    BoardIsReady(site);
    FirstIsNow(site);
    FirstJobIsValid(site);
    var b := site.jobs[0].id.building;
    var level: nat := Settled(site, NOTHING).buildings(b);
    v, duration, target := Settled(site, ContractPrice(b, level + 1)), Timed(1.0), (Known(b), level + 2);
    var q, p := ContractProjections(v, duration), SettledProblem(site, v.resources);
    SettledRulesAreMet(site, v.resources, b, 1);
    SettledRulesAreMet(site, v.resources, b, 2);
    TwoLevelsAreFound(p, b, level);
    var keys: seq<Key> := [(b, level + 1), (b, level + 2)];
    var lower, upper := Running((b, level + 1), site.jobs[0]), Todo((b, level + 2), ContractPrice(b, level + 1), 1.0);
    forall active | ActiveJobs(v, site.jobs) == Success(active)
      ensures PriceAll(v, q, active, keys) == Success([lower, upper])
    {
      LevelsOverJob(v, b, active, lower, upper);
    }
    PriceIsPayable(b, level + 1);
    VillagePlan(site, v, q, b, level + 2, keys, [lower, upper]);
    MetRules(p, (b, level + 2));
    MetIsNotAwaited(p, [lower, upper], (b, level + 2));
    UpperIsNext(p, site.now, StartBoard(v, site.capacity), lower, upper);
  }

  // ---------------------------------------------------------------- a next step whose requirement is not even begun

  /** A village with camps but no townhall, and the price of a warehouse in stock. */
  function Young(site: Site): Village {
    Village((b: Building) => if b == Workshop then WorkshopFor(site.capacity)
                             else if b == Timber || b == Claypit || b == Quarry then 1 else 0,
            ContractPrice(Warehouse, 0), site.now, site.jobs)
  }

  function YoungProblem(site: Site, duration: real): Problem {
    ProblemOf(Young(site), ContractProjections(Young(site), Timed(duration)), 30)
  }

  /** A first level whose only requirement is the first level of another building. */
  lemma RequirementIsFoundFirst(p: Problem, lower: Key, upper: Key)
    requires p.maximum >= 1 && lower.1 == 1 && upper.1 == 1 && lower.0 != upper.0
    requires p.levels(lower.0) == 0 && p.levels(upper.0) == 0
    requires p.rules(upper.0, 1) == Some([AtLevel(lower.0, 1)])
    requires p.rules(lower.0, 1).Some? && AllMet(p, p.rules(lower.0, 1).value)
    ensures upper in Universe(p) && Steps(p, upper) == Success([lower, upper])
  {
    hide AllMet, Visit;
    var r := AtLevel(lower.0, 1);
    assert lower in Universe(p) && upper in Universe(p);
    assert [r][..0] == [] && [r][1..] == [];
    assert Sort([r], StepBefore) == [r];
    MetStepIsAdded(p, [], {} + {upper}, lower, []);
    assert [] + [lower] == [lower] && [lower] + [upper] == [lower, upper];
    assert VisitAll(p, [lower], {} + {upper}, []) == Success([lower]);
    assert VisitAll(p, [], {} + {upper}, [r]) == Success([lower]);
    StepIsAdded(p, [], {}, upper, [], [lower]);
  }

  lemma WarehouseIsFound(site: Site, duration: real)
    ensures var p := YoungProblem(site, duration);
      && (Warehouse, 1) in Universe(p) && Steps(p, (Warehouse, 1)) == Success([(Townhall, 1), (Warehouse, 1)])
      && p.rules(Townhall, 1).Some? && AllMet(p, p.rules(Townhall, 1).value)
      && RequirementsOf(p, (Warehouse, 1)) == [AtLevel(Townhall, 1)]
  {
    hide Visit, Universe;
    RequirementIsFoundFirst(YoungProblem(site, duration), (Townhall, 1), (Warehouse, 1));
  }

  lemma YoungPrices(site: Site, duration: real, active: map<Key, Job>)
    requires site.jobs == [] && duration >= 0.0 && ActiveJobs(Young(site), []) == Success(active)
    ensures PriceAll(Young(site), ContractProjections(Young(site), Timed(duration)), active,
                     [(Townhall, 1), (Warehouse, 1)])
      == Success([Todo((Townhall, 1), ContractPrice(Townhall, 0), duration),
                  Todo((Warehouse, 1), ContractPrice(Warehouse, 0), duration)])
    ensures ContractPrice(Warehouse, 0) == Amounts(45.0, 45.0, 35.0, 0.0)
    ensures ContractPrice(Townhall, 0) == Amounts(280.0, 260.0, 240.0, 0.0)
  {
    var v, q := Young(site), ContractProjections(Young(site), Timed(duration));
    var keys: seq<Key> := [(Townhall, 1), (Warehouse, 1)];
    var first, second := Todo((Townhall, 1), ContractPrice(Townhall, 0), duration),
      Todo((Warehouse, 1), ContractPrice(Warehouse, 0), duration);
    assert Price(v, q, active, (Townhall, 1)) == Success(first);
    assert Price(v, q, active, (Warehouse, 1)) == Success(second);
    assert keys[..1] == [(Townhall, 1)] && keys[..1][..0] == [];
    assert PriceAll(v, q, active, keys[..1]) == Success([] + [first]);
    assert [] + [first] + [second] == [first, second];
  }

  /** A first step that counts as complete now leaves a slot free for one that requires it. */
  lemma NotWaitedFor(p: Problem, now: real, start: Board, first: Work, second: Work)
    requires start.slots == seq(|start.slots|, _ => now) && start.slots != [] && start.done == []
    requires first.Todo? && second.Todo? && first.duration >= 0.0 && first.key.1 >= 1 && second.key != first.key
    requires first.duration == 0.0 || (now + first.duration * 1000.0 == 0.0 && |start.slots| >= 2)
    requires !Fits(first.cost, start.remaining) && second.cost == start.remaining
    requires NoneAwaited(p, [first, second], first.key)
    requires RequirementsOf(p, second.key) == [AtLevel(first.key.0, first.key.1)]
    ensures var done := ScheduleAll(p, now, start, [first, second]).done;
      && |done| == 2 && done[0].work == first && done[1].work == second && NextStep(p, now, done, 2) == Some(done[1])
  {
    hide FirstFree, RequirementsOf, NoneAwaited, Lacking;
    TwoSteps(p, now, start, first, second);
    NoneOnBoard(p, [first, second], start.done, first.key);
    PlainStep(p, now, start, first);
    var one := Schedule(p, now, start, first);
    assert one.slots == start.slots[FirstFree(start.slots) := now + first.duration * 1000.0];
    SlotLeft(now, start.slots, FirstFree(start.slots), first.duration);
    var r := AtLevel(first.key.0, first.key.1);
    assert one.done[..0] == [] && [r][..0] == [];
    assert Lookup(one.done, r) == Some(one.done[0]);
    assert ReadyAt(one.done, [r], now) == now;
    NothingLacks(second.cost, one.remaining);
    var done := Schedule(p, now, one, second).done;
    assert done == [one.done[0], done[1]];
    LookupFinds(done, r);
    assert NextStep(p, now, done, 1) == None;
  }

  /** The warehouse is offered although the townhall it requires is neither built nor payable. */
  lemma ContractNextTooEarly(site: Site, instant: bool)
    returns (v: Village, duration: (Building, nat) -> Option<real>, target: (Id, int))
    requires Accepted(site) && site.jobs == [] && (instant || (site.now < 0.0 && site.capacity >= 2))
    ensures Offers(site, instant, v, ContractProjections(v, duration), target, 30)
    ensures var q := ContractProjections(v, duration); var next := Plan(v, q, target, 30).value.next.value;
      && AtLevel(Townhall, 1) in RequirementsOf(ProblemOf(v, q, 30), next.work.key)
      && ProblemOf(v, q, 30).levels(Townhall) == 0
  {
    hide Plan, Visit, ScheduleAll, NextStep, PriceAll, ActiveJobs, FirstFree, ContractRules, ContractPrice,
      ValidJobs, RequirementsOf, NoneAwaited, AllMet;
    var time := if instant then 0.0 else -site.now / 1000.0;
    v, duration, target := Young(site), Timed(time), (Known(Warehouse), 1);
    var q, p := ContractProjections(v, duration), YoungProblem(site, time);
    BoardIsReady(site);
    WarehouseIsFound(site, time);
    NoJobsNoActive(v);
    YoungPrices(site, time, map[]);
    var first, second := Todo((Townhall, 1), ContractPrice(Townhall, 0), time),
      Todo((Warehouse, 1), ContractPrice(Warehouse, 0), time);
    VillagePlan(site, v, q, Warehouse, 1, [(Townhall, 1), (Warehouse, 1)], [first, second]);
    MetRules(p, (Townhall, 1));
    MetIsNotAwaited(p, [first, second], (Townhall, 1));
    NotWaitedFor(p, site.now, StartBoard(v, site.capacity), first, second);
  }

  /**
   With the contract's rules, prices and slots the step offered as next can be begun at once, in every plan made
   on a site, if and only if no slot is free now, or there are no jobs, every new step takes time, and the clock is
   not before time zero unless there is one slot.
   */
  lemma ContractNextCanBeginIff(site: Site, instant: bool)
    ensures (Accepted(site) && SomeSlotFree(site) ==>
               site.jobs == [] && !instant && (site.capacity == 1 || site.now >= 0.0)) <==>
      forall v, duration, target, maximum ::
        Offers(site, instant, v, ContractProjections(v, duration), target, maximum) ==>
          CanBegin(v, ProblemOf(v, ContractProjections(v, duration), maximum),
                   Plan(v, ContractProjections(v, duration), target, maximum).value.next.value)
  {
    hide Plan, Accepted, SomeSlotFree, TakesTime, ContractProjections, RequirementsOf;
    if Accepted(site) && SomeSlotFree(site) && site.jobs != [] {
      var v, duration, target := ContractNextAboveJob(site);
    } else if Accepted(site) && SomeSlotFree(site) && (instant || (site.now < 0.0 && site.capacity != 1)) {
      BoardIsReady(site);
      var v, duration, target := ContractNextTooEarly(site, instant);
    } else {
      forall v, duration, target, maximum | Offers(site, instant, v, ContractProjections(v, duration), target, maximum)
        ensures CanBegin(v, ProblemOf(v, ContractProjections(v, duration), maximum),
                         Plan(v, ContractProjections(v, duration), target, maximum).value.next.value)
      {
        PlanIsAccepted(site, v, ContractProjections(v, duration), target, maximum);
        if !SomeSlotFree(site) {
          NothingStartsNow(site, v, ContractProjections(v, duration), target, maximum);
        } else if site.now >= 0.0 {
          ContractNextCanBegin(v, duration, target, maximum);
        } else {
          FirstStepCanBegin(site, v, ContractProjections(v, duration), target, maximum);
        }
      }
    }
  }
}

/**
 What a plan does not promise in general, and exactly when it does, over all plans the planner returns
 (src/world-game/build-planner.js:98-104, 157-205).
 */
module PlanLimits {
  import opened Wrappers
  import opened Sorting
  import opened DependencySearch
  import opened BuildPlanner
  import opened PlanSoundness
  import opened PlanResult

  // ---------------------------------------------------------------- what is fixed before a plan is asked for

  /** What a caller knows beforehand: the clock, the running jobs and the number of slots. */
  datatype Site = Site(now: real, jobs: seq<Job>, capacity: nat)

  /** A request made on the site. */
  predicate On(site: Site, v: Village, q: Projections) {
    v.now == site.now && v.jobs == site.jobs && q.capacity == Some(site.capacity)
  }

  /** The planner does not refuse the jobs or the slots. */
  ghost predicate Accepted(site: Site) {
    ValidJobs(site.now, site.jobs) && ValidCapacity(Some(site.capacity), site.jobs)
  }

  function SlotTimes(site: Site): seq<real> {
    InitialSlots(site.capacity, site.now, site.jobs)
  }

  lemma PlanIsAccepted(site: Site, v: Village, q: Projections, target: (Id, int), maximum: nat)
    requires On(site, v, q) && Plan(v, q, target, maximum).Success?
    ensures Accepted(site)
  {
    hide Visit, PriceAll, ScheduleAll, NextStep, ActiveJobs;
    ActiveJobsIff(v, v.jobs);
  }

  // ---------------------------------------------------------------- plain villages

  /** `n` levels of one building, from the first. */
  function Levels(b: Building, n: nat): (keys: seq<Key>)
    ensures |keys| == n && forall i :: 0 <= i < n ==> keys[i] == (b, i + 1)
  {
    if n == 0 then [] else Levels(b, n - 1) + [(b, n)]
  }

  /** The first level may have a price nobody can pay; all others are free. */
  function Tag(dear: bool, level: int): Amounts {
    if dear && level == 0 then Amounts(1.0, 0.0, 0.0, 0.0) else NOTHING
  }

  /** A village of nothing, with nothing in stock. */
  function Bare(site: Site): Village {
    Village((b: Building) => 0, NOTHING, site.now, site.jobs)
  }

  /** Rules under which only the townhall requires something, a first timber camp, if `ruled`. */
  function Rules(ruled: bool): (Building, nat) -> Option<seq<Requirement>> {
    (b: Building, l: nat) => Some(if ruled && b == Townhall then [Requirement(Known(Timber), 1)] else [])
  }

  function Plain(site: Site, ruled: bool, dear: bool, duration: real): Projections {
    Projections(Rules(ruled),
                (levels: Building -> int, b: Building) => Some(if b == Townhall then NOTHING else Tag(dear, levels(b))),
                (b: Building, l: nat) => Some(duration), Some(site.capacity))
  }

  lemma {:induction false} LevelsAreFound(p: Problem, b: Building, n: nat, visiting: set<Key>)
    requires 1 <= n <= p.maximum && p.levels(b) == 0
    requires forall l: nat :: p.rules(b, l) == Some([])
    requires forall l :: l <= n ==> (b, l) !in visiting
    ensures (b, n) in Universe(p) && Visit(p, [], visiting, (b, n)) == Success(Levels(b, n))
    decreases n
  {
    var k: Key := (b, n);
    if n > 1 {
      LevelsAreFound(p, b, n - 1, visiting + {k});
    }
    assert k !in Levels(b, n - 1);
  }

  lemma PlainLevelsAreFound(site: Site, dear: bool, duration: real, b: Building, n: nat)
    requires 1 <= n <= 30
    ensures (b, n) in Universe(ProblemOf(Bare(site), Plain(site, false, dear, duration), 30))
    ensures Steps(ProblemOf(Bare(site), Plain(site, false, dear, duration), 30), (b, n)) == Success(Levels(b, n))
  {
    hide Visit;
    LevelsAreFound(ProblemOf(Bare(site), Plain(site, false, dear, duration), 30), b, n, {});
  }

  lemma TownhallIsFound(site: Site, dear: bool, duration: real)
    ensures var p := ProblemOf(Bare(site), Plain(site, true, dear, duration), 30);
      (Townhall, 1) in Universe(p) && Steps(p, (Townhall, 1)) == Success([(Timber, 1), (Townhall, 1)])
  {
    var p := ProblemOf(Bare(site), Plain(site, true, dear, duration), 30);
    var timber: Key := (Timber, 1);
    var townhall: Key := (Townhall, 1);
    var r := Requirement(Known(Timber), 1);
    assert timber in Universe(p) && townhall in Universe(p);
    LevelsAreFound(p, Timber, 1, {townhall});
    assert Levels(Timber, 1) == [timber];
    assert [r][..0] == [];
    assert Sort([r], StepBefore) == [r];
    assert [r][1..] == [];
    assert VisitAll(p, [timber], {townhall}, []) == Success([timber]);
    assert VisitAll(p, [], {townhall}, [r]) == Success([timber]);
    assert p.rules(Townhall, 1) == Some([r]);
    var none: set<Key> := {};
    assert none + {townhall} == {townhall};
    assert p.levels(Townhall) == 0 && townhall !in none;
    assert VisitAll(p, [], none + {townhall}, Sort(p.rules(Townhall, 1).value, StepBefore)) == Success([timber]);
    assert Visit(p, [], none, townhall) == Success([timber] + [townhall]);
    assert [timber] + [townhall] == [(Timber, 1), (Townhall, 1)];
  }

  /** The plan of a village, once its steps and their prices are known. */
  lemma VillagePlan(site: Site, v: Village, q: Projections, b: Building, n: nat, keys: seq<Key>, works: seq<Work>)
    requires Accepted(site) && On(site, v, q) && ValidLevels(v) && Fits(NOTHING, v.resources) && 1 <= n <= 30
    requires (b, n) in Universe(ProblemOf(v, q, 30)) && Steps(ProblemOf(v, q, 30), (b, n)) == Success(keys)
    requires forall active :: ActiveJobs(v, site.jobs) == Success(active) ==>
      PriceAll(v, q, active, keys) == Success(works)
    ensures var r := Plan(v, q, (Known(b), n), 30); var p := ProblemOf(v, q, 30);
      && r.Success?
      && r.value.steps == ScheduleAll(p, site.now, StartBoard(v, site.capacity), works).done
      && r.value.next == NextStep(p, site.now, r.value.steps, |r.value.steps|)
  {
    hide Visit, PriceAll, ScheduleAll, NextStep, ActiveJobs, InitialSlots;
    ActiveJobsIff(v, site.jobs);
  }

  /** Nothing is under construction on building `b`. */
  predicate Idle(site: Site, b: Building) {
    forall i :: 0 <= i < |site.jobs| ==> site.jobs[i].id != Known(b)
  }

  function NewLevels(b: Building, n: nat, dear: bool, duration: real): (works: seq<Work>)
    ensures |works| == n && forall i :: 0 <= i < n ==> works[i] == Todo((b, i + 1), Tag(dear, i), duration)
  {
    if n == 0 then [] else NewLevels(b, n - 1, dear, duration) + [Todo((b, n), Tag(dear, n - 1), duration)]
  }

  lemma {:induction false} LevelsArePriced(site: Site, dear: bool, duration: real, b: Building, n: nat,
          active: map<Key, Job>)
    requires ActiveJobs(Bare(site), site.jobs) == Success(active) && Idle(site, b) && b != Townhall && duration >= 0.0
    ensures PriceAll(Bare(site), Plain(site, false, dear, duration), active, Levels(b, n))
      == Success(NewLevels(b, n, dear, duration))
    decreases n
  {
    hide ActiveJobs;
    if n > 0 {
      LevelsArePriced(site, dear, duration, b, n - 1, active);
      ActiveJobsIff(Bare(site), site.jobs);
      assert !BeingBuilt(Bare(site), site.jobs, (b, n));
    }
  }

  /** The plan for `n` levels of an idle building in a bare village. */
  lemma PlainPlan(site: Site, dear: bool, duration: real, b: Building, n: nat)
    requires Accepted(site) && Idle(site, b) && b != Townhall && duration >= 0.0 && 1 <= n <= 30
    ensures var q := Plain(site, false, dear, duration); var r := Plan(Bare(site), q, (Known(b), n), 30);
      var p := ProblemOf(Bare(site), q, 30);
      && r.Success?
      && r.value.steps
         == ScheduleAll(p, site.now, StartBoard(Bare(site), site.capacity), NewLevels(b, n, dear, duration)).done
      && r.value.next == NextStep(p, site.now, r.value.steps, |r.value.steps|)
  {
    hide Visit, PriceAll, ScheduleAll, NextStep, ActiveJobs, InitialSlots, Levels, NewLevels;
    PlainLevelsAreFound(site, dear, duration, b, n);
    forall active | ActiveJobs(Bare(site), site.jobs) == Success(active)
      ensures PriceAll(Bare(site), Plain(site, false, dear, duration), active, Levels(b, n))
        == Success(NewLevels(b, n, dear, duration))
    {
      LevelsArePriced(site, dear, duration, b, n, active);
    }
    VillagePlan(site, Bare(site), Plain(site, false, dear, duration), b, n, Levels(b, n),
                NewLevels(b, n, dear, duration));
  }

  // ---------------------------------------------------------------- short schedules

  function Before(site: Site): Board {
    StartBoard(Bare(site), site.capacity)
  }

  lemma BoardIsReady(site: Site)
    requires Accepted(site)
    ensures 1 <= site.capacity <= 3 && |site.jobs| <= site.capacity
    ensures Before(site) == Board(SlotTimes(site), NOTHING, []) && |SlotTimes(site)| == site.capacity
    ensures SlotsFrom(site.now, SlotTimes(site))
  {
    hide InitialSlots;
    InitialSlotsFrom(site.capacity, site.now, site.jobs);
  }

  /** No step on the board is one that `key` has to wait for. */
  ghost predicate AwaitsNothing(p: Problem, done: seq<Scheduled>, key: Key) {
    forall r :: r in RequirementsOf(p, key) ==> Lookup(done, r).None?
  }

  lemma {:induction false} ReadyNow(done: seq<Scheduled>, requirements: seq<Requirement>, now: real)
    requires forall r :: r in requirements ==> Lookup(done, r).None?
    ensures ReadyAt(done, requirements, now) == now
  {
    if requirements != [] {
      ReadyNow(done, requirements[..|requirements| - 1], now);
    }
  }

  /** A step that waits for nothing on the board starts when the slot that is free first is free. */
  lemma PlainStep(p: Problem, now: real, board: Board, work: Work)
    requires board.slots != [] && SlotsFrom(now, board.slots) && work.Todo? && AwaitsNothing(p, board.done, work.key)
    ensures var f := FirstFree(board.slots); var after := Schedule(p, now, board, work);
      && |after.done| == |board.done| + 1 && after.done[..|board.done|] == board.done
      && var s := after.done[|board.done|];
         && s.work == work && s.slot == f
         && s.start == board.slots[f] && s.completes == s.start + work.duration * 1000.0
         && after.slots == board.slots[f := s.completes]
         && s.affordable == Fits(work.cost, board.remaining)
         && after.remaining == if s.affordable then Minus(board.remaining, work.cost) else board.remaining
  {
    hide FirstFree, Lacking, RequirementsOf, ReadyAt;
    ReadyNow(board.done, RequirementsOf(p, work.key), now);
    NothingLacks(work.cost, board.remaining);
  }

  lemma RulesOf(site: Site, ruled: bool, dear: bool, duration: real, b: Building, l: nat)
    ensures var p := ProblemOf(Bare(site), Plain(site, ruled, dear, duration), 30);
      RequirementsOf(p, (b, l)) == if ruled && b == Townhall then [Requirement(Known(Timber), 1)] else []
  {
  }

  /** Two new levels of an idle building. */
  lemma TwoNewLevels(site: Site, dear: bool, duration: real, b: Building)
    requires Accepted(site) && Idle(site, b) && b != Townhall && duration >= 0.0
    ensures var slots := SlotTimes(site);
      var r := Plan(Bare(site), Plain(site, false, dear, duration), (Known(b), 2), 30);
      && slots != [] && r.Success? && |r.value.steps| == 2
      && var first, second, f := r.value.steps[0], r.value.steps[1], FirstFree(slots);
         && first.work == Todo((b, 1), Tag(dear, 0), duration) && second.work == Todo((b, 2), NOTHING, duration)
         && first.start == slots[f] && first.completes == slots[f] + duration * 1000.0
         && second.start == slots[f := first.completes][FirstFree(slots[f := first.completes])]
         && first.affordable == !dear && second.affordable
         && r.value.next
            == NextStep(ProblemOf(Bare(site), Plain(site, false, dear, duration), 30), site.now, [first, second], 2)
  {
    hide Visit, PriceAll, ScheduleAll, Schedule, NextStep, ActiveJobs, InitialSlots, FirstFree, RequirementsOf,
      ProblemOf, Plan;
    BoardIsReady(site);
    PlainPlan(site, dear, duration, b, 2);
    var p := ProblemOf(Bare(site), Plain(site, false, dear, duration), 30);
    var works := NewLevels(b, 2, dear, duration);
    assert works == [works[0], works[1]];
    RulesOf(site, false, dear, duration, b, 1);
    RulesOf(site, false, dear, duration, b, 2);
    PlainStep(p, site.now, Before(site), works[0]);
    var one := Schedule(p, site.now, Before(site), works[0]);
    SlotStays(site.now, Before(site).slots, FirstFree(Before(site).slots), duration);
    PlainStep(p, site.now, one, works[1]);
    TwoSteps(p, site.now, Before(site), works[0], works[1]);
    var two := Schedule(p, site.now, one, works[1]);
    assert two.done == [two.done[0], two.done[1]];
  }

  lemma SlotStays(now: real, slots: seq<real>, f: nat, duration: real)
    requires f < |slots| && SlotsFrom(now, slots) && duration >= 0.0
    ensures SlotsFrom(now, slots[f := slots[f] + duration * 1000.0])
  {
  }

  /** One level under construction and a free one above it. */
  lemma LevelOnTopOfJob(site: Site, i: nat)
    requires Accepted(site) && i < |site.jobs|
    ensures var slots := SlotTimes(site); var job := site.jobs[i];
      && slots != [] && job.id.Known?
      && var r := Plan(Bare(site), Plain(site, false, false, 1.0), (job.id, 2), 30);
      && r.Success? && |r.value.steps| == 2
      && var first, second := r.value.steps[0], r.value.steps[1];
         && first.work == Running((job.id.building, 1), job) && second.work == Todo((job.id.building, 2), NOTHING, 1.0)
         && first.slot == job.slot && first.completes == job.completesAt
         && second.slot == FirstFree(slots) && second.start == slots[FirstFree(slots)] && second.affordable
         && r.value.next
            == NextStep(ProblemOf(Bare(site), Plain(site, false, false, 1.0), 30), site.now, [first, second], 2)
  {
    hide Visit, PriceAll, ScheduleAll, NextStep, ActiveJobs, InitialSlots, FirstFree, RequirementsOf, ProblemOf, Plan;
    var job := site.jobs[i];
    assert ValidJob(job, site.now);
    var b := job.id.building;
    BoardIsReady(site);
    PlainLevelsAreFound(site, false, 1.0, b, 2);
    var q, p := Plain(site, false, false, 1.0), ProblemOf(Bare(site), Plain(site, false, false, 1.0), 30);
    var works := [Running((b, 1), job), Todo((b, 2), NOTHING, 1.0)];
    forall active | ActiveJobs(Bare(site), site.jobs) == Success(active)
      ensures PriceAll(Bare(site), q, active, Levels(b, 2)) == Success(works)
    {
      JobIsPriced(site, i, active);
    }
    VillagePlan(site, Bare(site), q, b, 2, Levels(b, 2), works);
    TwoSteps(p, site.now, Before(site), works[0], works[1]);
    var one := Schedule(p, site.now, Before(site), works[0]);
    RulesOf(site, false, false, 1.0, b, 2);
    PlainStep(p, site.now, one, works[1]);
    var two := Schedule(p, site.now, one, works[1]);
    assert two.done == [two.done[0], two.done[1]];
  }

  lemma JobIsPriced(site: Site, i: nat, active: map<Key, Job>)
    requires ValidJobs(site.now, site.jobs) && i < |site.jobs| && site.jobs[i].id.Known?
    requires ActiveJobs(Bare(site), site.jobs) == Success(active)
    ensures var b := site.jobs[i].id.building;
      && PriceAll(Bare(site), Plain(site, false, false, 1.0), active, Levels(b, 2))
         == Success([Running((b, 1), site.jobs[i]), Todo((b, 2), NOTHING, 1.0)])
      && PriceAll(Bare(site), Plain(site, false, false, 1.0), active, Levels(b, 1))
         == Success([Running((b, 1), site.jobs[i])])
  {
    hide ActiveJobs;
    var b := site.jobs[i].id.building;
    ActiveJobIs(Bare(site), i, active);
    ActiveJobsIff(Bare(site), site.jobs);
    assert !BeingBuilt(Bare(site), site.jobs, (b, 2));
    var v, q := Bare(site), Plain(site, false, false, 1.0);
    assert Levels(b, 2)[..1] == Levels(b, 1) && Levels(b, 1)[..0] == [];
    assert Price(v, q, active, (b, 1)) == Success(Running((b, 1), site.jobs[i]));
    assert Price(v, q, active, (b, 2)) == Success(Todo((b, 2), NOTHING, 1.0));
    var one, two := [Running((b, 1), site.jobs[i])], [Running((b, 1), site.jobs[i]), Todo((b, 2), NOTHING, 1.0)];
    assert [] + one == one && one + [Todo((b, 2), NOTHING, 1.0)] == two;
    assert PriceAll(v, q, active, Levels(b, 1)) == Success(one);
    assert PriceAll(v, q, active, Levels(b, 2)) == Success(two);
  }

  lemma ActiveJobIs(v: Village, i: nat, active: map<Key, Job>)
    requires ValidLevels(v) && ValidJobs(v.now, v.jobs) && i < |v.jobs| && v.jobs[i].id.Known?
    requires ActiveJobs(v, v.jobs) == Success(active)
    ensures var k: Key := (v.jobs[i].id.building, v.buildings(v.jobs[i].id.building) + 1);
      k in active && active[k] == v.jobs[i]
  {
    hide ActiveJobs;
    var k: Key := (v.jobs[i].id.building, v.buildings(v.jobs[i].id.building) + 1);
    ActiveJobsIff(v, v.jobs);
    ActiveJobsAreJobs(v, v.jobs);
    assert BeingBuilt(v, v.jobs, k);
    var m :| 0 <= m < |v.jobs| && v.jobs[m] == active[k];
  }

  /** With at most three jobs, one of four buildings is idle. */
  lemma SomeIsIdle(site: Site) returns (b: Building)
    requires |site.jobs| <= 3
    ensures Idle(site, b) && b != Townhall
  {
    if Idle(site, Timber) {
      b := Timber;
    } else if Idle(site, Claypit) {
      b := Claypit;
    } else if Idle(site, Quarry) {
      b := Quarry;
    } else {
      b := Goldmine;
      var i :| 0 <= i < |site.jobs| && site.jobs[i].id == Known(Timber);
      var j :| 0 <= j < |site.jobs| && site.jobs[j].id == Known(Claypit);
      var k :| 0 <= k < |site.jobs| && site.jobs[k].id == Known(Quarry);
      assert {i, j, k} == {0, 1, 2};
    }
  }

  // ---------------------------------------------------------------- levels of one building

  predicate LevelBelow(lower: Key, upper: Key) {
    lower.0 == upper.0 && lower.1 + 1 == upper.1
  }

  /** Every new level starts no earlier than the level below it, if that is in the plan, completes. */
  ghost predicate LevelsInOrder(done: seq<Scheduled>) {
    forall i, j :: (0 <= i < |done| && 0 <= j < |done| && done[j].work.Todo?
                    && LevelBelow(done[i].work.key, done[j].work.key)) ==>
      done[i].completes <= done[j].start
  }

  /** With one slot, and no job beside it that is still running, everything earlier in the list is over. */
  ghost predicate Sequential(done: seq<Scheduled>) {
    forall i, j :: 0 <= i < j < |done| && done[j].work.Todo? ==> done[i].completes <= done[j].start
  }

  /** One slot, and no job still running outside of it. */
  predicate OneSlot(site: Site) {
    && site.capacity == 1
    && forall i :: 0 <= i < |site.jobs| && site.jobs[i].slot < 0 ==> site.jobs[i].completesAt <= site.now
  }

  lemma OneSlotIsSequential(site: Site, v: Village, q: Projections, target: (Id, int), maximum: nat)
    requires On(site, v, q) && OneSlot(site) && Plan(v, q, target, maximum).Success?
    ensures Sequential(Plan(v, q, target, maximum).value.steps)
  {
    hide Plan, Visit, ScheduleAll, InitialSlots, StartsAtOnce, TotalPaid, RequirementsOf, ProvidedBefore;
    PlanIsAccepted(site, v, q, target, maximum);
    PlanIsSound(v, q, target, maximum);
    PlanIsGreedy(v, q, target, maximum);
    var done := Plan(v, q, target, maximum).value.steps;
    forall i, j | 0 <= i < j < |done| && done[j].work.Todo?
      ensures done[i].completes <= done[j].start
    {
      if done[i].work.Todo? {
        assert Apart(done[i], done[j]);
      } else {
        var m :| 0 <= m < |v.jobs| && v.jobs[m] == done[i].work.job;
        assert v.jobs[m] in v.jobs;
      }
    }
  }

  lemma SequentialKeepsLevels(site: Site, v: Village, q: Projections, target: (Id, int), maximum: nat)
    requires On(site, v, q) && Plan(v, q, target, maximum).Success?
    requires Sequential(Plan(v, q, target, maximum).value.steps)
    ensures LevelsInOrder(Plan(v, q, target, maximum).value.steps)
  {
    hide Plan, Visit, Executable;
    var plan, p := Plan(v, q, target, maximum).value, ProblemOf(v, q, maximum);
    PlanIsSound(v, q, target, maximum);
    var keys := PlannedKeys(plan);
    PlanIsExecutableAndLeast(p, (target.0.building, target.1));
    ExecutableStepsAreDistinct(p, keys);
    forall i, j | 0 <= i < |keys| && 0 <= j < |keys| && keys[i].0 == keys[j].0 && keys[i].1 + 1 == keys[j].1
      ensures i < j
    {
      LevelBelowIsEarlier(p, keys, i, j);
    }
  }

  lemma LevelBelowIsEarlier(p: Problem, keys: seq<Key>, i: nat, j: nat)
    requires Executable(p, keys) && i < |keys| && j < |keys|
    requires keys[i].0 == keys[j].0 && keys[i].1 + 1 == keys[j].1
    ensures i < j
  {
    hide Executable;
    ExecutableStepsAreDistinct(p, keys);
    StepsPassed(p, keys, keys[i].0, keys[i].1);
    NeedsComeEarlier(p, keys, j);
    assert keys[i] in keys;
    if keys[j].1 > 1 {
      var m :| 0 <= m < j && keys[..j][m] == keys[i];
      assert keys[m] == keys[i];
    }
  }

  /** The two levels overlap: the upper one starts before the lower one completes. */
  lemma UpperLevelIsEarly(site: Site) returns (v: Village, q: Projections, target: (Id, int))
    requires Accepted(site) && !OneSlot(site)
    ensures On(site, v, q) && Plan(v, q, target, 30).Success? && !LevelsInOrder(Plan(v, q, target, 30).value.steps)
  {
    hide Plan, Visit, NextStep, InitialSlots, ValidJobs;
    BoardIsReady(site);
    var slots := SlotTimes(site);
    v := Bare(site);
    if site.capacity == 1 {
      var i :| 0 <= i < |site.jobs| && site.jobs[i].slot < 0 && site.jobs[i].completesAt > site.now;
      q, target := Plain(site, false, false, 1.0), (site.jobs[i].id, 2);
      LevelOnTopOfJob(site, i);
      LoneSlotIsFree(site, i);
      var done := Plan(v, q, target, 30).value.steps;
      assert done[0].completes > done[1].start;
    } else {
      var b := SomeIsIdle(site);
      var latest := Latest(slots);
      var duration := (latest - site.now + 1.0) / 1000.0;
      q, target := Plain(site, false, false, duration), (Known(b), 2);
      TwoNewLevels(site, false, duration, b);
      var done := Plan(v, q, target, 30).value.steps;
      OtherSlotIsSooner(site.now, slots, FirstFree(slots), latest, duration);
      assert done[0].completes > done[1].start;
    }
  }

  /** The latest of the slot times. */
  function Latest(slots: seq<real>): (latest: real)
    requires slots != []
    ensures latest in slots && forall i :: 0 <= i < |slots| ==> slots[i] <= latest
  {
    var n := |slots| - 1;
    if n == 0 then slots[0]
    else
      assert forall i :: 0 <= i < n ==> slots[..n][i] == slots[i];
      var earlier := Latest(slots[..n]);
      if earlier < slots[n] then slots[n] else earlier
  }

  lemma LoneSlotIsFree(site: Site, i: nat)
    requires site.capacity == 1 && |site.jobs| <= 1 && i < |site.jobs| && site.jobs[i].slot < 0
    ensures SlotTimes(site) == [site.now] && FirstFree(SlotTimes(site)) == 0
  {
    assert site.jobs[..0] == [];
    assert InitialSlots(1, site.now, []) == [site.now];
  }

  lemma OtherSlotIsSooner(now: real, slots: seq<real>, f: nat, latest: real, duration: real)
    requires |slots| > 1 && f == FirstFree(slots) && SlotsFrom(now, slots) && latest in slots
    requires forall i :: 0 <= i < |slots| ==> slots[i] <= latest
    requires duration == (latest - now + 1.0) / 1000.0
    ensures duration > 0.0
    ensures var after := slots[f := slots[f] + duration * 1000.0];
      after[FirstFree(after)] < slots[f] + duration * 1000.0
  {
    hide FirstFree;
    var after := slots[f := slots[f] + duration * 1000.0];
    assert duration * 1000.0 == latest - now + 1.0;
    var other := if f == 0 then 1 else 0;
    assert after[FirstFree(after)] <= after[other];
  }

  /**
   The levels of one building run one after the other, in every plan made on a site, if and only if the site
   has one slot and no job still running outside of it: requirements are waited for, the building's own
   level below is not.
   */
  lemma LevelsRunInOrderIff(site: Site)
    ensures (Accepted(site) ==> OneSlot(site)) <==>
      forall v, q, target, maximum :: On(site, v, q) && Plan(v, q, target, maximum).Success? ==>
        LevelsInOrder(Plan(v, q, target, maximum).value.steps)
  {
    hide Plan, LevelsInOrder, Sequential, Accepted, On;
    if Accepted(site) && !OneSlot(site) {
      var v, q, target := UpperLevelIsEarly(site);
    } else {
      forall v, q, target, maximum | On(site, v, q) && Plan(v, q, target, maximum).Success?
        ensures LevelsInOrder(Plan(v, q, target, maximum).value.steps)
      {
        PlanIsAccepted(site, v, q, target, maximum);
        OneSlotIsSequential(site, v, q, target, maximum);
        SequentialKeepsLevels(site, v, q, target, maximum);
      }
    }
  }

  /** At second one, with two free slots: two timber camps of one second each run at the same time. */
  lemma TwoCampsAtOnce()
    ensures var r := Plan(Bare(Site(1.0, [], 2)), Plain(Site(1.0, [], 2), false, false, 1.0), (Known(Timber), 2), 30);
      && r.Success? && |r.value.steps| == 2
      && r.value.steps[0].work.key == (Timber, 1) && r.value.steps[0].completes == 1001.0
      && r.value.steps[1].work.key == (Timber, 2) && r.value.steps[1].start == 1.0
  {
    hide Plan, NextStep;
    var site := Site(1.0, [], 2);
    TwoNewLevels(site, false, 1.0, Timber);
    assert SlotTimes(site) == [1.0, 1.0];
    assert [1.0, 1.0][..1] == [1.0] && [1001.0, 1.0][..1] == [1001.0];
    assert [1.0, 1.0][0 := 1001.0] == [1001.0, 1.0];
  }

  // ---------------------------------------------------------------- the next step

  /** The step can be begun at once: the building's next level, its requirements met, its price in stock. */
  ghost predicate CanBegin(v: Village, p: Problem, s: Scheduled) {
    && s.work.Todo? && s.start == v.now && Fits(s.work.cost, v.resources)
    && s.work.key.1 == p.levels(s.work.key.0) + 1
    && forall r :: r in RequirementsOf(p, s.work.key) ==> r.id.Known? && p.levels(r.id.building) >= r.level
  }

  /** A plan made on the site offers a next step; if not `instant`, all its new steps take time. */
  ghost predicate Offers(site: Site, instant: bool, v: Village, q: Projections, target: (Id, int), maximum: nat) {
    && On(site, v, q) && Plan(v, q, target, maximum).Success? && Plan(v, q, target, maximum).value.next.Some?
    && (instant || TakesTime(Plan(v, q, target, maximum).value))
  }

  predicate SomeSlotFree(site: Site) {
    exists c :: 0 <= c < |SlotTimes(site)| && SlotTimes(site)[c] <= site.now
  }

  /** If no slot is free now, no step starts now. */
  lemma NothingStartsNow(site: Site, v: Village, q: Projections, target: (Id, int), maximum: nat)
    requires On(site, v, q) && !SomeSlotFree(site) && Plan(v, q, target, maximum).Success?
    ensures Plan(v, q, target, maximum).value.next.None?
  {
    hide Plan, Visit, ScheduleAll, NextStep, PriceAll, ActiveJobs, Executable, InitialSlots;
    var keys, active, works := PlanDerives(v, q, target, maximum);
    var plan, p := Plan(v, q, target, maximum).value, ProblemOf(v, q, maximum);
    StartIsReady(v, q, p, keys, active, works, plan);
    assert StartBoard(v, q.capacity.value).slots == SlotTimes(site);
    StepsStartLate(p, v.now, StartBoard(v, q.capacity.value), works);
    if plan.next.Some? {
      var j := NextStepStarts(p, v.now, plan.steps, |plan.steps|);
    }
  }

  /** Every slot is taken beyond now, and every new step starts later than now. */
  ghost predicate AllLate(now: real, board: Board) {
    && (forall c :: 0 <= c < |board.slots| ==> board.slots[c] > now)
    && (forall i :: 0 <= i < |board.done| && board.done[i].work.Todo? ==> board.done[i].start > now)
  }

  lemma {:induction false} StepsStartLate(p: Problem, now: real, start: Board, works: seq<Work>)
    requires start.slots != [] && ValidWorks(now, works) && AllLate(now, start)
    ensures AllLate(now, ScheduleAll(p, now, start, works))
  {
    hide Schedule, AllLate;
    if works != [] {
      FrontWorks(now, works);
      StepsStartLate(p, now, start, works[..|works| - 1]);
      StepStartsLate(p, now, ScheduleAll(p, now, start, works[..|works| - 1]), works[|works| - 1]);
    }
  }

  lemma StepStartsLate(p: Problem, now: real, before: Board, work: Work)
    requires before.slots != [] && ValidWork(now, work) && AllLate(now, before)
    ensures AllLate(now, Schedule(p, now, before, work))
  {
    hide ReadyAt, Lacking, RequirementsOf;
  }

  /** One slot, no jobs, steps that take time: the next step is the first of the plan. */
  lemma FirstStepCanBegin(site: Site, v: Village, q: Projections, target: (Id, int), maximum: nat)
    requires On(site, v, q) && site.jobs == [] && site.capacity == 1
    requires Plan(v, q, target, maximum).Success? && Plan(v, q, target, maximum).value.next.Some?
    requires TakesTime(Plan(v, q, target, maximum).value)
    ensures CanBegin(v, ProblemOf(v, q, maximum), Plan(v, q, target, maximum).value.next.value)
  {
    hide Plan, Visit, ScheduleAll, NextStep, PriceAll, ActiveJobs, Executable, InitialSlots, Lookup, RequirementsOf,
      StartsAtOnce;
    NextIsAffordable(v, q, target, maximum);
    OneSlotIsSequential(site, v, q, target, maximum);
    PlanIsGreedy(v, q, target, maximum);
    var keys, active, works := PlanDerives(v, q, target, maximum);
    var plan, p := Plan(v, q, target, maximum).value, ProblemOf(v, q, maximum);
    var j := NextStepStarts(p, v.now, plan.steps, |plan.steps|);
    assert plan.steps[0].work.Todo?;
    assert j == 0;
    PlanIsSound(v, q, target, maximum);
    FirstStepIsBuildable(v, q, target, maximum);
  }

  lemma FirstStepIsBuildable(v: Village, q: Projections, target: (Id, int), maximum: nat)
    requires Plan(v, q, target, maximum).Success? && |Plan(v, q, target, maximum).value.steps| > 0
    ensures var p := ProblemOf(v, q, maximum); var k := Plan(v, q, target, maximum).value.steps[0].work.key;
      && k.1 == p.levels(k.0) + 1
      && forall r :: r in RequirementsOf(p, k) ==> r.id.Known? && p.levels(r.id.building) >= r.level
  {
    hide Plan, Visit, Executable;
    PlanIsSound(v, q, target, maximum);
    var p, keys := ProblemOf(v, q, maximum), PlannedKeys(Plan(v, q, target, maximum).value);
    PlanIsExecutableAndLeast(p, (target.0.building, target.1));
    NeedsComeEarlier(p, keys, 0);
    assert keys[..0] == [];
  }

  /** A next step that cannot begin: the level below it is still under construction, or not begun, or takes no time. */
  lemma NextIsTooHigh(site: Site, instant: bool) returns (v: Village, q: Projections, target: (Id, int))
    requires Accepted(site) && SomeSlotFree(site) && !(site.jobs == [] && site.capacity == 1 && !instant)
    ensures On(site, v, q) && Plan(v, q, target, 30).Success?
    ensures var plan := Plan(v, q, target, 30).value;
      && plan.next.Some? && (instant || TakesTime(plan))
      && plan.next.value.work.key.1 == 2 && ProblemOf(v, q, 30).levels(plan.next.value.work.key.0) == 0
  {
    hide Plan, Visit, InitialSlots, ValidJobs, FirstFree;
    BoardIsReady(site);
    var slots := SlotTimes(site);
    var c :| 0 <= c < |slots| && slots[c] <= site.now;
    assert slots[FirstFree(slots)] == site.now;
    v := Bare(site);
    if site.jobs != [] {
      q, target := Plain(site, false, false, 1.0), (site.jobs[0].id, 2);
      LevelOnTopOfJob(site, 0);
      RulesOf(site, false, false, 1.0, site.jobs[0].id.building, 2);
      var done := Plan(v, q, target, 30).value.steps;
      assert done == [done[0], done[1]];
      SecondIsNext(ProblemOf(v, q, 30), site.now, done);
    } else {
      var duration := if site.capacity == 1 then 0.0 else 1.0;
      q, target := Plain(site, false, true, duration), (Known(Timber), 2);
      TwoNewLevels(site, true, duration, Timber);
      RulesOf(site, false, true, duration, Timber, 2);
      StillFree(site, FirstFree(slots), duration);
      var done := Plan(v, q, target, 30).value.steps;
      assert done == [done[0], done[1]];
      SecondIsNext(ProblemOf(v, q, 30), site.now, done);
    }
  }

  /** One of several slots that are free now is put to use, or the only one for no time: one is still free. */
  lemma SlotLeft(now: real, slots: seq<real>, f: nat, duration: real)
    requires f < |slots| && slots == seq(|slots|, _ => now) && duration >= 0.0
    requires duration == 0.0 || |slots| >= 2
    ensures var after := slots[f := now + duration * 1000.0]; after[FirstFree(after)] == now
  {
    hide FirstFree;
    var after := slots[f := now + duration * 1000.0];
    var other := if |slots| == 1 then 0 else if f == 0 then 1 else 0;
    assert after[other] == now;
    assert after[FirstFree(after)] <= after[other];
  }

  lemma StillFree(site: Site, f: nat, duration: real)
    requires site.jobs == [] && f < site.capacity && |SlotTimes(site)| == site.capacity
    requires duration == if site.capacity == 1 then 0.0 else 1.0
    ensures var after := SlotTimes(site)[f := SlotTimes(site)[f] + duration * 1000.0];
      after[FirstFree(after)] == site.now
  {
    SlotLeft(site.now, SlotTimes(site), f, duration);
  }

  lemma SecondIsNext(p: Problem, now: real, done: seq<Scheduled>)
    requires |done| == 2 && !StartsNext(p, now, done, done[0])
    requires done[1].work.Todo? && done[1].start <= now && done[1].affordable
    requires AwaitsNothing(p, done, done[1].work.key)
    ensures NextStep(p, now, done, 2) == Some(done[1])
  {
    assert NextStep(p, now, done, 1) == None;
  }

  /**
   In every plan made on a site the step offered as next can be begun at once, if and only if no slot is free
   now (then none is offered), or the site has one slot and no jobs and every new step takes time.
   */
  lemma NextCanBeginIff(site: Site, instant: bool)
    ensures (Accepted(site) && SomeSlotFree(site) ==> site.jobs == [] && site.capacity == 1 && !instant) <==>
      forall v, q, target, maximum :: Offers(site, instant, v, q, target, maximum) ==>
        CanBegin(v, ProblemOf(v, q, maximum), Plan(v, q, target, maximum).value.next.value)
  {
    hide Plan, Accepted, On, SomeSlotFree, TakesTime;
    if Accepted(site) && SomeSlotFree(site) && !(site.jobs == [] && site.capacity == 1 && !instant) {
      var v, q, target := NextIsTooHigh(site, instant);
    } else {
      forall v, q, target, maximum | Offers(site, instant, v, q, target, maximum)
        ensures CanBegin(v, ProblemOf(v, q, maximum), Plan(v, q, target, maximum).value.next.value)
      {
        PlanIsAccepted(site, v, q, target, maximum);
        if SomeSlotFree(site) {
          FirstStepCanBegin(site, v, q, target, maximum);
        } else {
          NothingStartsNow(site, v, q, target, maximum);
        }
      }
    }
  }

  /** At second one, a timber camp under construction until second ten: the next step offered is its second level. */
  lemma NextAboveRunningJob()
    ensures var site := Site(1.0, [Job(true, Known(Timber), 0, 10.0)], 2);
      var q := Plain(site, false, false, 1.0); var r := Plan(Bare(site), q, (Known(Timber), 2), 30);
      && r.Success? && r.value.next.Some? && r.value.next.value.work.key == (Timber, 2)
      && r.value.next.value.start == 1.0 && ProblemOf(Bare(site), q, 30).levels(Timber) == 0
  {
    hide Plan, FirstFree;
    var job := Job(true, Known(Timber), 0, 10.0);
    var site := Site(1.0, [job], 2);
    var q := Plain(site, false, false, 1.0);
    assert [job][..0] == [];
    assert InitialSlots(2, 1.0, []) == [1.0, 1.0];
    assert SlotTimes(site) == [10.0, 1.0];
    assert [10.0, 1.0][FirstFree([10.0, 1.0])] <= [10.0, 1.0][1];
    LevelOnTopOfJob(site, 0);
    RulesOf(site, false, false, 1.0, Timber, 2);
    var done := Plan(Bare(site), q, (Known(Timber), 2), 30).value.steps;
    assert done == [done[0], done[1]];
    SecondIsNext(ProblemOf(Bare(site), q, 30), 1.0, done);
  }

  // ---------------------------------------------------------------- running jobs and slots

  /** A job of the site ends later than its slot is taken to be free. */
  lemma SomeJobEndsLater(site: Site) returns (i: nat, slot: nat)
    requires !LastIsLatest(site.jobs, site.capacity)
    ensures i < |site.jobs| && slot == site.jobs[i].slot < site.capacity
    ensures SlotTimes(site)[slot] < site.jobs[i].completesAt
  {
    var m, j :| 0 <= m <= j < |site.jobs| && OnSlot(site.jobs[m], site.capacity)
      && site.jobs[m].slot == site.jobs[j].slot && LastOnSlot(site.jobs, j)
      && site.jobs[m].completesAt > site.jobs[j].completesAt;
    LastJobHolds(site.capacity, site.now, site.jobs, j);
    i, slot := m, site.jobs[m].slot;
  }

  function SlotsBefore(slots: seq<real>, time: real): set<nat> {
    set c: nat | c < |slots| && slots[c] < time
  }

  /** Steps that last beyond `time` use up the slots free before it; sooner or later one goes on `slot`. */
  lemma {:induction false} ForcedOnto(p: Problem, now: real, start: Board, works: seq<Work>, slot: nat, time: real)
    requires slot < |start.slots| && start.slots[slot] < time && start.done == [] && SlotsFrom(now, start.slots)
    requires forall i :: 0 <= i < |works| ==>
      works[i].Todo? && RequirementsOf(p, works[i].key) == [] && works[i].duration * 1000.0 >= time - now
      && works[i].duration >= 0.0
    ensures var r := ScheduleAll(p, now, start, works);
      && SlotsFrom(now, r.slots)
      && ((exists k :: 0 <= k < |r.done| && r.done[k].work.Todo? && r.done[k].slot == slot && r.done[k].start < time)
          || (r.slots[slot] < time && |SlotsBefore(r.slots, time)| + |works| <= |SlotsBefore(start.slots, time)|))
  {
    hide Schedule, FirstFree, RequirementsOf, SlotsBefore;
    if works != [] {
      var front, last := works[..|works| - 1], works[|works| - 1];
      ForcedOnto(p, now, start, front, slot, time);
      var before := ScheduleAll(p, now, start, front);
      PlainStep(p, now, before, last);
      var f := FirstFree(before.slots);
      SlotStays(now, before.slots, f, last.duration);
      var after := Schedule(p, now, before, last);
      var done := before.done;
      if k :| 0 <= k < |done| && done[k].work.Todo? && done[k].slot == slot && done[k].start < time {
        assert after.done[k] == before.done[k];
      } else if f == slot {
        assert after.done[|before.done|].slot == slot;
      } else {
        OneSlotLess(before.slots, f, after.slots[f], time);
      }
    }
  }

  lemma OneSlotLess(slots: seq<real>, f: nat, later: real, time: real)
    requires f < |slots| && slots[f] < time <= later
    ensures |SlotsBefore(slots[f := later], time)| + 1 == |SlotsBefore(slots, time)|
  {
    assert SlotsBefore(slots, time) == SlotsBefore(slots[f := later], time) + {f};
  }

  lemma {:induction false} SlotCount(slots: seq<real>, time: real)
    ensures |SlotsBefore(slots, time)| <= |slots|
  {
    if slots != [] {
      var n := |slots| - 1;
      SlotCount(slots[..n], time);
      assert SlotsBefore(slots, time) == SlotsBefore(slots[..n], time) + if slots[n] < time then {n as nat} else {};
    }
  }

  /** A new step is put on a slot before a running job there is over. */
  lemma StepRunsIntoJob(site: Site) returns (v: Village, q: Projections, target: (Id, int))
    requires Accepted(site) && !LastIsLatest(site.jobs, site.capacity)
    ensures On(site, v, q) && Plan(v, q, target, 30).Success?
    ensures !ClearOfJobs(site.jobs, Plan(v, q, target, 30).value.steps)
  {
    hide Plan, Visit, NextStep, InitialSlots, ValidJobs, LastIsLatest, ScheduleAll, RequirementsOf, SlotsBefore;
    BoardIsReady(site);
    var i, slot := SomeJobEndsLater(site);
    var slots, time, n := SlotTimes(site), site.jobs[i].completesAt, site.capacity;
    var b := SomeIsIdle(site);
    var duration := (time - site.now) / 1000.0;
    assert duration * 1000.0 == time - site.now && duration > 0.0;
    v, q, target := Bare(site), Plain(site, false, false, duration), (Known(b), n);
    PlainPlan(site, false, duration, b, n);
    var p, works := ProblemOf(v, q, 30), NewLevels(b, n, false, duration);
    forall m | 0 <= m < |works|
      ensures RequirementsOf(p, works[m].key) == []
    {
      RulesOf(site, false, false, duration, b, m + 1);
    }
    ForcedOnto(p, site.now, Before(site), works, slot, time);
    var r := ScheduleAll(p, site.now, Before(site), works);
    SlotCount(slots, time);
    if r.slots[slot] < time {
      SomeSlotBefore(r.slots, slot, time);
    }
    var k :| 0 <= k < |r.done| && r.done[k].work.Todo? && r.done[k].slot == slot && r.done[k].start < time;
    assert r.done[k].slot == site.jobs[i].slot;
  }

  lemma SomeSlotBefore(slots: seq<real>, slot: nat, time: real)
    requires slot < |slots| && slots[slot] < time
    ensures |SlotsBefore(slots, time)| > 0
  {
    assert slot in SlotsBefore(slots, time);
  }

  /**
   In every plan made on a site new steps stay clear of the running jobs on their slots, if and only if of the
   jobs that share a slot the one listed last ends last.
   */
  lemma PlansStayClearIff(site: Site)
    ensures (Accepted(site) ==> LastIsLatest(site.jobs, site.capacity)) <==>
      forall v, q, target, maximum :: On(site, v, q) && Plan(v, q, target, maximum).Success? ==>
        ClearOfJobs(site.jobs, Plan(v, q, target, maximum).value.steps)
  {
    hide Plan, Accepted, On, LastIsLatest, ClearOfJobs;
    if Accepted(site) && !LastIsLatest(site.jobs, site.capacity) {
      var v, q, target := StepRunsIntoJob(site);
    } else {
      forall v, q, target, maximum | On(site, v, q) && Plan(v, q, target, maximum).Success?
        ensures ClearOfJobs(site.jobs, Plan(v, q, target, maximum).value.steps)
      {
        PlanIsAccepted(site, v, q, target, maximum);
        PlanIsClear(site, v, q, target, maximum);
      }
    }
  }

  lemma PlanIsClear(site: Site, v: Village, q: Projections, target: (Id, int), maximum: nat)
    requires On(site, v, q) && Plan(v, q, target, maximum).Success? && LastIsLatest(site.jobs, site.capacity)
    ensures ClearOfJobs(site.jobs, Plan(v, q, target, maximum).value.steps)
  {
    hide Plan, Visit;
    PlanIsSound(v, q, target, maximum);
  }

  // ---------------------------------------------------------------- the end of a plan

  /** The plan is over by the latest initial slot time plus the time of its new steps. */
  ghost predicate EndsInTime(site: Site, plan: BuildPlan) {
    && SlotTimes(site) != []
    && forall i :: 0 <= i < |plan.steps| ==> plan.steps[i].completes <= Latest(SlotTimes(site)) + PlannedTime(plan)
  }

  /** A plan for the level under construction, and nothing else, ends when its job does. */
  lemma JobEndsLate(site: Site, i: nat) returns (v: Village, q: Projections, target: (Id, int))
    requires Accepted(site) && i < |site.jobs| && SlotTimes(site) != []
    requires site.jobs[i].completesAt > Latest(SlotTimes(site))
    ensures On(site, v, q) && Plan(v, q, target, 30).Success? && !EndsInTime(site, Plan(v, q, target, 30).value)
  {
    hide Plan, Visit, NextStep, InitialSlots, PriceAll, ActiveJobs, Latest;
    var job := site.jobs[i];
    assert ValidJob(job, site.now);
    var b := job.id.building;
    v, q, target := Bare(site), Plain(site, false, false, 1.0), (job.id, 1);
    PlainLevelsAreFound(site, false, 1.0, b, 1);
    var p, works := ProblemOf(v, q, 30), [Running((b, 1), job)];
    forall active | ActiveJobs(v, site.jobs) == Success(active)
      ensures PriceAll(v, q, active, Levels(b, 1)) == Success(works)
    {
      JobIsPriced(site, i, active);
    }
    VillagePlan(site, Bare(site), q, b, 1, Levels(b, 1), works);
    BoardIsReady(site);
    assert works[..0] == [];
    var plan := Plan(v, q, target, 30).value;
    assert |plan.steps| == 1 && plan.steps[0].completes == job.completesAt;
    assert Works(plan.steps) == works && WorkTime(works) == 0.0;
  }

  /** No running job ends later than the latest initial slot time. */
  ghost predicate JobsEndByLatest(site: Site) {
    && SlotTimes(site) != []
    && forall i :: 0 <= i < |site.jobs| ==> site.jobs[i].completesAt <= Latest(SlotTimes(site))
  }

  /**
   Every plan made on a site is over by the latest initial slot time plus the time of its new steps, if and
   only if no running job ends later than every slot is taken to be free.
   */
  lemma PlansEndInTimeIff(site: Site)
    ensures (Accepted(site) ==> JobsEndByLatest(site)) <==>
      forall v, q, target, maximum :: On(site, v, q) && Plan(v, q, target, maximum).Success? ==>
        EndsInTime(site, Plan(v, q, target, maximum).value)
  {
    hide Plan, Accepted, On, EndsInTime, Latest, InitialSlots;
    if Accepted(site) {
      BoardIsReady(site);
    }
    if i :| Accepted(site) && 0 <= i < |site.jobs| && site.jobs[i].completesAt > Latest(SlotTimes(site)) {
      var v, q, target := JobEndsLate(site, i);
    } else {
      forall v, q, target, maximum | On(site, v, q) && Plan(v, q, target, maximum).Success?
        ensures EndsInTime(site, Plan(v, q, target, maximum).value)
      {
        PlanIsAccepted(site, v, q, target, maximum);
        PlanIsInTime(site, v, q, target, maximum);
      }
    }
  }

  lemma PlanIsInTime(site: Site, v: Village, q: Projections, target: (Id, int), maximum: nat)
    requires On(site, v, q) && Plan(v, q, target, maximum).Success? && SlotTimes(site) != []
    requires forall i :: 0 <= i < |site.jobs| ==> site.jobs[i].completesAt <= Latest(SlotTimes(site))
    ensures EndsInTime(site, Plan(v, q, target, maximum).value)
  {
    hide Plan, Visit, InitialSlots;
    PlanEndsInTime(v, q, target, maximum, Latest(SlotTimes(site)));
  }

  // ---------------------------------------------------------------- the clock

  /** The townhall's plan once its timber camp is priced or under construction. */
  lemma TownhallPlan(site: Site, dear: bool, duration: real, first: Work)
    requires Accepted(site) && duration >= 0.0 && Idle(site, Townhall)
    requires forall active :: ActiveJobs(Bare(site), site.jobs) == Success(active) ==>
      Price(Bare(site), Plain(site, true, dear, duration), active, (Timber, 1)) == Success(first)
    ensures var q := Plain(site, true, dear, duration); var r := Plan(Bare(site), q, (Known(Townhall), 1), 30);
      var p := ProblemOf(Bare(site), q, 30); var second := Todo((Townhall, 1), NOTHING, duration);
      && r.Success? && Before(site).slots != []
      && r.value.steps == Schedule(p, site.now, Schedule(p, site.now, Before(site), first), second).done
      && r.value.next == NextStep(p, site.now, r.value.steps, |r.value.steps|)
  {
    hide Plan, Visit, ScheduleAll, NextStep, InitialSlots, ActiveJobs, Schedule, ValidJobs;
    TownhallIsFound(site, dear, duration);
    BoardIsReady(site);
    var q := Plain(site, true, dear, duration);
    var second := Todo((Townhall, 1), NOTHING, duration);
    var keys: seq<Key> := [(Timber, 1), (Townhall, 1)];
    forall active | ActiveJobs(Bare(site), site.jobs) == Success(active)
      ensures PriceAll(Bare(site), q, active, keys) == Success([first, second])
    {
      ActiveJobsIff(Bare(site), site.jobs);
      assert !BeingBuilt(Bare(site), site.jobs, (Townhall, 1));
      assert Price(Bare(site), q, active, (Townhall, 1)) == Success(second);
      assert keys[..1] == [(Timber, 1)] && keys[..1][..0] == [];
      assert PriceAll(Bare(site), q, active, keys[..1]) == Success([] + [first]);
      assert [] + [first] + [second] == [first, second];
    }
    VillagePlan(site, Bare(site), q, Townhall, 1, keys, [first, second]);
    TwoSteps(ProblemOf(Bare(site), q, 30), site.now, Before(site), first, second);
  }

  /** The townhall starts now when its timber camp counts as complete now and some slot is still free. */
  lemma TownhallStartsNow(site: Site, dear: bool, duration: real, board: Board)
    requires board.slots != [] && SlotsFrom(site.now, board.slots) && |board.done| == 1
    requires board.done[0].work.key == (Timber, 1) && CompletionSeen(board.done[0], site.now) == site.now
    requires board.slots[FirstFree(board.slots)] <= site.now
    ensures var p := ProblemOf(Bare(site), Plain(site, true, dear, duration), 30);
      var r := Schedule(p, site.now, board, Todo((Townhall, 1), NOTHING, duration));
      && |r.done| == 2 && r.done[0] == board.done[0] && r.done[1].work == Todo((Townhall, 1), NOTHING, duration)
      && r.done[1].start == site.now && r.done[1].affordable == Fits(NOTHING, board.remaining)
      && Requirement(Known(Timber), 1) in RequirementsOf(p, (Townhall, 1))
  {
    hide FirstFree, Lacking, RequirementsOf;
    var p := ProblemOf(Bare(site), Plain(site, true, dear, duration), 30);
    var r := Requirement(Known(Timber), 1);
    RulesOf(site, true, dear, duration, Townhall, 1);
    assert board.done[..0] == [] && [r][..0] == [];
    assert Lookup(board.done, r) == Some(board.done[0]);
    assert ReadyAt(board.done, [r], site.now) == site.now;
    NothingLacks(NOTHING, board.remaining);
  }

  /** Before time zero: a timber camp under construction until time zero is not waited for. */
  lemma ZeroIsNotWaitedFor(now: real) returns (site: Site, v: Village, q: Projections, target: (Id, int))
    requires now < 0.0
    ensures site == Site(now, [Job(true, Known(Timber), 0, 0.0)], 2)
    ensures On(site, v, q) && Plan(v, q, target, 30).Success?
    ensures !RequirementsComplete(ProblemOf(v, q, 30), Plan(v, q, target, 30).value.steps)
  {
    hide Plan, NextStep, FirstFree, RequirementsOf, ActiveJobs, Answers;
    var job := Job(true, Known(Timber), 0, 0.0);
    site := Site(now, [job], 2);
    v, q, target := Bare(site), Plain(site, true, false, 1.0), (Known(Townhall), 1);
    var first := Running((Timber, 1), job);
    assert [job][..0] == [];
    assert InitialSlots(2, now, []) == [now, now];
    assert SlotTimes(site) == [0.0, now];
    forall active | ActiveJobs(v, site.jobs) == Success(active)
      ensures Price(v, q, active, (Timber, 1)) == Success(first)
    {
      ActiveJobIs(v, 0, active);
    }
    TownhallPlan(site, false, 1.0, first);
    var p := ProblemOf(v, q, 30);
    var one := Schedule(p, now, Before(site), first);
    assert one.slots == [0.0, now] && one.slots[FirstFree(one.slots)] <= one.slots[1];
    TownhallStartsNow(site, false, 1.0, one);
    var done := Plan(v, q, target, 30).value.steps;
    TimberAnswers(done[0]);
    assert !WaitsFor(p, done, 0, 1);
  }

  lemma TimberAnswers(s: Scheduled)
    requires s.work.key == (Timber, 1)
    ensures Answers(s, Requirement(Known(Timber), 1))
  {
  }

  /**
   In every plan made at time `now` each new step waits for all its declared requirements, if and only if
   `now` is not before time zero.
   */
  lemma PrecedenceHoldsIff(now: real)
    ensures now >= 0.0 <==>
      forall v: Village, q, target, maximum :: v.now == now && Plan(v, q, target, maximum).Success? ==>
        RequirementsComplete(ProblemOf(v, q, maximum), Plan(v, q, target, maximum).value.steps)
  {
    hide Plan, RequirementsComplete, ProblemOf;
    if now >= 0.0 {
      forall v: Village, q, target, maximum | v.now == now && Plan(v, q, target, maximum).Success?
        ensures RequirementsComplete(ProblemOf(v, q, maximum), Plan(v, q, target, maximum).value.steps)
      {
        PlanWaits(v, q, target, maximum);
      }
    } else {
      var site, v, q, target := ZeroIsNotWaitedFor(now);
    }
  }

  lemma PlanWaits(v: Village, q: Projections, target: (Id, int), maximum: nat)
    requires v.now >= 0.0 && Plan(v, q, target, maximum).Success?
    ensures RequirementsComplete(ProblemOf(v, q, maximum), Plan(v, q, target, maximum).value.steps)
  {
    hide Plan, Visit, ScheduleAll, NextStep, PriceAll, ActiveJobs, Executable, InitialSlots;
    var keys, active, works := PlanDerives(v, q, target, maximum);
    var plan, p := Plan(v, q, target, maximum).value, ProblemOf(v, q, maximum);
    StartIsReady(v, q, p, keys, active, works, plan);
    RequirementsCompleteFirst(p, v.now, StartBoard(v, q.capacity.value), works);
  }

  /** A timber camp nobody can pay, put on the first of two free slots. */
  lemma DearTimberFirst(site: Site, duration: real)
    requires site == Site(site.now, [], 2) && duration >= 0.0
    ensures var p := ProblemOf(Bare(site), Plain(site, true, true, duration), 30);
      var first := Todo((Timber, 1), Tag(true, 0), duration);
      && Before(site).slots != []
      && var one := Schedule(p, site.now, Before(site), first);
         && |one.slots| == 2 && SlotsFrom(site.now, one.slots) && one.slots[FirstFree(one.slots)] <= site.now
         && |one.done| == 1 && one.done[0].work == first && !one.done[0].affordable
         && one.done[0].completes == site.now + duration * 1000.0 && one.remaining == NOTHING
  {
    hide FirstFree, RequirementsOf, ProblemOf;
    var first := Todo((Timber, 1), Tag(true, 0), duration);
    var p := ProblemOf(Bare(site), Plain(site, true, true, duration), 30);
    assert SlotTimes(site) == [site.now, site.now];
    RulesOf(site, true, true, duration, Timber, 1);
    PlainStep(p, site.now, Before(site), first);
    var f := FirstFree([site.now, site.now]);
    SlotStays(site.now, [site.now, site.now], f, duration);
    var slots := Schedule(p, site.now, Before(site), first).slots;
    assert slots[if f == 0 then 1 else 0] == site.now;
  }

  /** A townhall offered as next although its timber camp, which nobody can pay, is not even begun. */
  lemma TownhallIsTooEarly(now: real, instant: bool) returns (site: Site, v: Village, q: Projections, target: (Id, int))
    requires now < 0.0 || instant
    ensures site.now == now && Offers(site, instant, v, q, target, 30)
    ensures Plan(v, q, target, 30).value.next.value.work.key == (Townhall, 1)
    ensures Requirement(Known(Timber), 1) in RequirementsOf(ProblemOf(v, q, 30), (Townhall, 1))
    ensures ProblemOf(v, q, 30).levels(Timber) == 0
  {
    hide Plan, FirstFree, RequirementsOf, ActiveJobs, Schedule, InitialSlots, NextStep;
    site := Site(now, [], 2);
    var duration := if instant then 0.0 else -now / 1000.0;
    v, q, target := Bare(site), Plain(site, true, true, duration), (Known(Townhall), 1);
    var p, first := ProblemOf(v, q, 30), Todo((Timber, 1), Tag(true, 0), duration);
    forall active | ActiveJobs(v, site.jobs) == Success(active)
      ensures Price(v, q, active, (Timber, 1)) == Success(first)
    {
      ActiveJobsIff(v, site.jobs);
      assert !BeingBuilt(v, site.jobs, (Timber, 1));
    }
    TownhallPlan(site, true, duration, first);
    DearTimberFirst(site, duration);
    TownhallStartsNow(site, true, duration, Schedule(p, now, Before(site), first));
    var done := Plan(v, q, target, 30).value.steps;
    assert done == [done[0], done[1]];
    TownhallIsNext(site, duration, done);
  }

  lemma TownhallIsNext(site: Site, duration: real, done: seq<Scheduled>)
    requires |done| == 2 && done[0].work.Todo? && !done[0].affordable && done[0].work.key == (Timber, 1)
    requires done[1].work.Todo? && done[1].work.key == (Townhall, 1) && done[1].start <= site.now && done[1].affordable
    ensures NextStep(ProblemOf(Bare(site), Plain(site, true, true, duration), 30), site.now, done, 2) == Some(done[1])
  {
    var p := ProblemOf(Bare(site), Plain(site, true, true, duration), 30);
    var r := Requirement(Known(Timber), 1);
    assert RequirementsOf(p, (Townhall, 1)) == [r];
    LookupFinds(done, r);
    assert StartsNext(p, site.now, done, done[1]);
    assert NextStep(p, site.now, done, 1) == None;
  }

  /** The village meets every requirement of the step. */
  ghost predicate RequirementsMet(p: Problem, s: Scheduled) {
    forall r :: r in RequirementsOf(p, s.work.key) ==> r.id.Known? && p.levels(r.id.building) >= r.level
  }

  /**
   In every plan made at time `now` the village already meets the requirements of the step offered as next,
   if and only if `now` is not before time zero and every new step takes time.
   */
  lemma NextMeetsRequirementsIff(now: real, instant: bool)
    ensures now >= 0.0 && !instant <==>
      forall site: Site, v, q, target, maximum :: site.now == now && Offers(site, instant, v, q, target, maximum) ==>
        RequirementsMet(ProblemOf(v, q, maximum), Plan(v, q, target, maximum).value.next.value)
  {
    hide Plan, ProblemOf, TakesTime;
    if now >= 0.0 && !instant {
      forall site: Site, v, q, target, maximum | site.now == now && Offers(site, instant, v, q, target, maximum)
        ensures RequirementsMet(ProblemOf(v, q, maximum), Plan(v, q, target, maximum).value.next.value)
      {
        NextMeetsRequirements(v, q, target, maximum);
      }
    } else {
      var site, v, q, target := TownhallIsTooEarly(now, instant);
      assert !RequirementsMet(ProblemOf(v, q, 30), Plan(v, q, target, 30).value.next.value);
    }
  }
}

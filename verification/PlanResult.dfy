/**
 The whole plan, search and schedule together (src/world-game/build-planner.js:15-207).
 */
module PlanResult {
  import opened Wrappers
  import opened DependencySearch
  import opened BuildPlanner
  import opened PlanSoundness

  lemma {:induction false} ActiveJobsAreJobs(v: Village, jobs: seq<Job>)
    requires ValidLevels(v) && ActiveJobs(v, jobs).Success?
    ensures var active := ActiveJobs(v, jobs).value;
      && (forall k :: k in active ==> active[k] in jobs && active[k].completesAt >= v.now)
      && (forall job :: job in jobs ==> ValidJob(job, v.now))
  {
    if jobs != [] {
      ActiveJobsAreJobs(v, jobs[..|jobs| - 1]);
      assert jobs == jobs[..|jobs| - 1] + [jobs[|jobs| - 1]];
    }
  }

  /** The running jobs make sense: pending, of known buildings, not overdue, and no building twice. */
  ghost predicate ValidJobs(now: real, jobs: seq<Job>) {
    && (forall i :: 0 <= i < |jobs| ==> ValidJob(jobs[i], now))
    && (forall i, j :: 0 <= i < j < |jobs| ==> jobs[i].id != jobs[j].id)
  }

  /** Some running job completes step `k`. */
  ghost predicate BeingBuilt(v: Village, jobs: seq<Job>, k: Key) {
    exists i :: 0 <= i < |jobs| && jobs[i].id == Known(k.0) && k.1 == v.buildings(k.0) + 1
  }

  lemma {:induction false} ActiveJobsIff(v: Village, jobs: seq<Job>)
    requires ValidLevels(v)
    ensures ActiveJobs(v, jobs).Success? <==> ValidJobs(v.now, jobs)
    ensures ActiveJobs(v, jobs).Success? ==> forall k :: k in ActiveJobs(v, jobs).value <==> BeingBuilt(v, jobs, k)
    ensures ActiveJobs(v, jobs).Success? ==>
      forall k :: k in ActiveJobs(v, jobs).value ==> ActiveJobs(v, jobs).value[k].id == Known(k.0)
  {
    if jobs != [] {
      var n := |jobs| - 1;
      ActiveJobsIff(v, jobs[..n]);
      assert forall i :: 0 <= i < n ==> jobs[..n][i] == jobs[i];
      forall k
        ensures BeingBuilt(v, jobs, k) <==>
          BeingBuilt(v, jobs[..n], k) || (jobs[n].id == Known(k.0) && k.1 == v.buildings(k.0) + 1)
      {
        if i :| 0 <= i < n && jobs[i].id == Known(k.0) && k.1 == v.buildings(k.0) + 1 {
          assert jobs[..n][i].id == Known(k.0);
        }
      }
      if ValidJobs(v.now, jobs[..n]) && ValidJob(jobs[n], v.now) {
        assert (jobs[n].id.building, v.buildings(jobs[n].id.building) + 1) in ActiveJobs(v, jobs[..n]).value <==>
          exists i :: 0 <= i < n && jobs[..n][i].id == jobs[n].id;
      }
    }
  }

  /** Each step is priced once, in order: a step under construction at no price, any other as asked. */
  lemma {:induction false} PricedWorks(v: Village, q: Projections, active: map<Key, Job>, keys: seq<Key>)
    requires PriceAll(v, q, active, keys).Success?
    requires forall k :: k in active ==> active[k].completesAt >= v.now
    ensures var works := PriceAll(v, q, active, keys).value;
      && |works| == |keys| && ValidWorks(v.now, works)
      && (forall i :: 0 <= i < |works| ==> works[i].key == keys[i] && (works[i].Running? <==> keys[i] in active))
      && (forall i :: 0 <= i < |works| && works[i].Running? ==> works[i].job == active[keys[i]])
  {
    if keys != [] {
      PricedWorks(v, q, active, keys[..|keys| - 1]);
    }
  }

  lemma {:induction false} ExecutableStepsAreDistinct(p: Problem, keys: seq<Key>)
    requires Executable(p, keys)
    ensures forall i, j :: 0 <= i < j < |keys| ==> keys[i] != keys[j]
  {
    if keys != [] {
      var n := |keys| - 1;
      ExecutableStepsAreDistinct(p, keys[..n]);
      StepsPassed(p, keys[..n], keys[n].0, keys[n].1);
      assert forall i :: 0 <= i < n ==> keys[..n][i] == keys[i] && keys[i] in keys[..n];
    }
  }

  /** The steps of a plan in order. */
  function PlannedKeys(plan: BuildPlan): (keys: seq<Key>)
    ensures |keys| == |plan.steps| && forall i :: 0 <= i < |keys| ==> keys[i] == plan.steps[i].work.key
  {
    seq(|plan.steps|, i requires 0 <= i < |plan.steps| => plan.steps[i].work.key)
  }

  /** What `Plan` went through to succeed. */
  ghost predicate Derives(v: Village, q: Projections, p: Problem, keys: seq<Key>, active: map<Key, Job>,
          works: seq<Work>, plan: BuildPlan) {
    && Executable(p, keys) && ValidLevels(v) && Fits(NOTHING, v.resources)
    && ActiveJobs(v, v.jobs) == Success(active)
    && PriceAll(v, q, active, keys) == Success(works)
    && ValidCapacity(q.capacity, v.jobs)
    && plan.steps == ScheduleAll(p, v.now, StartBoard(v, q.capacity.value), works).done
    && plan.next == NextStep(p, v.now, plan.steps, |plan.steps|)
  }

  lemma PlanDerives(v: Village, q: Projections, target: (Id, int), maximum: nat) returns (keys: seq<Key>,
          active: map<Key, Job>, works: seq<Work>)
    requires Plan(v, q, target, maximum).Success?
    ensures target.0.Known? && 1 <= target.1 <= maximum
    ensures Steps(ProblemOf(v, q, maximum), (target.0.building, target.1)) == Success(keys)
    ensures Derives(v, q, ProblemOf(v, q, maximum), keys, active, works, Plan(v, q, target, maximum).value)
  {
    hide Visit, ActiveJobs, PriceAll, ScheduleAll, NextStep, Executable;
    var p := ProblemOf(v, q, maximum);
    var k: Key := (target.0.building, target.1);
    keys, active := Steps(p, k).value, ActiveJobs(v, v.jobs).value;
    works := PriceAll(v, q, active, keys).value;
    PlanIsExecutableAndLeast(p, k);
  }

  lemma StartIsReady(v: Village, q: Projections, p: Problem, keys: seq<Key>, active: map<Key, Job>, works: seq<Work>,
          plan: BuildPlan)
    requires Derives(v, q, p, keys, active, works, plan)
    ensures var start := StartBoard(v, q.capacity.value);
      && start.slots != [] && |start.slots| == q.capacity.value && start.done == []
      && SlotsFrom(v.now, start.slots) && ValidWorks(v.now, works) && DistinctSteps(works)
      && |works| == |keys| && (forall i :: 0 <= i < |works| ==> works[i].key == keys[i])
  {
    hide Executable, PriceAll, ScheduleAll, NextStep, ActiveJobs, Fits;
    ActiveJobsAreJobs(v, v.jobs);
    PricedWorks(v, q, active, keys);
    ExecutableStepsAreDistinct(p, keys);
    assert forall i :: 0 <= i < |v.jobs| ==> v.jobs[i] in v.jobs;
    InitialSlotsFrom(q.capacity.value, v.now, v.jobs);
  }

  /** The stretch of work a plan schedules for itself. */
  function PlannedTime(plan: BuildPlan): real {
    WorkTime(Works(plan.steps))
  }

  /**
   A plan is the least executable list of steps, put on slots so that
   - nothing overlaps on a slot, running jobs included, if on every slot the job listed last completes last;
   - every step waits for all its requirements, which the village has or an earlier step provides;
   - the steps marked affordable cost no more together than the village owns.
   */
  lemma PlanIsSound(v: Village, q: Projections, target: (Id, int), maximum: nat)
    requires Plan(v, q, target, maximum).Success?
    ensures var plan := Plan(v, q, target, maximum).value; var p := ProblemOf(v, q, maximum);
      && target.0.Known? && 1 <= target.1 <= maximum
      && Steps(p, (target.0.building, target.1)) == Success(PlannedKeys(plan))
      && NoOverlap(plan.steps)
      && (LastIsLatest(v.jobs, q.capacity.value) ==> ClearOfJobs(v.jobs, plan.steps))
      && (v.now >= 0.0 ==> forall j :: 0 <= j < |plan.steps| && plan.steps[j].work.Todo? ==>
            forall r :: r in RequirementsOf(p, plan.steps[j].work.key) ==>
              r.id.Known? && (p.levels(r.id.building) >= r.level || ProvidedBefore(plan.steps, j, r)))
      && Fits(TotalPaid(plan.steps), v.resources)
  {
    hide Plan, Executable, PriceAll, ScheduleAll, NextStep, ActiveJobs, Visit, InitialSlots, TotalPaid,
      RequirementsOf, NoOverlap, LastIsLatest, ClearOfJobs, SlotsFrom, RequirementsComplete;
    var keys, active, works := PlanDerives(v, q, target, maximum);
    var plan, p := Plan(v, q, target, maximum).value, ProblemOf(v, q, maximum);
    StartIsReady(v, q, p, keys, active, works, plan);
    var start := StartBoard(v, q.capacity.value);
    SlotsNeverOverlap(p, v.now, start, [], works);
    assert PlannedKeys(plan) == keys;
    JobsAreReservedIff(q.capacity.value, v.now, v.jobs);
    if LastIsLatest(v.jobs, q.capacity.value) {
      SlotsNeverOverlap(p, v.now, start, v.jobs, works);
    }
    AffordableStepsArePaid(p, v.now, start, works);
    if v.now >= 0.0 {
      RequirementsCompleteFirst(p, v.now, start, works);
      RequirementsAreProvided(p, keys, plan.steps);
    }
  }

  /** An earlier step of the plan provides requirement `r` of step `j`, complete before `j` starts. */
  ghost predicate ProvidedBefore(done: seq<Scheduled>, j: nat, r: Requirement)
    requires j < |done|
  {
    exists i :: 0 <= i < j && Answers(done[i], r) && done[i].completes <= done[j].start
  }

  lemma RequirementsAreProvided(p: Problem, keys: seq<Key>, done: seq<Scheduled>)
    requires Executable(p, keys) && |done| == |keys| && forall i :: 0 <= i < |keys| ==> done[i].work.key == keys[i]
    requires RequirementsComplete(p, done)
    ensures forall j :: 0 <= j < |done| && done[j].work.Todo? ==>
      forall r :: r in RequirementsOf(p, done[j].work.key) ==>
        r.id.Known? && (p.levels(r.id.building) >= r.level || ProvidedBefore(done, j, r))
  {
    forall j, r | 0 <= j < |done| && done[j].work.Todo? && r in RequirementsOf(p, done[j].work.key)
      ensures r.id.Known? && (p.levels(r.id.building) >= r.level || ProvidedBefore(done, j, r))
    {
      RequirementIsProvided(p, keys, done, j, r);
    }
  }

  lemma RequirementIsProvided(p: Problem, keys: seq<Key>, done: seq<Scheduled>, j: nat, r: Requirement)
    requires Executable(p, keys) && |done| == |keys| && forall i :: 0 <= i < |keys| ==> done[i].work.key == keys[i]
    requires RequirementsComplete(p, done)
    requires j < |done| && done[j].work.Todo? && r in RequirementsOf(p, done[j].work.key)
    ensures r.id.Known? && (p.levels(r.id.building) >= r.level || ProvidedBefore(done, j, r))
  {
    hide Executable;
    NeedsComeEarlier(p, keys, j);
    if p.levels(r.id.building) < r.level {
      assert DependencySearch.KeyOf(r) in keys[..j];
      var i :| 0 <= i < j && keys[..j][i] == DependencySearch.KeyOf(r);
      assert Answers(done[i], r);
      assert WaitsFor(p, done, i, j);
    }
  }

  /** The plan is over by the time the last slot is free and the last job ends, plus the time of its new steps. */
  lemma PlanEndsInTime(v: Village, q: Projections, target: (Id, int), maximum: nat, latest: real)
    requires Plan(v, q, target, maximum).Success?
    requires forall i :: 0 <= i < q.capacity.value ==> InitialSlots(q.capacity.value, v.now, v.jobs)[i] <= latest
    requires forall job :: job in v.jobs ==> job.completesAt <= latest
    ensures var plan := Plan(v, q, target, maximum).value;
      forall i :: 0 <= i < |plan.steps| ==> plan.steps[i].completes <= latest + PlannedTime(plan)
  {
    hide Plan, Executable, ScheduleAll, NextStep, Visit, InitialSlots, LastIsLatest, SlotsFrom, NoOverlap, ClearOfJobs,
      WorkTime;
    var keys, active, works := PlanDerives(v, q, target, maximum);
    var plan, p := Plan(v, q, target, maximum).value, ProblemOf(v, q, maximum);
    StartIsReady(v, q, p, keys, active, works, plan);
    ActiveJobsAreJobs(v, v.jobs);
    PricedWorks(v, q, active, keys);
    var start := StartBoard(v, q.capacity.value);
    NowIsNotLater(v.now, start.slots, latest);
    SlotsNeverOverlap(p, v.now, start, [], works);
    MakespanIsBounded(p, v.now, start, works, latest);
  }

  lemma NowIsNotLater(now: real, slots: seq<real>, latest: real)
    requires slots != [] && SlotsFrom(now, slots) && forall i :: 0 <= i < |slots| ==> slots[i] <= latest
    ensures now <= latest
  {
    assert now <= slots[0] <= latest;
  }

  /**
   A plan wastes no slot: every new step starts now, or the moment one of its requirements completes, or
   when until then every slot was taken; and a step under construction keeps its job's slot and completion.
   */
  lemma PlanIsGreedy(v: Village, q: Projections, target: (Id, int), maximum: nat)
    requires Plan(v, q, target, maximum).Success?
    ensures var plan := Plan(v, q, target, maximum).value; var p := ProblemOf(v, q, maximum);
      && q.capacity.Some? && q.capacity.value >= 1
      && (forall j :: 0 <= j < |plan.steps| ==> StartsAtOnce(p, v.now, v.jobs, q.capacity.value, plan.steps, j))
      && (forall j :: 0 <= j < |plan.steps| ==> v.now <= plan.steps[j].start)
      && (forall j :: 0 <= j < |plan.steps| && plan.steps[j].work.Running? ==>
            && plan.steps[j].work.job in v.jobs
            && plan.steps[j].slot == plan.steps[j].work.job.slot
            && plan.steps[j].completes == plan.steps[j].work.job.completesAt
            && plan.steps[j].start == v.now
            && !plan.steps[j].affordable && plan.steps[j].deficits == NOTHING)
      && (forall j :: 0 <= j < |plan.steps| && plan.steps[j].work.Todo? ==>
            && plan.steps[j].completes == plan.steps[j].start + plan.steps[j].work.duration * 1000.0
            && 0 <= plan.steps[j].slot < q.capacity.value)
  {
    hide Plan, Executable, ScheduleAll, NextStep, Visit, InitialSlots, PriceAll, ActiveJobs, StartsAtOnce, SlotsOwned,
      SlotsFrom, NoOverlap, ClearOfJobs;
    var keys, active, works := PlanDerives(v, q, target, maximum);
    var plan, p := Plan(v, q, target, maximum).value, ProblemOf(v, q, maximum);
    StartIsReady(v, q, p, keys, active, works, plan);
    ActiveJobsAreJobs(v, v.jobs);
    PricedWorks(v, q, active, keys);
    var start := StartBoard(v, q.capacity.value);
    InitialSlotsOwned(q.capacity.value, v.now, v.jobs);
    StepsStartAtOnce(p, v.now, start, v.jobs, works);
    SlotsNeverOverlap(p, v.now, start, [], works);
    StepsKeepTheirTimes(p, v.now, start, works);
  }

  // ---------------------------------------------------------------- the next step

  lemma {:induction false} NextStepStarts(p: Problem, now: real, done: seq<Scheduled>, n: nat) returns (j: nat)
    requires n <= |done| && NextStep(p, now, done, n).Some?
    ensures j < n && done[j] == NextStep(p, now, done, n).value && StartsNext(p, now, done, done[j])
    ensures forall i :: 0 <= i < j ==> !StartsNext(p, now, done, done[i])
  {
    if NextStep(p, now, done, n - 1).Some? {
      j := NextStepStarts(p, now, done, n - 1);
    } else {
      j := n - 1;
      NothingEarlier(p, now, done, n - 1);
    }
  }

  lemma {:induction false} NothingEarlier(p: Problem, now: real, done: seq<Scheduled>, n: nat)
    requires n <= |done| && NextStep(p, now, done, n).None?
    ensures forall i :: 0 <= i < n ==> !StartsNext(p, now, done, done[i])
  {
    if n > 0 {
      NothingEarlier(p, now, done, n - 1);
    }
  }

  /** Each new step takes time. */
  ghost predicate TakesTime(plan: BuildPlan) {
    forall i :: 0 <= i < |plan.steps| && plan.steps[i].work.Todo? ==> plan.steps[i].work.duration > 0.0
  }

  /** The step offered as next is one still to do, starts now, and its price is in stock. */
  lemma NextIsAffordable(v: Village, q: Projections, target: (Id, int), maximum: nat)
    requires Plan(v, q, target, maximum).Success? && Plan(v, q, target, maximum).value.next.Some?
    ensures var plan := Plan(v, q, target, maximum).value;
      && plan.next.value in plan.steps && plan.next.value.work.Todo?
      && plan.next.value.start == v.now && Fits(plan.next.value.work.cost, v.resources)
  {
    hide Plan, Executable, ScheduleAll, NextStep, Visit, InitialSlots, PriceAll, ActiveJobs, Lookup, SlotsFrom,
      NoOverlap, ClearOfJobs, TotalPaid, Lacking;
    var keys, active, works := PlanDerives(v, q, target, maximum);
    var plan, p := Plan(v, q, target, maximum).value, ProblemOf(v, q, maximum);
    StartIsReady(v, q, p, keys, active, works, plan);
    var start := StartBoard(v, q.capacity.value);
    SlotsNeverOverlap(p, v.now, start, [], works);
    AffordableStepsArePaid(p, v.now, start, works);
    var j := NextStepStarts(p, v.now, plan.steps, |plan.steps|);
    NeverNegativePaid(v.now, plan.steps[..j]);
    assert Fitted(v.now, ScheduleAll(p, v.now, start, works).slots, plan.steps[j]);
  }

  /**
   The village already meets every requirement of the step offered as next, given a clock not before time
   zero and steps that take time. Its own previous level may still be missing.
   */
  lemma NextMeetsRequirements(v: Village, q: Projections, target: (Id, int), maximum: nat)
    requires Plan(v, q, target, maximum).Success? && Plan(v, q, target, maximum).value.next.Some?
    requires v.now >= 0.0 && TakesTime(Plan(v, q, target, maximum).value)
    ensures var next := Plan(v, q, target, maximum).value.next.value; var p := ProblemOf(v, q, maximum);
      forall r :: r in RequirementsOf(p, next.work.key) ==> r.id.Known? && p.levels(r.id.building) >= r.level
  {
    hide Plan, Executable, ScheduleAll, NextStep, Visit, InitialSlots, PriceAll, ActiveJobs, Lookup, SlotsFrom,
      NoOverlap, ClearOfJobs, TotalPaid, Lacking;
    var keys, active, works := PlanDerives(v, q, target, maximum);
    var plan, p := Plan(v, q, target, maximum).value, ProblemOf(v, q, maximum);
    StartIsReady(v, q, p, keys, active, works, plan);
    var start := StartBoard(v, q.capacity.value);
    SlotsNeverOverlap(p, v.now, start, [], works);
    RequirementsCompleteFirst(p, v.now, start, works);
    var j := NextStepStarts(p, v.now, plan.steps, |plan.steps|);
    forall r | r in RequirementsOf(p, plan.steps[j].work.key)
      ensures r.id.Known? && p.levels(r.id.building) >= r.level
    {
      RequirementIsProvided(p, keys, plan.steps, j, r);
      if p.levels(r.id.building) < r.level {
        NextWaitsForNothing(p, v.now, ScheduleAll(p, v.now, start, works).slots, plan.steps, j, r);
      }
    }
  }

  lemma {:induction false} NeverNegativePaid(now: real, done: seq<Scheduled>)
    requires forall i :: 0 <= i < |done| ==> ValidWork(now, done[i].work)
    ensures Fits(NOTHING, TotalPaid(done))
  {
    if done != [] {
      NeverNegativePaid(now, done[..|done| - 1]);
    }
  }

  lemma NextWaitsForNothing(p: Problem, now: real, slots: seq<real>, done: seq<Scheduled>, j: nat, r: Requirement)
    requires AllFitted(now, slots, done) && j < |done| && StartsNext(p, now, done, done[j])
    requires forall i :: 0 <= i < |done| && done[i].work.Todo? ==> done[i].work.duration > 0.0
    requires DistinctSteps(Works(done)) && r in RequirementsOf(p, done[j].work.key)
    ensures !ProvidedBefore(done, j, r)
  {
    if ProvidedBefore(done, j, r) {
      var i :| 0 <= i < j && Answers(done[i], r) && done[i].completes <= done[j].start;
      LookupFinds(done, r);
    }
  }
}

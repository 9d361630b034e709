/**
 Which refusal of the planner belongs to which fault of its inputs, and when each is raised
 (src/world-game/build-planner.js:24-155).
 */
module PlanRefusals {
  import opened Wrappers
  import opened Sorting
  import opened DependencySearch
  import opened BuildPlanner
  import opened PlanSoundness
  import opened PlanResult

  // ---------------------------------------------------------------- running jobs

  /** The job is pending, of a known building, and not overdue. */
  predicate JobStands(job: Job, now: real) {
    job.pending && job.id.Known? && now <= job.completesAt
  }

  /** Job `i` is the first that does not stand, or, if `twice`, that stands on a building which has one already. */
  ghost predicate FirstBadJob(now: real, jobs: seq<Job>, i: int, twice: bool) {
    && 0 <= i < |jobs|
    && (forall j :: 0 <= j < i ==> JobStands(jobs[j], now))
    && (forall j, k :: 0 <= j < k < i ==> jobs[j].id != jobs[k].id)
    && if twice then JobStands(jobs[i], now) && exists j :: 0 <= j < i && jobs[j].id == jobs[i].id
       else !JobStands(jobs[i], now)
  }

  function JobError(v: Village, job: Job, twice: bool): Reason
    requires twice ==> job.id.Known? && v.buildings(job.id.building) >= 0
  {
    if twice then ConflictingConstruction((job.id.building, v.buildings(job.id.building) + 1))
    else InvalidConstructionState
  }

  lemma GoodJobsAreActive(v: Village, jobs: seq<Job>, i: nat)
    requires ValidLevels(v) && i <= |jobs|
    requires forall j :: 0 <= j < i ==> JobStands(jobs[j], v.now)
    requires forall j, k :: 0 <= j < k < i ==> jobs[j].id != jobs[k].id
    ensures ActiveJobs(v, jobs[..i]).Success?
    ensures forall k :: k in ActiveJobs(v, jobs[..i]).value <==> BeingBuilt(v, jobs[..i], k)
  {
    assert forall j :: 0 <= j < i ==> jobs[..i][j] == jobs[j];
    ActiveJobsIff(v, jobs[..i]);
  }

  /** What the next job does to those collected so far. */
  lemma JobStep(v: Village, jobs: seq<Job>, i: nat)
    requires ValidLevels(v) && i < |jobs| && ActiveJobs(v, jobs[..i]).Success?
    ensures !JobStands(jobs[i], v.now) ==> ActiveJobs(v, jobs[..i + 1]) == Failure(InvalidConstructionState)
    ensures JobStands(jobs[i], v.now) ==>
      var key := (jobs[i].id.building, v.buildings(jobs[i].id.building) + 1);
      key in ActiveJobs(v, jobs[..i]).value ==> ActiveJobs(v, jobs[..i + 1]) == Failure(ConflictingConstruction(key))
  {
    assert jobs[..i + 1][..i] == jobs[..i] && jobs[..i + 1][i] == jobs[i];
  }

  lemma FirstBadJobDecides(v: Village, jobs: seq<Job>, i: int, twice: bool)
    requires ValidLevels(v) && FirstBadJob(v.now, jobs, i, twice)
    ensures ActiveJobs(v, jobs) == Failure(JobError(v, jobs[i], twice))
  {
    hide ActiveJobs;
    GoodJobsAreActive(v, jobs, i);
    JobStep(v, jobs, i);
    if twice {
      var j :| 0 <= j < i && jobs[j].id == jobs[i].id;
      assert jobs[..i][j].id == Known(jobs[i].id.building);
      assert BeingBuilt(v, jobs[..i], (jobs[i].id.building, v.buildings(jobs[i].id.building) + 1));
    }
    ActiveFailurePersists(v, jobs, i + 1);
  }

  lemma {:induction false} SomeJobIsFirst(v: Village, jobs: seq<Job>) returns (i: int, twice: bool)
    requires ValidLevels(v)
    ensures ActiveJobs(v, jobs).Failure? ==>
      FirstBadJob(v.now, jobs, i, twice) && ActiveJobs(v, jobs) == Failure(JobError(v, jobs[i], twice))
  {
    i, twice := 0, false;
    if jobs != [] {
      var n := |jobs| - 1;
      i, twice := SomeJobIsFirst(v, jobs[..n]);
      if ActiveJobs(v, jobs[..n]).Success? {
        ActiveJobsIff(v, jobs[..n]);
        assert forall j :: 0 <= j < n ==> jobs[..n][j] == jobs[j] && ValidJob(jobs[..n][j], v.now);
        i, twice := n, JobStands(jobs[n], v.now);
        if twice && ActiveJobs(v, jobs).Failure? {
          assert BeingBuilt(v, jobs[..n], (jobs[n].id.building, v.buildings(jobs[n].id.building) + 1));
        }
      } else {
        assert forall j :: 0 <= j <= i ==> jobs[..n][j] == jobs[j];
      }
    }
  }

  /** Running jobs are refused for the first that does not stand, or doubles another. */
  lemma JobRefusals(v: Village)
    requires ValidLevels(v)
    ensures ActiveJobs(v, v.jobs) == Failure(InvalidConstructionState) <==>
      exists i :: FirstBadJob(v.now, v.jobs, i, false)
    ensures forall k :: ActiveJobs(v, v.jobs) == Failure(ConflictingConstruction(k)) <==>
      exists i :: FirstBadJob(v.now, v.jobs, i, true)
                  && k == (v.jobs[i].id.building, v.buildings(v.jobs[i].id.building) + 1)
    ensures ActiveJobs(v, v.jobs).Failure? ==>
      ActiveJobs(v, v.jobs).error.InvalidConstructionState? || ActiveJobs(v, v.jobs).error.ConflictingConstruction?
  {
    hide ActiveJobs, FirstBadJob;
    var i, twice := SomeJobIsFirst(v, v.jobs);
    forall j | FirstBadJob(v.now, v.jobs, j, false)
      ensures ActiveJobs(v, v.jobs) == Failure(InvalidConstructionState)
    {
      FirstBadJobDecides(v, v.jobs, j, false);
    }
    forall j | FirstBadJob(v.now, v.jobs, j, true)
      ensures 0 <= j < |v.jobs| && v.jobs[j].id.Known?
      ensures ActiveJobs(v, v.jobs) ==
        Failure(ConflictingConstruction((v.jobs[j].id.building, v.buildings(v.jobs[j].id.building) + 1)))
    {
      BadJobIsListed(v.now, v.jobs, j);
      FirstBadJobDecides(v, v.jobs, j, true);
    }
  }

  lemma BadJobIsListed(now: real, jobs: seq<Job>, j: int)
    requires FirstBadJob(now, jobs, j, true)
    ensures 0 <= j < |jobs| && jobs[j].id.Known?
  {
  }

  // ---------------------------------------------------------------- prices and durations

  /** The price asked for the step, at the village's levels but one below its own, is given and not negative. */
  predicate CostKnown(v: Village, q: Projections, key: Key) {
    var cost := q.cost(LevelsBefore(v.buildings, key), key.0);
    && cost.Some?
    && cost.value.wood >= 0.0 && cost.value.clay >= 0.0 && cost.value.stone >= 0.0 && cost.value.gold >= 0.0
  }

  predicate TimeKnown(q: Projections, key: Key) {
    q.duration(key.0, key.1).Some? && q.duration(key.0, key.1).value >= 0.0
  }

  /** The step is being built already, or its price and its duration are known. */
  predicate Priced(v: Village, q: Projections, active: map<Key, Job>, key: Key) {
    key in active || (CostKnown(v, q, key) && TimeKnown(q, key))
  }

  /** Step `i` is the first that is neither being built nor priced; it lacks a price, or else a duration. */
  ghost predicate FirstUnpriced(v: Village, q: Projections, active: map<Key, Job>, keys: seq<Key>, i: int,
          priceless: bool) {
    && 0 <= i < |keys| && (forall j :: 0 <= j < i ==> Priced(v, q, active, keys[j])) && keys[i] !in active
    && if priceless then !CostKnown(v, q, keys[i]) else CostKnown(v, q, keys[i]) && !TimeKnown(q, keys[i])
  }

  ghost predicate Unpriced(v: Village, q: Projections, active: map<Key, Job>, keys: seq<Key>, priceless: bool) {
    exists i :: FirstUnpriced(v, q, active, keys, i, priceless)
  }

  lemma UnpricedOrLast(v: Village, q: Projections, active: map<Key, Job>, keys: seq<Key>, priceless: bool)
    requires keys != []
    ensures var n := |keys| - 1;
      Unpriced(v, q, active, keys, priceless) <==>
        Unpriced(v, q, active, keys[..n], priceless) || FirstUnpriced(v, q, active, keys, n, priceless)
  {
    hide Priced, CostKnown, TimeKnown;
    var n := |keys| - 1;
    assert forall j :: 0 <= j < n ==> keys[..n][j] == keys[j];
    if i :| FirstUnpriced(v, q, active, keys[..n], i, priceless) {
      assert FirstUnpriced(v, q, active, keys, i, priceless);
    }
    if i :| FirstUnpriced(v, q, active, keys, i, priceless) && i < n {
      assert FirstUnpriced(v, q, active, keys[..n], i, priceless);
    }
  }

  /** Steps are refused for the first that has no price, or no duration. */
  lemma {:induction false} PriceRefusals(v: Village, q: Projections, active: map<Key, Job>, keys: seq<Key>)
    ensures var r := PriceAll(v, q, active, keys);
      && (r == Failure(CostUnavailable) <==> Unpriced(v, q, active, keys, true))
      && (r == Failure(DurationUnavailable) <==> Unpriced(v, q, active, keys, false))
      && (r.Success? <==> forall i :: 0 <= i < |keys| ==> Priced(v, q, active, keys[i]))
      && (r.Failure? ==> r.error == CostUnavailable || r.error == DurationUnavailable)
  {
    if keys != [] {
      var n := |keys| - 1;
      PriceRefusals(v, q, active, keys[..n]);
      UnpricedOrLast(v, q, active, keys, true);
      UnpricedOrLast(v, q, active, keys, false);
      assert forall j :: 0 <= j < n ==> keys[..n][j] == keys[j];
      PriceOfOne(v, q, active, keys[n]);
      LastUnpriced(v, q, active, keys);
    }
  }

  lemma PriceOfOne(v: Village, q: Projections, active: map<Key, Job>, key: Key)
    ensures var r := Price(v, q, active, key);
      && (r.Success? <==> Priced(v, q, active, key))
      && (r.Failure? ==> r.error == if CostKnown(v, q, key) then DurationUnavailable else CostUnavailable)
  {
  }

  lemma LastUnpriced(v: Village, q: Projections, active: map<Key, Job>, keys: seq<Key>)
    requires keys != []
    ensures var n := |keys| - 1; var front := forall j :: 0 <= j < n ==> Priced(v, q, active, keys[..n][j]);
      && (FirstUnpriced(v, q, active, keys, n, true) <==> front && keys[n] !in active && !CostKnown(v, q, keys[n]))
      && (FirstUnpriced(v, q, active, keys, n, false) <==>
            front && keys[n] !in active && CostKnown(v, q, keys[n]) && !TimeKnown(q, keys[n]))
  {
    hide Priced, CostKnown, TimeKnown;
    var n := |keys| - 1;
    assert forall j :: 0 <= j < n ==> keys[..n][j] == keys[j];
  }

  // ---------------------------------------------------------------- the search

  /** Some missing level has no list of requirements. */
  ghost predicate RulesMissing(p: Problem) {
    exists k: Key :: p.levels(k.0) < k.1 && p.rules(k.0, k.1).None?
  }

  /** Some missing level has a requirement of an unknown building, or of a level outside 1 to the cap. */
  ghost predicate RulesMalformed(p: Problem) {
    exists k: Key, r :: p.levels(k.0) < k.1 && p.rules(k.0, k.1).Some? && r in p.rules(k.0, k.1).value
                        && !(r.id.Known? && 1 <= r.level <= p.maximum)
  }

  lemma {:induction false} SearchFaultIsReal(p: Problem, nodes: seq<Key>, visiting: set<Key>, k: Key)
    requires k in Universe(p) && Visit(p, nodes, visiting, k).Failure?
    ensures var e := Visit(p, nodes, visiting, k).error;
      && (e == RequirementsUnavailable ==> RulesMissing(p)) && (e == InvalidRequirement ==> RulesMalformed(p))
    decreases Universe(p) - visiting, 0, 0
  {
    hide RulesMissing, RulesMalformed;
    if k !in visiting {
      var open := visiting + {k};
      if k.1 > 1 && Visit(p, nodes, open, (k.0, k.1 - 1)).Failure? {
        SearchFaultIsReal(p, nodes, open, (k.0, k.1 - 1));
      } else if p.rules(k.0, k.1).None? {
        MissingRule(p, k);
      } else {
        var below := if k.1 > 1 then Visit(p, nodes, open, (k.0, k.1 - 1)).value else nodes;
        var sorted := Sort(p.rules(k.0, k.1).value, StepBefore);
        SameElements(p.rules(k.0, k.1).value, sorted);
        SearchFaultsAreReal(p, below, open, k, sorted);
      }
    }
  }

  lemma MissingRule(p: Problem, k: Key)
    requires p.levels(k.0) < k.1 && p.rules(k.0, k.1).None?
    ensures RulesMissing(p)
  {
  }

  lemma MalformedRule(p: Problem, k: Key, r: Requirement)
    requires p.levels(k.0) < k.1 && p.rules(k.0, k.1).Some? && r in p.rules(k.0, k.1).value && !ValidRequirement(p, r)
    ensures RulesMalformed(p)
  {
  }

  lemma {:induction false} SearchFaultsAreReal(p: Problem, nodes: seq<Key>, visiting: set<Key>, k: Key,
          requirements: seq<Requirement>)
    requires p.levels(k.0) < k.1 && p.rules(k.0, k.1).Some?
    requires forall r :: r in requirements ==> r in p.rules(k.0, k.1).value
    ensures VisitAll(p, nodes, visiting, requirements).Failure? ==>
      var e := VisitAll(p, nodes, visiting, requirements).error;
      && (e == RequirementsUnavailable ==> RulesMissing(p)) && (e == InvalidRequirement ==> RulesMalformed(p))
    decreases Universe(p) - visiting, 1, |requirements|
  {
    hide RulesMissing, RulesMalformed;
    if requirements != [] {
      if !ValidRequirement(p, requirements[0]) {
        MalformedRule(p, k, requirements[0]);
      } else if Visit(p, nodes, visiting, KeyOf(requirements[0])).Failure? {
        SearchFaultIsReal(p, nodes, visiting, KeyOf(requirements[0]));
      } else {
        SearchFaultsAreReal(p, Visit(p, nodes, visiting, KeyOf(requirements[0])).value, visiting, k, requirements[1..]);
      }
    }
  }

  // ---------------------------------------------------------------- the plan

  /** The target is a building of the game, at a level from one to the cap. */
  predicate TargetStands(target: (Id, int), maximum: nat) {
    target.0.Known? && 1 <= target.1 <= maximum
  }

  ghost predicate LevelsStand(v: Village) {
    forall b :: v.buildings(b) >= 0
  }

  predicate StockStands(v: Village) {
    v.resources.wood >= 0.0 && v.resources.clay >= 0.0 && v.resources.stone >= 0.0 && v.resources.gold >= 0.0
  }

  /** One to three slots, no more jobs than slots, and none of the jobs beyond them. */
  predicate SlotsStand(q: Projections, v: Village) {
    && q.capacity.Some? && 1 <= q.capacity.value <= 3 && |v.jobs| <= q.capacity.value
    && forall i :: 0 <= i < |v.jobs| ==> v.jobs[i].slot < q.capacity.value
  }

  /** The refusals before the search: target, levels, stock, running jobs, in this order. */
  lemma InputRefusals(v: Village, q: Projections, target: (Id, int), maximum: nat)
    ensures var r := Plan(v, q, target, maximum);
      var targets, levels, stock := TargetStands(target, maximum), LevelsStand(v), StockStands(v);
      && (r == Failure(InvalidTarget) <==> !targets)
      && (r == Failure(InvalidBuildingLevels) <==> targets && !levels)
      && (r == Failure(InvalidResources) <==> targets && levels && !stock)
      && (r.Failure? && (r.error.InvalidConstructionState? || r.error.ConflictingConstruction?) <==>
            targets && levels && stock && ActiveJobs(v, v.jobs).Failure?)
      && (targets && levels && stock && ActiveJobs(v, v.jobs).Failure? ==> r == Failure(ActiveJobs(v, v.jobs).error))
  {
    hide ActiveJobs, PriceAll, ScheduleAll, NextStep, Visit;
    if ValidLevels(v) {
      JobRefusals(v);
      if ActiveJobs(v, v.jobs).Success? && TargetStands(target, maximum) {
        var p := ProblemOf(v, q, maximum);
        var keys := Steps(p, (target.0.building, target.1));
        if keys.Success? {
          PriceRefusals(v, q, ActiveJobs(v, v.jobs).value, keys.value);
        }
      }
    }
  }

  /** Everything handed in stands, so that steps are searched for. */
  ghost predicate Searched(v: Village, target: (Id, int), maximum: nat, active: map<Key, Job>) {
    TargetStands(target, maximum) && LevelsStand(v) && StockStands(v) && ActiveJobs(v, v.jobs) == Success(active)
  }

  /** The refusals from the search on: its own, a missing price or duration, and the slots, in this order. */
  lemma StepRefusals(v: Village, q: Projections, target: (Id, int), maximum: nat, active: map<Key, Job>)
    requires Searched(v, target, maximum, active)
    ensures var r := Plan(v, q, target, maximum);
      var keys := Steps(ProblemOf(v, q, maximum), (target.0.building, target.1));
      && (keys.Failure? <==> r.Failure? && r.error.SearchFailed?)
      && (keys.Failure? ==> r == Failure(SearchFailed(keys.error)))
      && (r == Failure(CostUnavailable) <==> keys.Success? && Unpriced(v, q, active, keys.value, true))
      && (r == Failure(DurationUnavailable) <==> keys.Success? && Unpriced(v, q, active, keys.value, false))
      && (r == Failure(ConstructionCapacityUnavailable) <==>
            keys.Success? && (forall i :: 0 <= i < |keys.value| ==> Priced(v, q, active, keys.value[i]))
            && !SlotsStand(q, v))
  {
    hide ActiveJobs, PriceAll, ScheduleAll, NextStep, Visit, Unpriced, Priced;
    var keys := Steps(ProblemOf(v, q, maximum), (target.0.building, target.1));
    if keys.Success? {
      PriceRefusals(v, q, active, keys.value);
    }
    assert ValidCapacity(q.capacity, v.jobs) <==> SlotsStand(q, v);
  }

  /** The durations a plan asks for are those of the steps not under construction, in order. */
  lemma {:induction false} DurationsAreOfTodo(active: map<Key, Job>, keys: seq<Key>)
    ensures forall k :: k in TodoKeys(active, keys) <==> k in keys && k !in active
    ensures (forall k :: k in keys ==> k !in active) ==> TodoKeys(active, keys) == keys
    ensures |TodoKeys(active, keys)| <= |keys|
  {
    if keys != [] {
      DurationsAreOfTodo(active, keys[..|keys| - 1]);
      assert keys == keys[..|keys| - 1] + [keys[|keys| - 1]];
    }
  }

  lemma {:induction false} DurationsKeepOrder(active: map<Key, Job>, a: seq<Key>, b: seq<Key>)
    ensures TodoKeys(active, a + b) == TodoKeys(active, a) + TodoKeys(active, b)
  {
    if b == [] {
      assert a + b == a;
    } else {
      DurationsKeepOrder(active, a, b[..|b| - 1]);
      assert (a + b)[..|a + b| - 1] == a + b[..|b| - 1];
    }
  }
}

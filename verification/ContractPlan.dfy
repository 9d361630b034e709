/**
 The planner under the rules, prices and slots of the on-chain game
 (src/world-game/build-planner.js:15-207 with src/world-game/projections.js:19-81 and 124-129).
 */
module ContractPlan {
  import opened Wrappers
  import opened DependencySearch
  import opened PlanExistence
  import opened BuildPlanner
  import opened PlanResult
  import ContractCurves

  /** How many constructions a workshop of this level lets run at once. */
  function GetContractConstructionCapacity(workshop: int): int {
    if workshop >= 21 then 3 else if workshop >= 11 then 2 else 1
  }

  function ContractPrice(b: Building, level: int): Amounts {
    var l: nat := if level < 0 then 0 else level;
    Amounts(ContractCurves.CostComponent(b, l, 0) as real, ContractCurves.CostComponent(b, l, 1) as real,
            ContractCurves.CostComponent(b, l, 2) as real, ContractCurves.CostComponent(b, l, 3) as real)
  }

  /** The contract's projections for a village; durations are read from the chain. */
  function ContractProjections(v: Village, duration: (Building, nat) -> Option<real>): Projections {
    Projections((b: Building, l: nat) => Some(ContractRules(b, l)),
                (levels: Building -> int, b: Building) => Some(ContractPrice(b, levels(b))),
                duration,
                Some(GetContractConstructionCapacity(v.buildings(Workshop))))
  }

  // ---------------------------------------------------------------- when each stage succeeds

  predicate DurationKnown(duration: (Building, nat) -> Option<real>, k: Key) {
    duration(k.0, k.1).Some? && duration(k.0, k.1).value >= 0.0
  }

  lemma {:induction false} PriceAllIff(v: Village, duration: (Building, nat) -> Option<real>, active: map<Key, Job>,
          keys: seq<Key>)
    ensures PriceAll(v, ContractProjections(v, duration), active, keys).Success? <==>
      forall i :: 0 <= i < |keys| ==> keys[i] in active || DurationKnown(duration, keys[i])
  {
    hide ContractCurves.CostComponent;
    if keys != [] {
      PriceAllIff(v, duration, active, keys[..|keys| - 1]);
    }
  }

  /** The village's jobs fit the slots its workshop gives. */
  predicate SlotsSuffice(v: Village) {
    var capacity := GetContractConstructionCapacity(v.buildings(Workshop));
    |v.jobs| <= capacity && forall job :: job in v.jobs ==> job.slot < capacity
  }

  lemma ContractStepsExist(v: Village, duration: (Building, nat) -> Option<real>, maximum: nat, target: Key)
    requires maximum >= 4 && target in Universe(ProblemOf(v, ContractProjections(v, duration), maximum))
    ensures Steps(ProblemOf(v, ContractProjections(v, duration), maximum), target).Success?
  {
    hide Visit, VisitAll;
    var p := ProblemOf(v, ContractProjections(v, duration), maximum);
    ContractIsRanked(p.levels, maximum);
    var q := ContractProblem(p.levels, maximum);
    assert Ranked(q, AllSteps(q), Rank);
    assert Ranked(p, AllSteps(p), Rank);
    RankedVisitSucceeds(p, [], {}, target, AllSteps(p), Rank);
  }

  /** Every step of the plan is being built already or has a duration. */
  ghost predicate StepsTimed(v: Village, duration: (Building, nat) -> Option<real>, keys: seq<Key>) {
    forall i :: 0 <= i < |keys| ==> BeingBuilt(v, v.jobs, keys[i]) || DurationKnown(duration, keys[i])
  }

  /**
   Under the contract's rules nothing about the buildings can block a plan. It is given exactly when the
   target is one of the contract's levels, the village's levels, stock and running jobs make sense, the
   jobs fit the slots, and the chain answered with the durations of the steps still to build.
   */
  lemma ContractPlanSucceedsIff(v: Village, duration: (Building, nat) -> Option<real>, target: (Id, int), maximum: nat)
    requires maximum >= 4
    ensures var q := ContractProjections(v, duration);
      Plan(v, q, target, maximum).Success? <==>
        && ValidTarget(target, maximum) && ValidLevels(v) && Fits(NOTHING, v.resources)
        && ValidJobs(v.now, v.jobs) && SlotsSuffice(v)
        && Steps(ProblemOf(v, q, maximum), (target.0.building, target.1)).Success?
        && StepsTimed(v, duration, Steps(ProblemOf(v, q, maximum), (target.0.building, target.1)).value)
    ensures ValidTarget(target, maximum) ==>
      Steps(ProblemOf(v, ContractProjections(v, duration), maximum), (target.0.building, target.1)).Success?
  {
    hide Visit, VisitAll, ActiveJobs, PriceAll, ScheduleAll, NextStep, BeingBuilt, ContractPrice;
    var q := ContractProjections(v, duration);
    if ValidTarget(target, maximum) {
      var k: Key := (target.0.building, target.1);
      ContractStepsExist(v, duration, maximum, k);
      if ValidLevels(v) {
        ActiveJobsIff(v, v.jobs);
        if ActiveJobs(v, v.jobs).Success? {
          PriceAllIff(v, duration, ActiveJobs(v, v.jobs).value, Steps(ProblemOf(v, q, maximum), k).value);
        }
      }
    }
  }
}

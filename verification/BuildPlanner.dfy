/**
 The construction plan: the steps of the dependency search, priced, put on construction slots and
 checked against the stock (src/world-game/build-planner.js:15-207).
 */
module BuildPlanner {
  import opened Wrappers
  import opened DependencySearch

  datatype Amounts = Amounts(wood: real, clay: real, stone: real, gold: real)

  /** A construction in progress. */
  datatype Job = Job(pending: bool, id: Id, slot: int, completesAt: real)

  datatype Village = Village(buildings: Building -> int, resources: Amounts, now: real, jobs: seq<Job>)

  /** The projections handed in; None where they throw or give nothing usable. */
  datatype Projections = Projections(
    requirements: (Building, nat) -> Option<seq<Requirement>>,
    cost: (Building -> int, Building) -> Option<Amounts>,
    duration: (Building, nat) -> Option<real>,
    capacity: Option<int>)

  datatype Reason =
    | InvalidTarget
    | InvalidBuildingLevels
    | InvalidResources
    | InvalidConstructionState
    | ConflictingConstruction(key: Key)
    | SearchFailed(error: SearchError)
    | CostUnavailable
    | DurationUnavailable
    | ConstructionCapacityUnavailable

  /** A step to be scheduled: under construction already, or to do at a price. */
  datatype Work =
    | Running(key: Key, job: Job)
    | Todo(key: Key, cost: Amounts, duration: real)

  datatype Scheduled = Scheduled(
    work: Work, slot: int, start: real, completes: real, affordable: bool, deficits: Amounts)

  datatype BuildPlan = BuildPlan(steps: seq<Scheduled>, next: Option<Scheduled>, durationKeys: seq<Key>)

  const NOTHING := Amounts(0.0, 0.0, 0.0, 0.0)

  predicate Fits(a: Amounts, b: Amounts) {
    a.wood <= b.wood && a.clay <= b.clay && a.stone <= b.stone && a.gold <= b.gold
  }

  function Minus(a: Amounts, b: Amounts): Amounts {
    Amounts(a.wood - b.wood, a.clay - b.clay, a.stone - b.stone, a.gold - b.gold)
  }

  function Plus(a: Amounts, b: Amounts): Amounts {
    Amounts(a.wood + b.wood, a.clay + b.clay, a.stone + b.stone, a.gold + b.gold)
  }

  function Max(a: real, b: real): real {
    if a < b then b else a
  }

  function Lacking(cost: Amounts, stock: Amounts): Amounts {
    Amounts(Max(0.0, cost.wood - stock.wood), Max(0.0, cost.clay - stock.clay),
            Max(0.0, cost.stone - stock.stone), Max(0.0, cost.gold - stock.gold))
  }

  // ---------------------------------------------------------------- running jobs

  predicate ValidJob(job: Job, now: real) {
    job.pending && job.id.Known? && job.completesAt >= now
  }

  /** The running jobs by the step they complete. */
  function ActiveJobs(v: Village, jobs: seq<Job>): Result<map<Key, Job>, Reason>
    requires forall b :: v.buildings(b) >= 0
  {
    if jobs == [] then Success(map[])
    else
      var front := ActiveJobs(v, jobs[..|jobs| - 1]);
      var job := jobs[|jobs| - 1];
      if front.Failure? then front
      else if !ValidJob(job, v.now) then Failure(InvalidConstructionState)
      else
        var key := (job.id.building, v.buildings(job.id.building) + 1);
        if key in front.value then Failure(ConflictingConstruction(key)) else Success(front.value[key := job])
  }

  // ---------------------------------------------------------------- prices

  /** The levels the cost of step `key` is asked for. */
  function LevelsBefore(buildings: Building -> int, key: Key): Building -> int {
    (b: Building) => if b == key.0 then key.1 - 1 else buildings(b)
  }

  function Price(v: Village, q: Projections, active: map<Key, Job>, key: Key): Result<Work, Reason> {
    if key in active then Success(Running(key, active[key]))
    else
      var cost := q.cost(LevelsBefore(v.buildings, key), key.0);
      if cost.None? || !Fits(NOTHING, cost.value) then Failure(CostUnavailable)
      else
        var duration := q.duration(key.0, key.1);
        if duration.None? || duration.value < 0.0 then Failure(DurationUnavailable)
        else Success(Todo(key, cost.value, duration.value))
  }

  function PriceAll(v: Village, q: Projections, active: map<Key, Job>, keys: seq<Key>): Result<seq<Work>, Reason> {
    if keys == [] then Success([])
    else
      var front := PriceAll(v, q, active, keys[..|keys| - 1]);
      var last := Price(v, q, active, keys[|keys| - 1]);
      if front.Failure? then front
      else if last.Failure? then Failure(last.error)
      else Success(front.value + [last.value])
  }

  // ---------------------------------------------------------------- slots

  /** When each slot is free, before anything is scheduled. */
  function InitialSlots(capacity: nat, now: real, jobs: seq<Job>): (slots: seq<real>)
    ensures |slots| == capacity
  {
    if jobs == [] then seq(capacity, _ => now)
    else
      var front := InitialSlots(capacity, now, jobs[..|jobs| - 1]);
      var job := jobs[|jobs| - 1];
      if 0 <= job.slot < capacity then front[job.slot := job.completesAt] else front
  }

  /** The first of the slots that are free earliest. */
  function FirstFree(slots: seq<real>): (best: nat)
    requires slots != []
    ensures best < |slots| && forall i :: 0 <= i < |slots| ==> slots[best] <= slots[i]
  {
    var n := |slots| - 1;
    if n == 0 then 0
    else
      var best := FirstFree(slots[..n]);
      assert forall i :: 0 <= i < n ==> slots[..n][i] == slots[i];
      if slots[n] < slots[best] then n else best
  }

  /** Of the slots free earliest the one with the lowest number is taken. */
  lemma {:induction false} LowestSlotIsTaken(slots: seq<real>)
    requires slots != []
    ensures var best := FirstFree(slots);
      && best < |slots|
      && (forall i :: 0 <= i < |slots| ==> slots[best] <= slots[i])
      && forall i :: 0 <= i < best ==> slots[best] < slots[i]
  {
    var n := |slots| - 1;
    if n > 0 {
      var best := FirstFree(slots[..n]);
      LowestSlotIsTaken(slots[..n]);
      assert forall i :: 0 <= i < n ==> slots[..n][i] == slots[i];
    }
  }

  // ---------------------------------------------------------------- scheduling

  datatype Board = Board(slots: seq<real>, remaining: Amounts, done: seq<Scheduled>)

  predicate Answers(s: Scheduled, r: Requirement) {
    r.id == Known(s.work.key.0) && r.level == s.work.key.1
  }

  /** The scheduled step a requirement refers to, if there is one. */
  function Lookup(done: seq<Scheduled>, r: Requirement): Option<Scheduled> {
    if done == [] then None
    else
      var last := done[|done| - 1];
      if Answers(last, r) then Some(last) else Lookup(done[..|done| - 1], r)
  }

  /** `completesAt || now`: a step that completes at time zero counts as complete now. */
  function CompletionSeen(s: Scheduled, now: real): real {
    if s.completes == 0.0 then now else s.completes
  }

  /** When the requirements found on the board are complete. */
  function ReadyAt(done: seq<Scheduled>, requirements: seq<Requirement>, now: real): real {
    if requirements == [] then now
    else
      var latest := ReadyAt(done, requirements[..|requirements| - 1], now);
      var found := Lookup(done, requirements[|requirements| - 1]);
      if found.None? then latest else Max(latest, CompletionSeen(found.value, now))
  }

  function RequirementsOf(p: Problem, key: Key): seq<Requirement> {
    var rules := p.rules(key.0, key.1);
    if rules.None? then [] else rules.value
  }

  function Schedule(p: Problem, now: real, board: Board, work: Work): Board
    requires board.slots != []
  {
    match work
    case Running(_, job) =>
      board.(done := board.done + [Scheduled(work, job.slot, now, job.completesAt, false, NOTHING)])
    case Todo(key, cost, duration) =>
      var ready := ReadyAt(board.done, RequirementsOf(p, key), now);
      var slot := FirstFree(board.slots);
      var start := Max(ready, board.slots[slot]);
      var completes := start + duration * 1000.0;
      var deficits := Lacking(cost, board.remaining);
      var affordable := deficits == NOTHING;
      Board(board.slots[slot := completes],
            if affordable then Minus(board.remaining, cost) else board.remaining,
            board.done + [Scheduled(work, slot, start, completes, affordable, deficits)])
  }

  function ScheduleAll(p: Problem, now: real, board: Board, works: seq<Work>): (r: Board)
    requires board.slots != []
    ensures |r.slots| == |board.slots|
  {
    if works == [] then board
    else Schedule(p, now, ScheduleAll(p, now, board, works[..|works| - 1]), works[|works| - 1])
  }

  predicate StartsNext(p: Problem, now: real, done: seq<Scheduled>, s: Scheduled) {
    && s.work.Todo? && s.start <= now && s.affordable
    && forall r :: r in RequirementsOf(p, s.work.key) ==>
         Lookup(done, r).None? || !Lookup(done, r).value.work.Running?
  }

  /** The first of the first `n` steps that can start now. */
  function NextStep(p: Problem, now: real, done: seq<Scheduled>, n: nat): Option<Scheduled>
    requires n <= |done|
  {
    if n == 0 then None
    else
      var earlier := NextStep(p, now, done, n - 1);
      if earlier.Some? then earlier
      else if StartsNext(p, now, done, done[n - 1]) then Some(done[n - 1]) else None
  }

  // ---------------------------------------------------------------- the plan

  function ProblemOf(v: Village, q: Projections, maximum: nat): Problem {
    Problem((b: Building) => if v.buildings(b) < 0 then 0 else v.buildings(b), q.requirements, maximum)
  }

  function TodoKeys(active: map<Key, Job>, keys: seq<Key>): seq<Key> {
    if keys == [] then []
    else
      var last := keys[|keys| - 1];
      TodoKeys(active, keys[..|keys| - 1]) + if last in active then [] else [last]
  }

  predicate ValidCapacity(capacity: Option<int>, jobs: seq<Job>) {
    && capacity.Some? && 1 <= capacity.value <= 3 && |jobs| <= capacity.value
    && forall job :: job in jobs ==> job.slot < capacity.value
  }

  predicate ValidTarget(target: (Id, int), maximum: nat) {
    target.0.Known? && 1 <= target.1 <= maximum
  }

  predicate ValidLevels(v: Village) {
    forall b :: v.buildings(b) >= 0
  }

  function StartBoard(v: Village, capacity: nat): Board {
    Board(InitialSlots(capacity, v.now, v.jobs), v.resources, [])
  }

  /** The plan once the steps are known. */
  function PlanSteps(v: Village, q: Projections, p: Problem, active: map<Key, Job>, keys: seq<Key>): Result<BuildPlan,
          Reason> {
    var works := PriceAll(v, q, active, keys);
    if works.Failure? then Failure(works.error)
    else if !ValidCapacity(q.capacity, v.jobs) then Failure(ConstructionCapacityUnavailable)
    else
      var done := ScheduleAll(p, v.now, StartBoard(v, q.capacity.value), works.value).done;
      Success(BuildPlan(done, NextStep(p, v.now, done, |done|), TodoKeys(active, keys)))
  }

  function Plan(v: Village, q: Projections, target: (Id, int), maximum: nat): Result<BuildPlan, Reason> {
    if !ValidTarget(target, maximum) then Failure(InvalidTarget)
    else if !ValidLevels(v) then Failure(InvalidBuildingLevels)
    else if !Fits(NOTHING, v.resources) then Failure(InvalidResources)
    else
      var active := ActiveJobs(v, v.jobs);
      if active.Failure? then Failure(active.error)
      else
        var p := ProblemOf(v, q, maximum);
        var keys := Steps(p, (target.0.building, target.1));
        if keys.Failure? then Failure(SearchFailed(keys.error))
        else PlanSteps(v, q, p, active.value, keys.value)
  }

  // ---------------------------------------------------------------- as loops

  lemma {:induction false} ActiveFailurePersists(v: Village, jobs: seq<Job>, k: nat)
    requires ValidLevels(v) && k <= |jobs| && ActiveJobs(v, jobs[..k]).Failure?
    ensures ActiveJobs(v, jobs) == ActiveJobs(v, jobs[..k])
  {
    if k == |jobs| {
      assert jobs[..k] == jobs;
    } else {
      assert jobs[..|jobs| - 1][..k] == jobs[..k];
      ActiveFailurePersists(v, jobs[..|jobs| - 1], k);
    }
  }

  method CollectJobs(v: Village) returns (r: Result<map<Key, Job>, Reason>)
    requires ValidLevels(v)
    ensures r == ActiveJobs(v, v.jobs)
  {
    var active: map<Key, Job> := map[];
    for i := 0 to |v.jobs|
      invariant ActiveJobs(v, v.jobs[..i]) == Success(active)
    {
      var job := v.jobs[i];
      assert v.jobs[..i + 1][..i] == v.jobs[..i];
      if !ValidJob(job, v.now) {
        ActiveFailurePersists(v, v.jobs, i + 1);
        return Failure(InvalidConstructionState);
      }
      var key := (job.id.building, v.buildings(job.id.building) + 1);
      if key in active {
        ActiveFailurePersists(v, v.jobs, i + 1);
        return Failure(ConflictingConstruction(key));
      }
      active := active[key := job];
    }
    assert v.jobs[..|v.jobs|] == v.jobs;
    r := Success(active);
  }

  lemma {:induction false} PriceFailurePersists(v: Village, q: Projections, active: map<Key, Job>, keys: seq<Key>,
          k: nat)
    requires k <= |keys| && PriceAll(v, q, active, keys[..k]).Failure?
    ensures PriceAll(v, q, active, keys) == PriceAll(v, q, active, keys[..k])
  {
    if k == |keys| {
      assert keys[..k] == keys;
    } else {
      assert keys[..|keys| - 1][..k] == keys[..k];
      PriceFailurePersists(v, q, active, keys[..|keys| - 1], k);
    }
  }

  method PriceSteps(v: Village, q: Projections, active: map<Key, Job>,
          keys: seq<Key>) returns (r: Result<seq<Work>, Reason>)
    ensures r == PriceAll(v, q, active, keys)
  {
    var works: seq<Work> := [];
    for i := 0 to |keys|
      invariant PriceAll(v, q, active, keys[..i]) == Success(works)
    {
      assert keys[..i + 1][..i] == keys[..i];
      var work := Price(v, q, active, keys[i]);
      if work.Failure? {
        PriceFailurePersists(v, q, active, keys, i + 1);
        return Failure(work.error);
      }
      works := works + [work.value];
    }
    assert keys[..|keys|] == keys;
    r := Success(works);
  }

  method ReserveSlots(slots: array<real>, now: real, jobs: seq<Job>)
    requires slots[..] == seq(slots.Length, _ => now)
    modifies slots
    ensures slots[..] == InitialSlots(slots.Length, now, jobs)
  {
    for i := 0 to |jobs|
      invariant slots[..] == InitialSlots(slots.Length, now, jobs[..i])
    {
      assert jobs[..i + 1][..i] == jobs[..i];
      if 0 <= jobs[i].slot < slots.Length {
        slots[jobs[i].slot] := jobs[i].completesAt;
      }
    }
    assert jobs[..|jobs|] == jobs;
  }

  /** Puts one step on a slot, occupying slot and stock in place. */
  method ScheduleStep(p: Problem, now: real, slots: array<real>, stock: Amounts, done: seq<Scheduled>, work: Work)
    returns (scheduled: Scheduled, remaining: Amounts)
    requires slots.Length > 0
    modifies slots
    ensures Board(slots[..], remaining, done + [scheduled])
      == Schedule(p, now, Board(old(slots[..]), stock, done), work)
  {
    hide ReadyAt, Lacking, RequirementsOf;
    remaining := stock;
    match work
    case Running(_, job) =>
      scheduled := Scheduled(work, job.slot, now, job.completesAt, false, NOTHING);
    case Todo(key, cost, duration) =>
      var ready := ReadyAt(done, RequirementsOf(p, key), now);
      var slot := FirstFree(slots[..]);
      var start := Max(ready, slots[slot]);
      slots[slot] := start + duration * 1000.0;
      var deficits := Lacking(cost, remaining);
      scheduled := Scheduled(work, slot, start, slots[slot], deficits == NOTHING, deficits);
      if deficits == NOTHING {
        remaining := Minus(remaining, cost);
      }
  }

  method ScheduleSteps(p: Problem, now: real, slots: array<real>, stock: Amounts, works: seq<Work>)
    returns (done: seq<Scheduled>, remaining: Amounts)
    requires slots.Length > 0
    modifies slots
    ensures Board(slots[..], remaining, done) == ScheduleAll(p, now, Board(old(slots[..]), stock, []), works)
  {
    hide Schedule;
    remaining, done := stock, [];
    for i := 0 to |works|
      invariant Board(slots[..], remaining, done) == ScheduleAll(p, now, Board(old(slots[..]), stock, []), works[..i])
    {
      assert works[..i + 1][..i] == works[..i];
      var scheduled;
      scheduled, remaining := ScheduleStep(p, now, slots, remaining, done, works[i]);
      done := done + [scheduled];
    }
    assert works[..|works|] == works;
  }

  method FindNext(p: Problem, now: real, done: seq<Scheduled>) returns (next: Option<Scheduled>)
    ensures next == NextStep(p, now, done, |done|)
  {
    next := None;
    for i := 0 to |done|
      invariant next == None && NextStep(p, now, done, i) == None
    {
      if StartsNext(p, now, done, done[i]) {
        NextPersists(p, now, done, i + 1, |done|);
        return Some(done[i]);
      }
    }
  }

  lemma {:induction false} NextPersists(p: Problem, now: real, done: seq<Scheduled>, k: nat, n: nat)
    requires k <= n <= |done| && NextStep(p, now, done, k).Some?
    ensures NextStep(p, now, done, n) == NextStep(p, now, done, k)
    decreases n
  {
    if k < n {
      NextPersists(p, now, done, k, n - 1);
    }
  }

  method PlanBuildingDependencies(v: Village, q: Projections, target: (Id, int), maximum: nat)
    returns (r: Result<BuildPlan, Reason>)
    ensures r == Plan(v, q, target, maximum)
  {
    hide Visit, PriceAll, ScheduleAll, NextStep, ActiveJobs, InitialSlots;
    if !ValidTarget(target, maximum) {
      return Failure(InvalidTarget);
    }
    if !ValidLevels(v) {
      return Failure(InvalidBuildingLevels);
    }
    if !Fits(NOTHING, v.resources) {
      return Failure(InvalidResources);
    }
    var active := CollectJobs(v);
    if active.Failure? {
      return Failure(active.error);
    }
    var p := ProblemOf(v, q, maximum);
    var searcher := new Searcher(p);
    var fault := searcher.VisitStep((target.0.building, target.1));
    if fault.Some? {
      return Failure(SearchFailed(fault.value));
    }
    r := PlanFoundSteps(v, q, p, active.value, searcher.nodes);
  }

  method PlanFoundSteps(v: Village, q: Projections, p: Problem, active: map<Key, Job>, keys: seq<Key>)
    returns (r: Result<BuildPlan, Reason>)
    ensures r == PlanSteps(v, q, p, active, keys)
  {
    hide PriceAll, ScheduleAll, NextStep, InitialSlots, TodoKeys;
    var works := PriceSteps(v, q, active, keys);
    if works.Failure? {
      return Failure(works.error);
    }
    if !ValidCapacity(q.capacity, v.jobs) {
      return Failure(ConstructionCapacityUnavailable);
    }
    var slots := new real[q.capacity.value](_ => v.now);
    assert slots[..] == seq(slots.Length, _ => v.now);
    ReserveSlots(slots, v.now, v.jobs);
    var done, remaining := ScheduleSteps(p, v.now, slots, v.resources, works.value);
    var next := FindNext(p, v.now, done);
    r := Success(BuildPlan(done, next, TodoKeys(active, keys)));
  }
}

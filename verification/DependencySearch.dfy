/**
 The depth-first search for the construction steps a target needs
 (src/world-game/build-planner.js:72-117).
 */
module DependencySearch {
  import opened Wrappers
  import opened Sorting

  /** The eight buildings in the order their names sort. */
  datatype Building = Barracks | Claypit | Goldmine | Quarry | Timber | Townhall | Warehouse | Workshop

  /** A building id as a rule may name it: one of the eight, or some other text sorting at `place`. */
  datatype Id = Known(building: Building) | Unknown(place: real)

  datatype Requirement = Requirement(id: Id, level: int)

  /** One construction step: a building and the level it reaches. */
  type Key = (Building, nat)

  /** The levels of a village, the rules (None where they throw or return no list) and the level cap. */
  datatype Problem = Problem(levels: Building -> nat, rules: (Building, nat) -> Option<seq<Requirement>>, maximum: nat)

  datatype SearchError = DependencyCycle(at: Key) | RequirementsUnavailable | InvalidRequirement

  function Place(id: Id): real {
    match id
    case Known(Barracks) => 1.0
    case Known(Claypit) => 2.0
    case Known(Goldmine) => 3.0
    case Known(Quarry) => 4.0
    case Known(Timber) => 5.0
    case Known(Townhall) => 6.0
    case Known(Warehouse) => 7.0
    case Known(Workshop) => 8.0
    case Unknown(place) => place
  }

  /** The comparator of requirements: by id, then by level. */
  predicate StepBefore(a: Requirement, b: Requirement) {
    if Place(a.id) != Place(b.id) then Place(a.id) < Place(b.id) else a.level < b.level
  }

  predicate ValidRequirement(p: Problem, r: Requirement) {
    r.id.Known? && 1 <= r.level <= p.maximum
  }

  function KeyOf(r: Requirement): Key
    requires r.id.Known? && r.level >= 0
  {
    (r.id.building, r.level)
  }

  function Universe(p: Problem): set<Key> {
    set b: Building, l: nat | 1 <= l <= p.maximum :: (b, l)
  }

  // ---------------------------------------------------------------- the search

  /** The steps found so far, in order, after visiting `k`; `visiting` are the steps being visited. */
  function Visit(p: Problem, nodes: seq<Key>, visiting: set<Key>, k: Key): Result<seq<Key>, SearchError>
    requires k in Universe(p)
    decreases Universe(p) - visiting, 0, 0
  {
    if p.levels(k.0) >= k.1 || k in nodes then Success(nodes)
    else if k in visiting then Failure(DependencyCycle(k))
    else
      var below := if k.1 > 1 then Visit(p, nodes, visiting + {k}, (k.0, k.1 - 1)) else Success(nodes);
      if below.Failure? then below
      else
        var requirements := p.rules(k.0, k.1);
        if requirements.None? then Failure(RequirementsUnavailable)
        else
          var found := VisitAll(p, below.value, visiting + {k}, Sort(requirements.value, StepBefore));
          if found.Failure? then found else Success(found.value + [k])
  }

  function VisitAll(p: Problem, nodes: seq<Key>, visiting: set<Key>, requirements: seq<Requirement>): Result<seq<Key>,
          SearchError>
    decreases Universe(p) - visiting, 1, |requirements|
  {
    if requirements == [] then Success(nodes)
    else if !ValidRequirement(p, requirements[0]) then Failure(InvalidRequirement)
    else
      var first := Visit(p, nodes, visiting, KeyOf(requirements[0]));
      if first.Failure? then first else VisitAll(p, first.value, visiting, requirements[1..])
  }

  /** The search as the program runs it: one list of nodes and one set of open visits, updated in place. */
  class Searcher {
    const problem: Problem
    var nodes: seq<Key>
    var visiting: set<Key>

    constructor (problem: Problem)
      ensures this.problem == problem && nodes == [] && visiting == {}
    {
      this.problem := problem;
      nodes, visiting := [], {};
    }

    method VisitStep(k: Key) returns (fault: Option<SearchError>)
      requires k in Universe(problem)
      modifies this
      decreases Universe(problem) - visiting, 0, 0
      ensures fault.None? ==> visiting == old(visiting)
      ensures Visit(problem, old(nodes), old(visiting), k) ==
        if fault.None? then Success(nodes) else Failure(fault.value)
    {
      if problem.levels(k.0) >= k.1 || k in nodes {
        return None;
      }
      if k in visiting {
        return Some(DependencyCycle(k));
      }
      visiting := visiting + {k};
      if k.1 > 1 {
        fault := VisitStep((k.0, k.1 - 1));
        if fault.Some? {
          return;
        }
      }
      var requirements := problem.rules(k.0, k.1);
      if requirements.None? {
        return Some(RequirementsUnavailable);
      }
      fault := VisitSteps(Sort(requirements.value, StepBefore));
      if fault.Some? {
        return;
      }
      nodes := nodes + [k];
      visiting := visiting - {k};
      fault := None;
    }

    method VisitSteps(requirements: seq<Requirement>) returns (fault: Option<SearchError>)
      modifies this
      decreases Universe(problem) - visiting, 1, |requirements|
      ensures fault.None? ==> visiting == old(visiting)
      ensures VisitAll(problem, old(nodes), old(visiting), requirements) ==
        if fault.None? then Success(nodes) else Failure(fault.value)
    {
      if requirements == [] {
        return None;
      }
      if !ValidRequirement(problem, requirements[0]) {
        return Some(InvalidRequirement);
      }
      fault := VisitStep(KeyOf(requirements[0]));
      if fault.Some? {
        return;
      }
      fault := VisitSteps(requirements[1..]);
    }
  }

  // ---------------------------------------------------------------- carrying out a list of steps

  /** The level of `b` after building the steps in order. */
  function LevelAfter(p: Problem, steps: seq<Key>, b: Building): nat {
    if steps == [] then p.levels(b)
    else
      var last := steps[|steps| - 1];
      if last.0 == b then last.1 else LevelAfter(p, steps[..|steps| - 1], b)
  }

  /** `k` can be built next: one level up, every requirement known, in range and met. */
  ghost predicate Buildable(p: Problem, before: seq<Key>, k: Key) {
    && k.1 == LevelAfter(p, before, k.0) + 1
    && p.rules(k.0, k.1).Some?
    && forall r :: r in p.rules(k.0, k.1).value ==>
         ValidRequirement(p, r) && LevelAfter(p, before, r.id.building) >= r.level
  }

  /** The steps can be built in this order. */
  ghost predicate Executable(p: Problem, steps: seq<Key>) {
    if steps == [] then true
    else
      var n := |steps| - 1;
      Executable(p, steps[..n]) && Buildable(p, steps[..n], steps[n])
  }

  ghost predicate Reaches(p: Problem, steps: seq<Key>, k: Key) {
    LevelAfter(p, steps, k.0) >= k.1
  }

  lemma {:induction false} ExecutablePrefix(p: Problem, steps: seq<Key>, n: nat)
    requires Executable(p, steps) && n <= |steps|
    ensures Executable(p, steps[..n])
  {
    if n < |steps| {
      ExecutablePrefix(p, steps[..|steps| - 1], n);
      assert steps[..|steps| - 1][..n] == steps[..n];
    } else {
      assert steps[..n] == steps;
    }
  }

  lemma {:induction false} LevelsRise(p: Problem, steps: seq<Key>, n: nat, b: Building)
    requires Executable(p, steps) && n <= |steps|
    ensures LevelAfter(p, steps[..n], b) <= LevelAfter(p, steps, b)
  {
    if n < |steps| {
      LevelsRise(p, steps[..|steps| - 1], n, b);
      assert steps[..|steps| - 1][..n] == steps[..n];
    } else {
      assert steps[..n] == steps;
    }
  }

  /** A building has passed exactly the steps between its first and its present level. */
  lemma {:induction false} StepsPassed(p: Problem, steps: seq<Key>, b: Building, l: nat)
    requires Executable(p, steps)
    ensures (b, l) in steps <==> p.levels(b) < l <= LevelAfter(p, steps, b)
  {
    if steps != [] {
      var n := |steps| - 1;
      assert steps == steps[..n] + [steps[n]];
      StepsPassed(p, steps[..n], b, l);
      LevelsOnlyRise(p, steps[..n], b);
    }
  }

  lemma {:induction false} LevelsOnlyRise(p: Problem, steps: seq<Key>, b: Building)
    requires Executable(p, steps)
    ensures p.levels(b) <= LevelAfter(p, steps, b)
  {
    if steps != [] {
      LevelsOnlyRise(p, steps[..|steps| - 1], b);
    }
  }

  // ---------------------------------------------------------------- the plan is executable

  ghost predicate Extends(a: seq<Key>, b: seq<Key>) {
    |a| <= |b| && b[..|a|] == a
  }

  /** What a visit adds: an executable continuation that reaches `k` and uses no step being visited. */
  ghost predicate VisitMeaning(p: Problem, nodes: seq<Key>, visiting: set<Key>, r: seq<Key>) {
    && Executable(p, r) && Extends(nodes, r)
    && forall x :: x in r ==> x in nodes || x !in visiting
  }

  lemma ExtendsReaches(p: Problem, a: seq<Key>, b: seq<Key>, k: Key)
    requires Extends(a, b) && Executable(p, b) && Reaches(p, a, k)
    ensures Reaches(p, b, k)
  {
    LevelsRise(p, b, |a|, k.0);
  }

  lemma {:induction false} VisitIsExecutable(p: Problem, nodes: seq<Key>, visiting: set<Key>, k: Key)
    requires k in Universe(p) && Executable(p, nodes) && Visit(p, nodes, visiting, k).Success?
    ensures var r := Visit(p, nodes, visiting, k).value;
      VisitMeaning(p, nodes, visiting, r) && Reaches(p, r, k)
    decreases Universe(p) - visiting, 0, 0
  {
    StepsPassed(p, nodes, k.0, k.1);
    if p.levels(k.0) >= k.1 || k in nodes {
      LevelsOnlyRise(p, nodes, k.0);
    } else {
      var open := visiting + {k};
      var below := if k.1 > 1 then Visit(p, nodes, open, (k.0, k.1 - 1)).value else nodes;
      if k.1 > 1 {
        VisitIsExecutable(p, nodes, open, (k.0, k.1 - 1));
      }
      var requirements := p.rules(k.0, k.1).value;
      var sorted := Sort(requirements, StepBefore);
      SameElements(requirements, sorted);
      VisitAllIsExecutable(p, below, open, sorted);
      var found := VisitAll(p, below, open, sorted).value;
      assert VisitMeaning(p, nodes, open, found);
      LastStepIsBuildable(p, nodes, open, below, found, k);
    }
  }

  lemma LastStepIsBuildable(p: Problem, nodes: seq<Key>, open: set<Key>, below: seq<Key>, found: seq<Key>, k: Key)
    requires k.1 > 0 && p.levels(k.0) < k.1 && k in open && k !in nodes
    requires VisitMeaning(p, nodes, open, found)
    requires Executable(p, below) && (k.1 > 1 ==> Reaches(p, below, (k.0, k.1 - 1))) && Extends(below, found)
    requires p.rules(k.0, k.1).Some?
    requires forall r :: r in p.rules(k.0, k.1).value ==>
      ValidRequirement(p, r) && LevelAfter(p, found, r.id.building) >= r.level
    ensures Buildable(p, found, k) && VisitMeaning(p, nodes, open - {k}, found + [k]) && Reaches(p, found + [k], k)
  {
    StepsPassed(p, found, k.0, k.1);
    if k.1 > 1 {
      ExtendsReaches(p, below, found, (k.0, k.1 - 1));
    }
    assert (found + [k])[..|found|] == found;
    assert (found + [k])[..|nodes|] == found[..|nodes|];
  }

  lemma {:induction false} VisitAllIsExecutable(p: Problem, nodes: seq<Key>, visiting: set<Key>,
          requirements: seq<Requirement>)
    requires Executable(p, nodes) && VisitAll(p, nodes, visiting, requirements).Success?
    ensures var r := VisitAll(p, nodes, visiting, requirements).value;
      VisitMeaning(p, nodes, visiting, r) &&
      forall q :: q in requirements ==> ValidRequirement(p, q) && LevelAfter(p, r, q.id.building) >= q.level
    decreases Universe(p) - visiting, 1, |requirements|
  {
    if requirements != [] {
      var k := KeyOf(requirements[0]);
      VisitIsExecutable(p, nodes, visiting, k);
      var first := Visit(p, nodes, visiting, k).value;
      VisitAllIsExecutable(p, first, visiting, requirements[1..]);
      var r := VisitAll(p, first, visiting, requirements[1..]).value;
      ExtendsReaches(p, first, r, k);
      assert r[..|nodes|] == r[..|first|][..|nodes|];
    }
  }

  // ---------------------------------------------------------------- the plan is least

  /** `k` is already met by the village, or is one of `steps`. */
  ghost predicate Covered(p: Problem, steps: seq<Key>, k: Key) {
    p.levels(k.0) >= k.1 || k in steps
  }

  /** An executable list that reaches a step holds every step that one directly needs, earlier on. */
  lemma {:induction false} NeedsComeEarlier(p: Problem, steps: seq<Key>, i: nat)
    requires Executable(p, steps) && i < |steps|
    ensures Buildable(p, steps[..i], steps[i])
    ensures steps[i].1 > 1 ==> Covered(p, steps[..i], (steps[i].0, steps[i].1 - 1))
    ensures forall r :: r in p.rules(steps[i].0, steps[i].1).value ==> Covered(p, steps[..i], KeyOf(r))
  {
    ExecutablePrefix(p, steps, i + 1);
    assert steps[..i + 1][..i] == steps[..i];
    var k := steps[i];
    StepsPassed(p, steps[..i], k.0, k.1 - 1);
    forall r | r in p.rules(k.0, k.1).value
      ensures Covered(p, steps[..i], KeyOf(r))
    {
      StepsPassed(p, steps[..i], r.id.building, r.level);
    }
  }

  /** What an executable list that holds a step holds along with it. */
  lemma NeedsAreCovered(p: Problem, steps: seq<Key>, k: Key)
    requires Executable(p, steps) && k in steps
    ensures p.rules(k.0, k.1).Some? && (k.1 > 1 ==> Covered(p, steps, (k.0, k.1 - 1)))
    ensures forall r :: r in p.rules(k.0, k.1).value ==> ValidRequirement(p, r) && Covered(p, steps, KeyOf(r))
  {
    hide Executable, LevelAfter;
    var i :| 0 <= i < |steps| && steps[i] == k;
    NeedsComeEarlier(p, steps, i);
    assert forall x :: x in steps[..i] ==> x in steps;
  }

  lemma {:induction false} VisitWithin(p: Problem, nodes: seq<Key>, visiting: set<Key>, k: Key, steps: seq<Key>)
    requires k in Universe(p) && Visit(p, nodes, visiting, k).Success?
    requires Executable(p, steps) && Covered(p, steps, k) && forall x :: x in nodes ==> x in steps
    ensures forall x :: x in Visit(p, nodes, visiting, k).value ==> x in steps
    decreases Universe(p) - visiting, 0, 0
  {
    hide Executable, StepBefore;
    if !(p.levels(k.0) >= k.1 || k in nodes) {
      NeedsAreCovered(p, steps, k);
      var open := visiting + {k};
      var below := if k.1 > 1 then Visit(p, nodes, open, (k.0, k.1 - 1)).value else nodes;
      if k.1 > 1 {
        VisitWithin(p, nodes, open, (k.0, k.1 - 1), steps);
      }
      var requirements := p.rules(k.0, k.1).value;
      SameElements(requirements, Sort(requirements, StepBefore));
      VisitAllWithin(p, below, open, Sort(requirements, StepBefore), steps);
    }
  }

  lemma {:induction false} VisitAllWithin(p: Problem, nodes: seq<Key>, visiting: set<Key>,
          requirements: seq<Requirement>, steps: seq<Key>)
    requires VisitAll(p, nodes, visiting, requirements).Success?
    requires Executable(p, steps) && forall x :: x in nodes ==> x in steps
    requires forall r :: r in requirements ==> ValidRequirement(p, r) && Covered(p, steps, KeyOf(r))
    ensures forall x :: x in VisitAll(p, nodes, visiting, requirements).value ==> x in steps
    decreases Universe(p) - visiting, 1, |requirements|
  {
    if requirements != [] {
      VisitWithin(p, nodes, visiting, KeyOf(requirements[0]), steps);
      VisitAllWithin(p, Visit(p, nodes, visiting, KeyOf(requirements[0])).value, visiting, requirements[1..], steps);
    }
  }

  /** The steps found for a target. */
  function Steps(p: Problem, target: Key): Result<seq<Key>, SearchError>
    requires target in Universe(p)
  {
    Visit(p, [], {}, target)
  }

  /**
   The plan can be carried out in list order, ends with the target unless the village already has it,
   and is the least of all plans: every executable list of steps that reaches the target contains it.
   */
  lemma PlanIsExecutableAndLeast(p: Problem, target: Key)
    requires target in Universe(p) && Steps(p, target).Success?
    ensures var steps := Steps(p, target).value;
      && Executable(p, steps) && Reaches(p, steps, target)
      && (steps == [] <==> p.levels(target.0) >= target.1)
      && (steps != [] ==> steps[|steps| - 1] == target)
      && (forall other :: Executable(p, other) && Reaches(p, other, target) ==> forall x :: x in steps ==> x in other)
  {
    var steps := Steps(p, target).value;
    VisitIsExecutable(p, [], {}, target);
    forall other | Executable(p, other) && Reaches(p, other, target)
      ensures forall x :: x in steps ==> x in other
    {
      StepsPassed(p, other, target.0, target.1);
      VisitWithin(p, [], {}, target, other);
    }
  }
}

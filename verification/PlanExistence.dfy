/**
 When a plan exists: the search finds one exactly when there is one, reports a cycle only when the rules
 have one, and never fails under the contract's rules (src/world-game/build-planner.js:72-117,
 src/world-game/projections.js:53-81).
 */
module PlanExistence {
  import opened Wrappers
  import opened Sorting
  import opened DependencySearch

  // ---------------------------------------------------------------- a rank rules out cycles

  /** The steps `k` directly needs. */
  ghost predicate Needs(p: Problem, k: Key, needed: Key) {
    && p.levels(needed.0) < needed.1
    && ((k.1 > 1 && needed == (k.0, k.1 - 1)) ||
        (p.rules(k.0, k.1).Some? &&
         exists r :: r in p.rules(k.0, k.1).value && r.id.Known? && r.id == Known(needed.0) && r.level == needed.1))
  }

  ghost predicate WellRuled(p: Problem, k: Key) {
    p.rules(k.0, k.1).Some? && forall r :: r in p.rules(k.0, k.1).value ==> ValidRequirement(p, r)
  }

  /** `steps` is closed under needs, its rules are well formed, and every need has a lower rank. */
  ghost predicate Ranked(p: Problem, steps: iset<Key>, rank: Key -> int) {
    forall k :: k in steps ==> WellRuled(p, k) && forall n :: Needs(p, k, n) ==> n in steps && rank(n) < rank(k)
  }

  ghost predicate Above(visiting: set<Key>, rank: Key -> int, k: Key) {
    forall v :: v in visiting ==> rank(v) > rank(k)
  }

  lemma {:induction false} RankedVisitSucceeds(p: Problem, nodes: seq<Key>, visiting: set<Key>, k: Key,
          steps: iset<Key>, rank: Key -> int)
    requires k in Universe(p) && Ranked(p, steps, rank)
    requires p.levels(k.0) < k.1 ==> k in steps && Above(visiting, rank, k)
    ensures Visit(p, nodes, visiting, k).Success?
    decreases Universe(p) - visiting, 0, 0
  {
    if !(p.levels(k.0) >= k.1 || k in nodes) {
      var open := visiting + {k};
      assert k !in visiting;
      var below := if k.1 > 1 then Visit(p, nodes, open, (k.0, k.1 - 1)) else Success(nodes);
      if k.1 > 1 {
        assert p.levels(k.0) < k.1 - 1 ==> Needs(p, k, (k.0, k.1 - 1));
        RankedVisitSucceeds(p, nodes, open, (k.0, k.1 - 1), steps, rank);
      }
      var requirements := p.rules(k.0, k.1).value;
      var sorted := Sort(requirements, StepBefore);
      SameElements(requirements, sorted);
      forall r | r in sorted
        ensures ValidRequirement(p, r)
        ensures p.levels(r.id.building) < r.level ==> KeyOf(r) in steps && Above(open, rank, KeyOf(r))
      {
        assert r in requirements;
        assert p.levels(r.id.building) < r.level ==> Needs(p, k, KeyOf(r));
      }
      RankedVisitAllSucceeds(p, below.value, open, sorted, steps, rank);
    }
  }

  lemma {:induction false} RankedVisitAllSucceeds(p: Problem, nodes: seq<Key>, visiting: set<Key>,
          requirements: seq<Requirement>, steps: iset<Key>, rank: Key -> int)
    requires Ranked(p, steps, rank)
    requires forall r :: r in requirements ==>
      && ValidRequirement(p, r)
      && (p.levels(r.id.building) < r.level ==> KeyOf(r) in steps && Above(visiting, rank, KeyOf(r)))
    ensures VisitAll(p, nodes, visiting, requirements).Success?
    decreases Universe(p) - visiting, 1, |requirements|
  {
    if requirements != [] {
      var k := KeyOf(requirements[0]);
      RankedVisitSucceeds(p, nodes, visiting, k, steps, rank);
      RankedVisitAllSucceeds(p, Visit(p, nodes, visiting, k).value, visiting, requirements[1..], steps, rank);
    }
  }

  // ---------------------------------------------------------------- a plan exists iff one is found

  /** The position at which `k` is first built. */
  ghost function Position(steps: seq<Key>, k: Key): int {
    if steps == [] then 0 else if k in steps[..|steps| - 1] then Position(steps[..|steps| - 1], k) else |steps| - 1
  }

  ghost function StepSet(steps: seq<Key>): iset<Key> {
    iset k | k in steps
  }

  ghost function PositionIn(steps: seq<Key>): Key -> int {
    (k: Key) => Position(steps, k)
  }

  lemma {:induction false} PositionBuilds(steps: seq<Key>, k: Key)
    requires k in steps
    ensures 0 <= Position(steps, k) < |steps| && steps[Position(steps, k)] == k
    ensures k !in steps[..Position(steps, k)]
  {
    var n := |steps| - 1;
    assert steps == steps[..n] + [steps[n]];
    if k in steps[..n] {
      PositionBuilds(steps[..n], k);
      assert steps[..n][..Position(steps, k)] == steps[..Position(steps, k)];
    }
  }

  lemma {:induction false} PositionBefore(steps: seq<Key>, i: nat, k: Key)
    requires i <= |steps| && k in steps[..i]
    ensures Position(steps, k) < i
  {
    assert forall x :: x in steps[..i] ==> x in steps;
    PositionBuilds(steps, k);
    var m :| 0 <= m < i && steps[..i][m] == k;
    assert steps[m] == k;
  }

  /** The steps of any executable list are closed under needs, each need being built earlier. */
  lemma ExecutableIsRanked(p: Problem, steps: seq<Key>)
    requires Executable(p, steps)
    ensures Ranked(p, StepSet(steps), PositionIn(steps))
  {
    var rank := PositionIn(steps);
    forall k | k in steps
      ensures WellRuled(p, k)
      ensures forall n :: Needs(p, k, n) ==> n in steps && rank(n) < rank(k)
    {
      PositionBuilds(steps, k);
      var i := Position(steps, k);
      NeedsComeEarlier(p, steps, i);
      forall n | Needs(p, k, n)
        ensures n in steps && rank(n) < rank(k)
      {
        assert Covered(p, steps[..i], n);
        assert forall x :: x in steps[..i] ==> x in steps;
        PositionBefore(steps, i, n);
      }
    }
  }

  /** The search succeeds exactly when some list of steps can be carried out to reach the target. */
  lemma PlanExistsIff(p: Problem, target: Key)
    requires target in Universe(p)
    ensures Steps(p, target).Success? <==> exists steps :: Executable(p, steps) && Reaches(p, steps, target)
  {
    if Steps(p, target).Success? {
      PlanIsExecutableAndLeast(p, target);
    }
    if steps :| Executable(p, steps) && Reaches(p, steps, target) {
      ExecutableIsRanked(p, steps);
      StepsPassed(p, steps, target.0, target.1);
      RankedVisitSucceeds(p, [], {}, target, StepSet(steps), PositionIn(steps));
    }
  }

  // ---------------------------------------------------------------- a reported cycle is real

  /** Each step of the walk needs the next. */
  ghost predicate Walk(p: Problem, walk: seq<Key>) {
    forall i, j :: 0 <= i < |walk| && 0 <= j < |walk| && j == i + 1 ==> Needs(p, walk[i], walk[j])
  }

  lemma WalkOn(p: Problem, walk: seq<Key>, k: Key, n: Key)
    requires Walk(p, walk + [k]) && Needs(p, k, n)
    ensures Walk(p, walk + [k] + [n])
  {
    var longer := walk + [k] + [n];
    forall i, j | 0 <= i < |longer| && 0 <= j < |longer| && j == i + 1
      ensures Needs(p, longer[i], longer[j])
    {
      assert j < |longer| - 1 ==> Needs(p, (walk + [k])[i], (walk + [k])[j]);
    }
  }

  /** From `start` the walk reaches `at` twice. */
  ghost predicate Loops(p: Problem, walk: seq<Key>, start: Key, at: Key) {
    && Walk(p, walk) && |walk| > 1 && walk[0] == start && walk[|walk| - 1] == at
    && exists i :: 0 <= i < |walk| - 1 && walk[i] == at
  }

  lemma {:induction false} CycleInVisit(p: Problem, nodes: seq<Key>, stack: seq<Key>, visiting: set<Key>,
          k: Key) returns (walk: seq<Key>)
    requires k in Universe(p) && visiting == set x | x in stack
    requires p.levels(k.0) < k.1 ==> Walk(p, stack + [k])
    requires Visit(p, nodes, visiting, k).Failure? && Visit(p, nodes, visiting, k).error.DependencyCycle?
    ensures Loops(p, walk, (stack + [k])[0], Visit(p, nodes, visiting, k).error.at)
    decreases Universe(p) - visiting, 0, 0
  {
    if k in visiting {
      walk := stack + [k];
      var i :| 0 <= i < |stack| && stack[i] == k;
      assert walk[i] == k;
    } else {
      var open := visiting + {k};
      assert open == set x | x in stack + [k];
      var below := if k.1 > 1 then Visit(p, nodes, open, (k.0, k.1 - 1)) else Success(nodes);
      if below.Failure? {
        if p.levels(k.0) < k.1 - 1 {
          WalkOn(p, stack, k, (k.0, k.1 - 1));
        }
        walk := CycleInVisit(p, nodes, stack + [k], open, (k.0, k.1 - 1));
      } else {
        var requirements := p.rules(k.0, k.1).value;
        SameElements(requirements, Sort(requirements, StepBefore));
        walk := CycleInVisitAll(p, below.value, stack, k, open, Sort(requirements, StepBefore));
      }
    }
  }

  lemma {:induction false} CycleInVisitAll(p: Problem, nodes: seq<Key>, stack: seq<Key>, k: Key, visiting: set<Key>,
          requirements: seq<Requirement>) returns (walk: seq<Key>)
    requires visiting == set x | x in stack + [k]
    requires Walk(p, stack + [k]) && p.rules(k.0, k.1).Some?
    requires forall r :: r in requirements ==> r in p.rules(k.0, k.1).value
    requires VisitAll(p, nodes, visiting, requirements).Failure?
    requires VisitAll(p, nodes, visiting, requirements).error.DependencyCycle?
    ensures Loops(p, walk, (stack + [k])[0], VisitAll(p, nodes, visiting, requirements).error.at)
    decreases Universe(p) - visiting, 1, |requirements|
  {
    var n := KeyOf(requirements[0]);
    var first := Visit(p, nodes, visiting, n);
    if first.Failure? {
      if p.levels(n.0) < n.1 {
        assert Needs(p, k, n);
        WalkOn(p, stack, k, n);
      }
      walk := CycleInVisit(p, nodes, stack + [k], visiting, n);
      assert (stack + [k] + [n])[0] == (stack + [k])[0];
    } else {
      walk := CycleInVisitAll(p, first.value, stack, k, visiting, requirements[1..]);
    }
  }

  lemma {:induction false} RankFallsAlong(p: Problem, steps: iset<Key>, rank: Key -> int, walk: seq<Key>, i: nat,
          j: nat)
    requires Ranked(p, steps, rank) && Walk(p, walk) && i < j < |walk| && walk[i] in steps
    ensures walk[j] in steps && rank(walk[j]) < rank(walk[i])
    decreases j - i
  {
    if i + 1 < j {
      RankFallsAlong(p, steps, rank, walk, i, j - 1);
    }
    assert Needs(p, walk[j - 1], walk[j]);
  }

  /**
   `dependency_cycle` is reported only for a real cycle of unmet needs that the target leads to; and
   when the target, unmet, leads to such a cycle, no plan is found.
   */
  lemma CyclesAreReal(p: Problem, target: Key)
    requires target in Universe(p)
    ensures var r := Steps(p, target);
      && (r.Failure? && r.error.DependencyCycle? ==> exists walk :: Loops(p, walk, target, r.error.at))
      && ((exists walk, at :: p.levels(target.0) < target.1 && Loops(p, walk, target, at)) ==> r.Failure?)
  {
    var r := Steps(p, target);
    if r.Failure? && r.error.DependencyCycle? {
      var walk := CycleInVisit(p, [], [], {}, target);
    }
    if walk, at :| p.levels(target.0) < target.1 && Loops(p, walk, target, at) {
      if r.Success? {
        PlanIsExecutableAndLeast(p, target);
        NoCycleInPlan(p, r.value, walk, target, at);
      }
    }
  }

  lemma NoCycleInPlan(p: Problem, steps: seq<Key>, walk: seq<Key>, target: Key, at: Key)
    requires Executable(p, steps) && target in steps
    ensures !Loops(p, walk, target, at)
  {
    if Loops(p, walk, target, at) {
      ExecutableIsRanked(p, steps);
      var i :| 0 <= i < |walk| - 1 && walk[i] == at;
      var rank := PositionIn(steps);
      if i > 0 {
        RankFallsAlong(p, StepSet(steps), rank, walk, 0, i);
      }
      RankFallsAlong(p, StepSet(steps), rank, walk, i, |walk| - 1);
    }
  }

  // ---------------------------------------------------------------- the contract's rules

  function AtLevel(b: Building, level: int): Requirement {
    Requirement(Known(b), level)
  }

  /** The requirements of the on-chain game for building `b` to reach level `next`. */
  method GetContractRequirementsForLevel(b: Building, next: nat) returns (required: seq<Requirement>)
    ensures required == ContractRules(b, next)
    ensures next >= 1 ==> forall r :: r in required ==> r.id.Known? && r.level >= 1 && Rank(KeyOf(r)) < Rank((b, next))
  {
    forall r | next >= 1 && r in ContractRules(b, next)
      ensures r.id.Known? && r.level >= 1 && Rank(KeyOf(r)) < Rank((b, next))
    {
      RuleLowersRank((b, next), r, next + 4);
    }
    required := [];
    match b
    case Townhall =>
      required := required + [AtLevel(Timber, next)] + [AtLevel(Claypit, next)] + [AtLevel(Quarry, next)];
      if next >= 3 {
        required := required + [AtLevel(Warehouse, next - 1)];
      }
      if next >= 5 {
        required := required + [AtLevel(Workshop, next - 3)];
      }
    case Warehouse => required := required + [AtLevel(Townhall, 1)];
    case Workshop =>
      required := required + [AtLevel(Townhall, 2)] + [AtLevel(Timber, 2)] + [AtLevel(Claypit, 2)]
        + [AtLevel(Quarry, 2)];
    case Goldmine => required := required + [AtLevel(Townhall, 4)] + [AtLevel(Workshop, 2)];
    case Barracks => required := required + [AtLevel(Townhall, 3)] + [AtLevel(Workshop, 1)];
    case Timber =>
    case Claypit =>
    case Quarry =>
  }

  function ContractRules(b: Building, next: nat): seq<Requirement> {
    match b
    case Townhall =>
      [AtLevel(Timber, next), AtLevel(Claypit, next), AtLevel(Quarry, next)]
      + (if next >= 3 then [AtLevel(Warehouse, next - 1)] else [])
      + (if next >= 5 then [AtLevel(Workshop, next - 3)] else [])
    case Warehouse => [AtLevel(Townhall, 1)]
    case Workshop => [AtLevel(Townhall, 2), AtLevel(Timber, 2), AtLevel(Claypit, 2), AtLevel(Quarry, 2)]
    case Goldmine => [AtLevel(Townhall, 4), AtLevel(Workshop, 2)]
    case Barracks => [AtLevel(Townhall, 3), AtLevel(Workshop, 1)]
    case _ => []
  }

  function ContractProblem(levels: Building -> nat, maximum: nat): Problem {
    Problem(levels, (b: Building, l: nat) => Some(ContractRules(b, l)), maximum)
  }

  /** Every step of the contract's rules needs only steps of lower rank. */
  function Rank(k: Key): int {
    match k.0
    case Townhall => 10 * k.1
    case Warehouse => 10 + k.1
    case Workshop => 20 + k.1
    case Barracks => 30 + k.1
    case Goldmine => 40 + k.1
    case _ => k.1
  }

  ghost function AllSteps(p: Problem): iset<Key> {
    iset k | k in Universe(p)
  }

  lemma RuleLowersRank(k: Key, r: Requirement, maximum: nat)
    requires 1 <= k.1 <= maximum && maximum >= 4 && r in ContractRules(k.0, k.1)
    ensures r.id.Known? && 1 <= r.level <= maximum && Rank(KeyOf(r)) < Rank(k)
  {
    match k.0
    case Townhall =>
    case Warehouse =>
    case Workshop =>
    case Barracks =>
    case Goldmine =>
    case _ =>
  }

  lemma ContractIsRanked(levels: Building -> nat, maximum: nat)
    requires maximum >= 4
    ensures var p := ContractProblem(levels, maximum); Ranked(p, AllSteps(p), Rank)
  {
    hide ContractRules, Rank;
    var p := ContractProblem(levels, maximum);
    forall k | k in AllSteps(p)
      ensures WellRuled(p, k)
      ensures forall n :: Needs(p, k, n) ==> n in AllSteps(p) && Rank(n) < Rank(k)
    {
      forall r | r in ContractRules(k.0, k.1)
        ensures ValidRequirement(p, r) && Rank(KeyOf(r)) < Rank(k) && KeyOf(r) in AllSteps(p)
      {
        RuleLowersRank(k, r, maximum);
      }
      forall n | Needs(p, k, n)
        ensures n in AllSteps(p) && Rank(n) < Rank(k)
      {
        if n == (k.0, k.1 - 1) {
          RankRises(k);
        } else {
          var r :| r in ContractRules(k.0, k.1) && r.id == Known(n.0) && r.level == n.1;
          assert KeyOf(r) == n;
        }
      }
    }
  }

  lemma RankRises(k: Key)
    requires k.1 > 1
    ensures Rank((k.0, k.1 - 1)) < Rank(k)
  {
  }

  /**
   Under the contract's rules a plan is found for every village and every target, if and only if the
   level cap is at least 4, the highest level a rule names outright.
   */
  lemma ContractAlwaysPlansIff(maximum: nat)
    requires maximum >= 1
    ensures maximum >= 4 <==>
      forall levels: Building -> nat, target: Key :: target in Universe(ContractProblem(levels, maximum)) ==>
        Steps(ContractProblem(levels, maximum), target).Success?
  {
    if maximum >= 4 {
      forall levels: Building -> nat, target: Key | target in Universe(ContractProblem(levels, maximum))
        ensures Steps(ContractProblem(levels, maximum), target).Success?
      {
        var p := ContractProblem(levels, maximum);
        ContractIsRanked(levels, maximum);
        RankedVisitSucceeds(p, [], {}, target, AllSteps(p), Rank);
      }
    } else {
      var empty := (b: Building) => 0 as nat;
      var p, target := ContractProblem(empty, maximum), (Goldmine, 1 as nat);
      assert target in Universe(p);
      GoldmineIsRefused(p, maximum);
    }
  }

  lemma GoldmineIsRefused(p: Problem, maximum: nat)
    requires p == ContractProblem((b: Building) => 0 as nat, maximum) && 1 <= maximum < 4
    ensures Steps(p, (Goldmine, 1)).Failure?
  {
    assert AtLevel(Townhall, 4) in p.rules(Goldmine, 1).value;
    if Steps(p, (Goldmine, 1)).Success? {
      PlanIsExecutableAndLeast(p, (Goldmine, 1));
    }
  }
}

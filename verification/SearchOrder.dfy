/**
 The order in which the search lists its steps: by the names of the buildings, then by level, as far as the
 needs of the other steps leave a choice (src/world-game/build-planner.js:4, 72-107).
 */
module SearchOrder {
  import opened Wrappers
  import opened Sorting
  import opened DependencySearch
  import opened PlanExistence
  import opened PlanResult

  // ---------------------------------------------------------------- names

  /** The id of a building, as the game writes it. */
  function Name(b: Building): string {
    match b
    case Barracks => "barracks"
    case Claypit => "claypit"
    case Goldmine => "goldmine"
    case Quarry => "quarry"
    case Timber => "timber"
    case Townhall => "townhall"
    case Warehouse => "warehouse"
    case Workshop => "workshop"
  }

  /** Dictionary order. */
  predicate InDictionary(a: string, b: string) {
    if b == "" then false
    else if a == "" then true
    else if a[0] != b[0] then a[0] < b[0]
    else InDictionary(a[1..], b[1..])
  }

  /** The name of the building first, at equal names the lower level. */
  predicate NamedBefore(a: Key, b: Key) {
    if a.0 == b.0 then a.1 < b.1 else InDictionary(Name(a.0), Name(b.0))
  }

  lemma NamesTellFirst(a: Building, b: Building)
    requires a != b
    ensures InDictionary(Name(a), Name(b)) <==> Place(Known(a)) < Place(Known(b))
  {
    assert Name(a)[0] == Name(b)[0] ==> Name(a)[1] != Name(b)[1];
    assert Name(a)[1..][0] == Name(a)[1] && Name(b)[1..][0] == Name(b)[1];
  }

  lemma NamedBeforeIsSorted(a: Requirement, b: Requirement)
    requires a.id.Known? && b.id.Known? && a.level >= 0 && b.level >= 0
    ensures StepBefore(a, b) <==> NamedBefore(KeyOf(a), KeyOf(b))
  {
    if a.id != b.id {
      NamesTellFirst(a.id.building, b.id.building);
    }
  }

  // ---------------------------------------------------------------- what comes first

  /** A rule of step `k` demands step `b`. */
  ghost predicate Demands(p: Problem, k: Key, b: Key) {
    p.rules(k.0, k.1).Some? && exists r :: r in p.rules(k.0, k.1).value && r.id == Known(b.0) && r.level == b.1
  }

  /** The level below `k`. */
  ghost predicate IsBelow(k: Key, a: Key) {
    k.1 > 1 && a == (k.0, k.1 - 1)
  }

  /** Of what step `c` needs, missing step `a` is looked for before the demanded step `b`: levels, then names. */
  ghost predicate LookedForFirst(p: Problem, c: Key, a: Key, b: Key) {
    && p.levels(a.0) < a.1 && a != b && Demands(p, c, b) && !IsBelow(c, b)
    && (IsBelow(c, a) || (Demands(p, c, a) && NamedBefore(a, b)))
  }

  /** Some other of the steps needs `b`, too. */
  ghost predicate NeededElsewhere(p: Problem, steps: seq<Key>, c: Key, b: Key) {
    exists x :: x in steps && x != c && Needs(p, x, b)
  }

  lemma ElsewhereGrows(p: Problem, steps: seq<Key>, more: seq<Key>, c: Key, b: Key)
    requires NeededElsewhere(p, steps, c, b) && Extends(steps, more)
    ensures NeededElsewhere(p, more, c, b)
  {
    var x :| x in steps && x != c && Needs(p, x, b);
    var i :| 0 <= i < |steps| && steps[i] == x;
    assert more[..|steps|][i] == more[i];
  }

  /** Some step after position `j` needs the one there. */
  ghost predicate NeededLater(p: Problem, steps: seq<Key>, j: nat)
    requires j < |steps|
  {
    exists i :: j < i < |steps| && Needs(p, steps[i], steps[j])
  }

  lemma LaterGrows(p: Problem, steps: seq<Key>, more: seq<Key>, j: nat)
    requires j < |steps| && Extends(steps, more) && NeededLater(p, steps, j)
    ensures more[j] == steps[j] && NeededLater(p, more, j)
  {
    var i :| j < i < |steps| && Needs(p, steps[i], steps[j]);
    assert more[..|steps|][i] == more[i] && more[..|steps|][j] == more[j];
  }

  /** A step needed later among steps that lack `c` is needed by another than `c`. */
  lemma LaterIsElsewhere(p: Problem, steps: seq<Key>, j: nat, c: Key)
    requires j < |steps| && NeededLater(p, steps, j) && c !in steps
    ensures NeededElsewhere(p, steps, c, steps[j])
  {
    var i :| j < i < |steps| && Needs(p, steps[i], steps[j]);
    assert steps[i] in steps;
  }

  lemma {:induction false} VisitExtends(p: Problem, nodes: seq<Key>, visiting: set<Key>, k: Key)
    requires k in Universe(p) && Executable(p, nodes) && Visit(p, nodes, visiting, k).Success?
    ensures var r := Visit(p, nodes, visiting, k).value;
      && Executable(p, r) && Extends(nodes, r) && (p.levels(k.0) < k.1 ==> k in r)
      && forall x :: x in r ==> p.levels(x.0) < x.1
  {
    hide Executable, Visit;
    VisitIsExecutable(p, nodes, visiting, k);
    var r := Visit(p, nodes, visiting, k).value;
    StepsPassed(p, r, k.0, k.1);
    forall x | x in r
      ensures p.levels(x.0) < x.1
    {
      StepsPassed(p, r, x.0, x.1);
    }
  }

  lemma VisitAllExtends(p: Problem, nodes: seq<Key>, visiting: set<Key>, requirements: seq<Requirement>)
    requires Executable(p, nodes) && VisitAll(p, nodes, visiting, requirements).Success?
    ensures var r := VisitAll(p, nodes, visiting, requirements).value;
      && Executable(p, r) && Extends(nodes, r)
      && forall x :: x in r ==> p.levels(x.0) < x.1
  {
    hide Executable, VisitAll;
    VisitAllIsExecutable(p, nodes, visiting, requirements);
    var r := VisitAll(p, nodes, visiting, requirements).value;
    forall x | x in r
      ensures p.levels(x.0) < x.1
    {
      StepsPassed(p, r, x.0, x.1);
    }
  }

  // ---------------------------------------------------------------- why a step is listed

  /** What a visit adds it adds for the visited step, or because a step added later needs it. */
  lemma {:induction false} AddedForAReason(p: Problem, nodes: seq<Key>, visiting: set<Key>, k: Key, j: nat)
    requires k in Universe(p) && Executable(p, nodes) && Visit(p, nodes, visiting, k).Success?
    requires |nodes| <= j < |Visit(p, nodes, visiting, k).value|
    ensures var r := Visit(p, nodes, visiting, k).value;
      if j == |r| - 1 then r[j] == k else NeededLater(p, r, j)
    decreases Universe(p) - visiting, 0, 0
  {
    hide Executable, Needs;
    var r, open := Visit(p, nodes, visiting, k).value, visiting + {k};
    var below := if k.1 > 1 then Visit(p, nodes, open, (k.0, k.1 - 1)).value else nodes;
    var sorted := Sort(p.rules(k.0, k.1).value, StepBefore);
    var found := VisitAll(p, below, open, sorted).value;
    assert r == found + [k];
    if k.1 > 1 {
      VisitExtends(p, nodes, open, (k.0, k.1 - 1));
    }
    VisitAllExtends(p, below, open, sorted);
    if j < |below| {
      AddedForAReason(p, nodes, open, (k.0, k.1 - 1), j);
      if j < |below| - 1 {
        LaterGrows(p, below, r, j);
      } else {
        VisitExtends(p, nodes, visiting, k);
        assert found[..|below|][j] == found[j] == r[j];
        LowerIsNeeded(p, k, r[j]);
        assert Needs(p, r[|r| - 1], r[j]);
      }
    } else if j < |found| {
      FoundForAReason(p, below, open, sorted, j);
      if NeededLater(p, found, j) {
        LaterGrows(p, found, r, j);
      } else {
        VisitExtends(p, nodes, visiting, k);
        SameElements(p.rules(k.0, k.1).value, sorted);
        DemandIsNeeded(p, k, r[j]);
        assert Needs(p, r[|r| - 1], r[j]);
      }
    }
  }

  lemma LowerIsNeeded(p: Problem, k: Key, b: Key)
    requires IsBelow(k, b) && p.levels(b.0) < b.1
    ensures Needs(p, k, b)
  {
  }

  lemma DemandIsNeeded(p: Problem, k: Key, b: Key)
    requires Demands(p, k, b) && p.levels(b.0) < b.1
    ensures Needs(p, k, b)
  {
  }

  /** The keys of the first `n` requirements, if missing, are listed before position `j`. */
  ghost predicate InTurn(p: Problem, requirements: seq<Requirement>, n: nat, steps: seq<Key>, j: nat)
    requires n <= |requirements| && j <= |steps|
  {
    forall l :: 0 <= l < n && requirements[l].id.Known? && requirements[l].level >= 1 ==>
      p.levels(requirements[l].id.building) >= requirements[l].level || KeyOf(requirements[l]) in steps[..j]
  }

  /** Visiting requirements adds each one in its turn, or because a step added later needs it. */
  lemma {:induction false} FoundForAReason(p: Problem, nodes: seq<Key>, visiting: set<Key>,
          requirements: seq<Requirement>, j: nat)
    requires Executable(p, nodes) && VisitAll(p, nodes, visiting, requirements).Success?
    requires |nodes| <= j < |VisitAll(p, nodes, visiting, requirements).value|
    ensures var r := VisitAll(p, nodes, visiting, requirements).value;
      NeededLater(p, r, j) ||
      exists m :: 0 <= m < |requirements| && requirements[m] == Requirement(Known(r[j].0), r[j].1)
                  && InTurn(p, requirements, m, r, j)
    decreases Universe(p) - visiting, 1, |requirements|
  {
    hide Executable, Needs, Visit;
    var k := KeyOf(requirements[0]);
    var first := Visit(p, nodes, visiting, k).value;
    var rest := requirements[1..];
    var r := VisitAll(p, first, visiting, rest).value;
    VisitExtends(p, nodes, visiting, k);
    VisitAllExtends(p, first, visiting, rest);
    if j < |first| {
      AddedForAReason(p, nodes, visiting, k, j);
      assert r[..|first|][j] == r[j];
      if j < |first| - 1 {
        LaterGrows(p, first, r, j);
      } else {
        assert InTurn(p, requirements, 0, r, j);
      }
    } else {
      FoundForAReason(p, first, visiting, rest, j);
      if !NeededLater(p, r, j) {
        var m :| 0 <= m < |rest| && rest[m] == Requirement(Known(r[j].0), r[j].1) && InTurn(p, rest, m, r, j);
        assert requirements[m + 1] == rest[m];
        assert r[..j][..|first|] == r[..|first|] == first;
        TurnShifts(p, requirements, m, r, j, first);
      }
    }
  }

  lemma TurnShifts(p: Problem, requirements: seq<Requirement>, m: nat, r: seq<Key>, j: nat, first: seq<Key>)
    requires requirements != [] && m < |requirements| - 1 && j <= |r| && InTurn(p, requirements[1..], m, r, j)
    requires requirements[0].id.Known? && requirements[0].level >= 1
    requires |first| <= j && r[..j][..|first|] == first
    requires p.levels(requirements[0].id.building) < requirements[0].level ==> KeyOf(requirements[0]) in first
    ensures InTurn(p, requirements, m + 1, r, j)
  {
    forall l | 0 <= l < m + 1 && requirements[l].id.Known? && requirements[l].level >= 1
      ensures p.levels(requirements[l].id.building) >= requirements[l].level || KeyOf(requirements[l]) in r[..j]
    {
      if l > 0 {
        assert requirements[l] == requirements[1..][l - 1];
      } else if p.levels(requirements[0].id.building) < requirements[0].level {
        var i :| 0 <= i < |first| && first[i] == KeyOf(requirements[0]);
        assert r[..j][i] == first[i];
      }
    }
  }

  // ---------------------------------------------------------------- the order of the list

  /** Once `c` is listed, so is everything it needs. */
  lemma ListedBefore(p: Problem, r: seq<Key>, c: Key, a: Key, j: nat)
    requires Executable(p, r) && j <= |r| && c in r[..j] && p.levels(a.0) < a.1
    requires IsBelow(c, a) || Demands(p, c, a)
    ensures a in r[..j]
  {
    hide Executable;
    var n :| 0 <= n < j && r[..j][n] == c;
    NeedsComeEarlier(p, r, n);
    var x :| 0 <= x < n && r[..n][x] == a;
    assert r[..j][x] == a;
  }

  /** A step of a visit listed after the first part of it is not in that part. */
  lemma NotInPart(p: Problem, part: seq<Key>, r: seq<Key>, n: nat)
    requires Executable(p, r) && Extends(part, r) && |part| <= n < |r|
    ensures r[n] !in part
  {
    hide Executable;
    ExecutableStepsAreDistinct(p, r);
    forall x | 0 <= x < |part|
      ensures part[x] == r[x]
    {
      assert r[..|part|][x] == r[x];
    }
  }

  /** In what a visit adds: `a` is listed before the step at `j`, unless a step other than `c` needs that one. */
  lemma {:induction false} VisitKeepsOrder(p: Problem, nodes: seq<Key>, visiting: set<Key>, k: Key, n: nat, a: Key,
          j: nat)
    requires k in Universe(p) && Executable(p, nodes) && Visit(p, nodes, visiting, k).Success?
    requires |nodes| <= n < |Visit(p, nodes, visiting, k).value| && |nodes| <= j < n
    requires var r := Visit(p, nodes, visiting, k).value; LookedForFirst(p, r[n], a, r[j])
    ensures var r := Visit(p, nodes, visiting, k).value; a in r[..j] || NeededElsewhere(p, r, r[n], r[j])
    decreases Universe(p) - visiting, 0, 0
  {
    hide Executable, Needs, NeededElsewhere, NeededLater, LookedForFirst;
    var r, open := Visit(p, nodes, visiting, k).value, visiting + {k};
    var below := if k.1 > 1 then Visit(p, nodes, open, (k.0, k.1 - 1)).value else nodes;
    var sorted := Sort(p.rules(k.0, k.1).value, StepBefore);
    var found := VisitAll(p, below, open, sorted).value;
    assert r == found + [k];
    VisitExtends(p, nodes, visiting, k);
    if k.1 > 1 {
      VisitExtends(p, nodes, open, (k.0, k.1 - 1));
    }
    VisitAllExtends(p, below, open, sorted);
    AddedForAReason(p, nodes, visiting, k, n);
    AddedForAReason(p, nodes, visiting, k, j);
    NotInPart(p, found, r, |r| - 1);
    assert r[..|found|] == found && found[..|below|] == below && r[..|below|] == below;
    if n < |below| {
      VisitKeepsOrder(p, nodes, open, (k.0, k.1 - 1), n, a, j);
      assert below[..j] == r[..j];
      if NeededElsewhere(p, below, r[n], r[j]) {
        ElsewhereGrows(p, below, r, r[n], r[j]);
      }
    } else if j < |below| {
      OrderAcrossBelow(p, nodes, open, k, r, below, n, a, j);
    } else if n < |found| {
      VisitAllKeepsOrder(p, below, open, sorted, n, a, j);
      assert found[..j] == r[..j];
      if NeededElsewhere(p, found, r[n], r[j]) {
        ElsewhereGrows(p, found, r, r[n], r[j]);
      } else if a !in r[..j] {
        SameElements(p.rules(k.0, k.1).value, sorted);
        RootIsElsewhere(p, k, sorted, r, r[n], r[j]);
      }
    } else {
      OrderOfDemands(p, open, k, below, sorted, found, r, a, j);
    }
  }

  /** The step at `j` was added below `k`, the one at `n` is not below: some other step needs the one at `j`. */
  lemma OrderAcrossBelow(p: Problem, nodes: seq<Key>, open: set<Key>, k: Key, r: seq<Key>, below: seq<Key>, n: nat,
          a: Key, j: nat)
    requires k.1 > 1 && (k.0, k.1 - 1) in Universe(p) && Executable(p, nodes) && Executable(p, r) && k in r
    requires Visit(p, nodes, open, (k.0, k.1 - 1)) == Success(below) && Extends(below, r)
    requires |nodes| <= j < |below| <= n < |r| && LookedForFirst(p, r[n], a, r[j]) && p.levels(r[j].0) < r[j].1
    ensures NeededElsewhere(p, r, r[n], r[j])
  {
    hide Executable, Needs, NeededLater;
    AddedForAReason(p, nodes, open, (k.0, k.1 - 1), j);
    assert r[..|below|] == below && below[j] == r[j];
    if NeededLater(p, below, j) {
      NotInPart(p, below, r, n);
      LaterIsElsewhere(p, below, j, r[n]);
      ElsewhereGrows(p, below, r, r[n], r[j]);
    } else {
      LowerIsNeeded(p, k, r[j]);
      assert r[n] != k;
    }
  }

  /** A requirement of `k` is needed by `k`, which is another step than `c`. */
  lemma RootIsElsewhere(p: Problem, k: Key, sorted: seq<Requirement>, r: seq<Key>, c: Key, b: Key)
    requires k in r && c != k && p.levels(b.0) < b.1 && p.rules(k.0, k.1).Some?
    requires forall q :: q in sorted <==> q in p.rules(k.0, k.1).value
    requires exists m :: 0 <= m < |sorted| && sorted[m] == Requirement(Known(b.0), b.1)
    ensures NeededElsewhere(p, r, c, b)
  {
    hide Needs;
    DemandIsNeeded(p, k, b);
  }

  /** The requirements of `k` itself are taken in order, after the level below. */
  lemma OrderOfDemands(p: Problem, open: set<Key>, k: Key, below: seq<Key>, sorted: seq<Requirement>,
          found: seq<Key>, r: seq<Key>, a: Key, j: nat)
    requires Executable(p, below) && VisitAll(p, below, open, sorted) == Success(found) && r == found + [k]
    requires p.rules(k.0, k.1).Some? && sorted == Sort(p.rules(k.0, k.1).value, StepBefore)
    requires k !in found && Extends(below, found) && |below| <= j < |found| && LookedForFirst(p, k, a, r[j])
    requires k.1 > 1 && p.levels(k.0) < k.1 - 1 ==> (k.0, k.1 - 1) in below
    ensures a in r[..j] || NeededElsewhere(p, r, k, r[j])
  {
    hide Executable, Needs, NeededLater, VisitAll;
    assert r[..j] == found[..j];
    FoundForAReason(p, below, open, sorted, j);
    if NeededLater(p, found, j) {
      LaterIsElsewhere(p, found, j, k);
      ElsewhereGrows(p, found, r, k, r[j]);
    } else if IsBelow(k, a) {
      var x :| 0 <= x < |below| && below[x] == a;
      assert found[..|below|][x] == found[x] == found[..j][x];
    } else {
      var m :| 0 <= m < |sorted| && sorted[m] == Requirement(Known(r[j].0), r[j].1) && InTurn(p, sorted, m, found, j);
      EarlierDemand(p, k, sorted, found, a, r[j], m, j);
    }
  }

  lemma EarlierDemand(p: Problem, k: Key, sorted: seq<Requirement>, found: seq<Key>, a: Key, b: Key, m: nat, j: nat)
    requires p.rules(k.0, k.1).Some? && sorted == Sort(p.rules(k.0, k.1).value, StepBefore)
    requires m < |sorted| && j <= |found| && sorted[m] == Requirement(Known(b.0), b.1) && InTurn(p, sorted, m, found, j)
    requires Demands(p, k, a) && NamedBefore(a, b) && p.levels(a.0) < a.1
    ensures a in found[..j]
  {
    hide NamedBefore, Demands;
    assert WeakOrder(StepBefore);
    SortSorts(p.rules(k.0, k.1).value, StepBefore);
    var first := Requirement(Known(a.0), a.1);
    assert first in sorted by { DemandIsListed(p, k, a); }
    var l :| 0 <= l < |sorted| && sorted[l] == first;
    NamedBeforeIsSorted(first, sorted[m]);
    assert KeyOf(first) == a && KeyOf(sorted[m]) == b;
    assert l < m;
  }

  lemma DemandIsListed(p: Problem, k: Key, a: Key)
    requires Demands(p, k, a)
    ensures Requirement(Known(a.0), a.1) in p.rules(k.0, k.1).value
  {
  }

  lemma {:induction false} VisitAllKeepsOrder(p: Problem, nodes: seq<Key>, visiting: set<Key>,
          requirements: seq<Requirement>, n: nat, a: Key, j: nat)
    requires Executable(p, nodes) && VisitAll(p, nodes, visiting, requirements).Success?
    requires |nodes| <= n < |VisitAll(p, nodes, visiting, requirements).value| && |nodes| <= j < n
    requires var r := VisitAll(p, nodes, visiting, requirements).value; LookedForFirst(p, r[n], a, r[j])
    ensures var r := VisitAll(p, nodes, visiting, requirements).value;
      || a in r[..j] || NeededElsewhere(p, r, r[n], r[j])
      || exists m :: 0 <= m < |requirements| && requirements[m] == Requirement(Known(r[j].0), r[j].1)
    decreases Universe(p) - visiting, 1, |requirements|
  {
    hide Executable, Needs, NeededElsewhere, NeededLater, LookedForFirst, Visit;
    var k := KeyOf(requirements[0]);
    var first := Visit(p, nodes, visiting, k).value;
    var rest := requirements[1..];
    var r := VisitAll(p, first, visiting, rest).value;
    VisitExtends(p, nodes, visiting, k);
    VisitAllExtends(p, first, visiting, rest);
    assert r[..|first|] == first;
    if n < |first| {
      VisitKeepsOrder(p, nodes, visiting, k, n, a, j);
      assert first[..j] == r[..j];
      if NeededElsewhere(p, first, r[n], r[j]) {
        ElsewhereGrows(p, first, r, r[n], r[j]);
      }
    } else if j < |first| {
      AddedForAReason(p, nodes, visiting, k, j);
      if j == |first| - 1 {
        assert requirements[0] == Requirement(Known(r[j].0), r[j].1);
      } else {
        NotInPart(p, first, r, n);
        LaterIsElsewhere(p, first, j, r[n]);
        ElsewhereGrows(p, first, r, r[n], r[j]);
      }
    } else {
      VisitAllKeepsOrder(p, first, visiting, rest, n, a, j);
      if m :| 0 <= m < |rest| && rest[m] == Requirement(Known(r[j].0), r[j].1) {
        assert requirements[m + 1] == rest[m];
      }
    }
  }

  lemma NothingIsExecutable(p: Problem)
    ensures Executable(p, [])
  {
  }

  /**
   The order of a found list. What a step needs is listed in the order levels first, then demands by name and
   level: of two missing ones the one looked for first is listed first, unless another step of the list needs the
   other one, too.
   */
  lemma StepsAreInOrder(p: Problem, target: Key, i: nat, j: nat, n: nat)
    requires target in Universe(p) && Steps(p, target).Success?
    requires var s := Steps(p, target).value;
      && i < |s| && j < |s| && n < |s| && LookedForFirst(p, s[n], s[i], s[j])
      && !NeededElsewhere(p, s, s[n], s[j])
    ensures i < j
  {
    hide Executable, Visit, NeededElsewhere;
    NothingIsExecutable(p);
    VisitExtends(p, [], {}, target);
    var s := Steps(p, target).value;
    ExecutableStepsAreDistinct(p, s);
    if j < n {
      VisitKeepsOrder(p, [], {}, target, n, s[i], j);
      var x :| 0 <= x < j && s[..j][x] == s[i];
    } else {
      assert s[..n + 1][n] == s[n];
      ListedBefore(p, s, s[n], s[i], n + 1);
      ListedBefore(p, s, s[n], s[j], n + 1);
      var x :| 0 <= x < n + 1 && s[..n + 1][x] == s[i];
      var y :| 0 <= y < n + 1 && s[..n + 1][y] == s[j];
      assert j == n;
    }
  }

  lemma NamesAreTotal(a: Key, b: Key)
    requires a != b
    ensures NamedBefore(a, b) || NamedBefore(b, a)
  {
    if a.0 != b.0 {
      NamesTellFirst(a.0, b.0);
      NamesTellFirst(b.0, a.0);
    }
  }

  /** Everything `target` lacks is one of its own demands, and those lack nothing. */
  ghost predicate LacksOnlyDemands(p: Problem, target: Key) {
    && p.levels(target.0) == target.1 - 1
    && forall x, y :: Demands(p, target, x) && p.levels(x.0) < x.1 ==> !Needs(p, x, y)
  }

  lemma {:induction false} ListedIsDemanded(p: Problem, target: Key, j: nat)
    requires target in Universe(p) && Steps(p, target).Success? && LacksOnlyDemands(p, target)
    requires j < |Steps(p, target).value| - 1
    ensures var x := Steps(p, target).value[j]; Demands(p, target, x) && p.levels(x.0) < x.1
    decreases |Steps(p, target).value| - j
  {
    hide Executable, Visit;
    var s := Steps(p, target).value;
    NothingIsExecutable(p);
    VisitExtends(p, [], {}, target);
    AddedForAReason(p, [], {}, target, j);
    AddedForAReason(p, [], {}, target, |s| - 1);
    var i :| j < i < |s| && Needs(p, s[i], s[j]);
    assert s[j] in s;
    if i < |s| - 1 {
      ListedIsDemanded(p, target, i);
    }
  }

  /**
   When only demands are missing, and those can be built at once, the plan is these demands by name and level,
   and then the target.
   */
  lemma ReadyDemandsAreSorted(p: Problem, target: Key)
    requires target in Universe(p) && Steps(p, target).Success? && LacksOnlyDemands(p, target)
    ensures var s := Steps(p, target).value;
      && s != [] && s[|s| - 1] == target && StrictlySorted(s[..|s| - 1], NamedBefore)
      && forall x :: x in s[..|s| - 1] <==> Demands(p, target, x) && p.levels(x.0) < x.1
  {
    hide Executable, Visit, NamedBefore, Steps, Demands, LacksOnlyDemands, Universe;
    var s := Steps(p, target).value;
    ListedIffDemanded(p, target, target);
    var front := s[..|s| - 1];
    forall i, j | 0 <= i < j < |front|
      ensures NamedBefore(front[i], front[j])
    {
      DemandsByName(p, target, i, j);
    }
    forall x
      ensures x in front <==> Demands(p, target, x) && p.levels(x.0) < x.1
    {
      ListedIffDemanded(p, target, x);
    }
  }

  lemma ListedIffDemanded(p: Problem, target: Key, x: Key)
    requires target in Universe(p) && Steps(p, target).Success? && LacksOnlyDemands(p, target)
    ensures var s := Steps(p, target).value;
      && s != [] && s[|s| - 1] == target
      && (x in s[..|s| - 1] <==> Demands(p, target, x) && p.levels(x.0) < x.1)
  {
    hide Executable, Visit, NamedBefore, Demands, Needs, Steps, Universe;
    var s := Steps(p, target).value;
    PlanIsExecutableAndLeast(p, target);
    var front := s[..|s| - 1];
    if x in front {
      var j :| 0 <= j < |front| && front[j] == x;
      ListedIsDemanded(p, target, j);
    }
    if Demands(p, target, x) && p.levels(x.0) < x.1 {
      assert s[..|s|][|s| - 1] == target && s[..|s|] == s;
      ListedBefore(p, s, target, x, |s|);
      NotItself(p, target, x);
      assert s == front + [target];
    }
  }

  /** What can be built at once lacks nothing, so the target is no demand of its own. */
  lemma NotItself(p: Problem, target: Key, x: Key)
    requires LacksOnlyDemands(p, target) && Demands(p, target, x) && p.levels(x.0) < x.1
    ensures x != target
  {
    if x == target {
      DemandIsNeeded(p, target, target);
    }
  }

  lemma DemandsByName(p: Problem, target: Key, i: nat, j: nat)
    requires target in Universe(p) && Steps(p, target).Success? && LacksOnlyDemands(p, target)
    requires i < j < |Steps(p, target).value| - 1
    ensures NamedBefore(Steps(p, target).value[i], Steps(p, target).value[j])
  {
    hide Executable, Visit, NamedBefore, Demands, Needs;
    var s := Steps(p, target).value;
    NothingIsExecutable(p);
    VisitExtends(p, [], {}, target);
    ExecutableStepsAreDistinct(p, s);
    ListedIsDemanded(p, target, i);
    ListedIsDemanded(p, target, j);
    AddedForAReason(p, [], {}, target, |s| - 1);
    NamesAreTotal(s[i], s[j]);
    if NamedBefore(s[j], s[i]) {
      if NeededElsewhere(p, s, target, s[i]) {
        var x :| x in s && x != target && Needs(p, x, s[i]);
        var y :| 0 <= y < |s| && s[y] == x;
        ListedIsDemanded(p, target, y);
      }
      StepsAreInOrder(p, target, j, i, |s| - 1);
    }
  }
}

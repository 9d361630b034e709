/**
 What the schedule of a plan promises (src/world-game/build-planner.js:159-206).
 */
module PlanSoundness {
  import opened DependencySearch
  import opened BuildPlanner

  // ---------------------------------------------------------------- running jobs

  /** A running job that holds one of the slots. */
  predicate OnSlot(job: Job, capacity: nat) {
    0 <= job.slot < capacity
  }

  predicate LastOnSlot(jobs: seq<Job>, j: nat)
    requires j < |jobs|
  {
    forall k :: j < k < |jobs| ==> jobs[k].slot != jobs[j].slot
  }

  /** Of the running jobs that share a slot, the one listed last completes last. */
  ghost predicate LastIsLatest(jobs: seq<Job>, capacity: nat) {
    forall i, j :: (0 <= i <= j < |jobs| && OnSlot(jobs[i], capacity) && jobs[i].slot == jobs[j].slot
                    && LastOnSlot(jobs, j)) ==>
      jobs[i].completesAt <= jobs[j].completesAt
  }

  /** Every running job is over before its slot counts as free. */
  ghost predicate JobsReserved(jobs: seq<Job>, slots: seq<real>) {
    forall i :: 0 <= i < |jobs| && OnSlot(jobs[i], |slots|) ==> jobs[i].completesAt <= slots[jobs[i].slot]
  }

  lemma {:induction false} LastJobHolds(capacity: nat, now: real, jobs: seq<Job>, j: nat)
    requires j < |jobs| && OnSlot(jobs[j], capacity) && LastOnSlot(jobs, j)
    ensures InitialSlots(capacity, now, jobs)[jobs[j].slot] == jobs[j].completesAt
  {
    if j < |jobs| - 1 {
      LastJobHolds(capacity, now, jobs[..|jobs| - 1], j);
    }
  }

  lemma {:induction false} LastOnSameSlot(jobs: seq<Job>, i: nat) returns (j: nat)
    requires i < |jobs|
    ensures i <= j < |jobs| && jobs[j].slot == jobs[i].slot && LastOnSlot(jobs, j)
    decreases |jobs| - i
  {
    if LastOnSlot(jobs, i) {
      j := i;
    } else {
      var k :| i < k < |jobs| && jobs[k].slot == jobs[i].slot;
      j := LastOnSameSlot(jobs, k);
    }
  }

  /** Slots are reserved for all running jobs exactly when on every slot the job listed last completes last. */
  lemma JobsAreReservedIff(capacity: nat, now: real, jobs: seq<Job>)
    ensures JobsReserved(jobs, InitialSlots(capacity, now, jobs)) <==> LastIsLatest(jobs, capacity)
  {
    var slots := InitialSlots(capacity, now, jobs);
    if JobsReserved(jobs, slots) {
      forall i, j | 0 <= i <= j < |jobs| && OnSlot(jobs[i], capacity) && jobs[i].slot == jobs[j].slot
                    && LastOnSlot(jobs, j)
        ensures jobs[i].completesAt <= jobs[j].completesAt
      {
        LastJobHolds(capacity, now, jobs, j);
      }
    }
    if LastIsLatest(jobs, capacity) {
      forall i | 0 <= i < |jobs| && OnSlot(jobs[i], capacity)
        ensures jobs[i].completesAt <= slots[jobs[i].slot]
      {
        var j := LastOnSameSlot(jobs, i);
        LastJobHolds(capacity, now, jobs, j);
      }
    }
  }

  // ---------------------------------------------------------------- the board after any number of steps

  /** The work handed to the scheduler: jobs that have not completed, prices and durations not negative. */
  ghost predicate ValidWork(now: real, w: Work) {
    match w
    case Running(_, job) => job.completesAt >= now
    case Todo(_, cost, duration) => Fits(NOTHING, cost) && duration >= 0.0
  }

  ghost predicate ValidWorks(now: real, works: seq<Work>) {
    forall i :: 0 <= i < |works| ==> ValidWork(now, works[i])
  }

  lemma FrontWorks(now: real, works: seq<Work>)
    requires works != [] && ValidWorks(now, works)
    ensures ValidWorks(now, works[..|works| - 1]) && ValidWork(now, works[|works| - 1])
  {
  }

  function Works(done: seq<Scheduled>): (r: seq<Work>)
    ensures |r| == |done| && forall i :: 0 <= i < |r| ==> r[i] == done[i].work
  {
    seq(|done|, i requires 0 <= i < |done| => done[i].work)
  }

  /** A new step keeps its slot until it completes, and begins no earlier than now. */
  ghost predicate Fitted(now: real, slots: seq<real>, s: Scheduled) {
    && s.completes >= now && s.start >= now
    && (s.work.Todo? ==>
          0 <= s.slot < |slots| && s.completes <= slots[s.slot] && s.completes == s.start + s.work.duration * 1000.0)
  }

  /** Two new steps on one slot do not overlap: the earlier in the list is over when the later starts. */
  ghost predicate Apart(a: Scheduled, b: Scheduled) {
    a.work.Todo? && b.work.Todo? && a.slot == b.slot ==> a.completes <= b.start
  }

  ghost predicate NoOverlap(done: seq<Scheduled>) {
    forall i, j :: 0 <= i < j < |done| ==> Apart(done[i], done[j])
  }

  /** No new step starts on a slot before the running job that holds it completes. */
  ghost predicate ClearOfJobs(jobs: seq<Job>, done: seq<Scheduled>) {
    forall i, j :: 0 <= i < |jobs| && 0 <= j < |done| && done[j].work.Todo? && done[j].slot == jobs[i].slot ==>
      jobs[i].completesAt <= done[j].start
  }

  ghost predicate AllFitted(now: real, slots: seq<real>, done: seq<Scheduled>) {
    forall i :: 0 <= i < |done| ==> Fitted(now, slots, done[i])
  }

  ghost predicate SlotsFrom(now: real, slots: seq<real>) {
    forall i :: 0 <= i < |slots| ==> slots[i] >= now
  }

  lemma {:induction false} ReadyAtIsLate(done: seq<Scheduled>, requirements: seq<Requirement>, now: real)
    ensures ReadyAt(done, requirements, now) >= now
  {
    if requirements != [] {
      ReadyAtIsLate(done, requirements[..|requirements| - 1], now);
    }
  }

  lemma {:induction false} InitialSlotsFrom(capacity: nat, now: real, jobs: seq<Job>)
    requires forall i :: 0 <= i < |jobs| ==> jobs[i].completesAt >= now
    ensures SlotsFrom(now, InitialSlots(capacity, now, jobs))
  {
    if jobs != [] {
      InitialSlotsFrom(capacity, now, jobs[..|jobs| - 1]);
    }
  }

  lemma StepFits(p: Problem, now: real, before: Board, work: Work)
    requires before.slots != [] && SlotsFrom(now, before.slots) && AllFitted(now, before.slots, before.done)
    requires ValidWork(now, work)
    ensures var after := Schedule(p, now, before, work);
      && |after.slots| == |before.slots| && after.done == before.done + [after.done[|before.done|]]
      && |after.done| == |before.done| + 1
      && after.done[|before.done|].work == work
      && SlotsFrom(now, after.slots) && AllFitted(now, after.slots, after.done)
      && (forall i :: 0 <= i < |before.slots| ==> before.slots[i] <= after.slots[i])
      && (work.Todo? ==>
            && 0 <= after.done[|before.done|].slot < |before.slots|
            && before.slots[after.done[|before.done|].slot] <= after.done[|before.done|].start)
  {
    hide Lacking, ReadyAt, RequirementsOf;
    if work.Todo? {
      ReadyAtIsLate(before.done, RequirementsOf(p, work.key), now);
    }
    var after := Schedule(p, now, before, work);
    forall i | 0 <= i < |after.done|
      ensures Fitted(now, after.slots, after.done[i])
    {
      assert i < |before.done| ==> Fitted(now, before.slots, before.done[i]);
    }
  }

  /**
   Jobs on one slot never overlap: not two new steps, and not a new step and the running job that holds
   the slot, given that slots were reserved for the running jobs.
   */
  lemma {:induction false} SlotsNeverOverlap(p: Problem, now: real, start: Board, jobs: seq<Job>, works: seq<Work>)
    requires start.slots != [] && start.done == [] && SlotsFrom(now, start.slots) && ValidWorks(now, works)
    requires JobsReserved(jobs, start.slots)
    ensures var r := ScheduleAll(p, now, start, works);
      && |r.slots| == |start.slots| && Works(r.done) == works
      && SlotsFrom(now, r.slots) && AllFitted(now, r.slots, r.done) && JobsReserved(jobs, r.slots)
      && NoOverlap(r.done) && ClearOfJobs(jobs, r.done)
  {
    hide Schedule, Fitted, OnSlot;
    if works != [] {
      FrontWorks(now, works);
      var front, last := works[..|works| - 1], works[|works| - 1];
      SlotsNeverOverlap(p, now, start, jobs, front);
      var before := ScheduleAll(p, now, start, front);
      StepFits(p, now, before, last);
      StepIsApart(now, jobs, before, Schedule(p, now, before, last));
      assert works == front + [last];
    }
  }

  lemma StepIsApart(now: real, jobs: seq<Job>, before: Board, after: Board)
    requires |after.done| == |before.done| + 1 && after.done[..|before.done|] == before.done
    requires |after.slots| == |before.slots|
    requires forall i :: 0 <= i < |before.slots| ==> before.slots[i] <= after.slots[i]
    requires AllFitted(now, before.slots, before.done) && AllFitted(now, after.slots, after.done)
    requires JobsReserved(jobs, before.slots) && NoOverlap(before.done) && ClearOfJobs(jobs, before.done)
    requires var s := after.done[|before.done|];
      s.work.Todo? ==> 0 <= s.slot < |before.slots| && before.slots[s.slot] <= s.start
    ensures JobsReserved(jobs, after.slots) && NoOverlap(after.done) && ClearOfJobs(jobs, after.done)
  {
    var n := |before.done|;
    assert forall i :: 0 <= i < n ==> after.done[i] == before.done[i];
    forall i, j | 0 <= i < j < |after.done|
      ensures Apart(after.done[i], after.done[j])
    {
      if j < n {
        assert Apart(before.done[i], before.done[j]);
      } else {
        assert Fitted(now, before.slots, before.done[i]);
      }
    }
    forall i, j | 0 <= i < |jobs| && 0 <= j < |after.done| && after.done[j].work.Todo?
                  && after.done[j].slot == jobs[i].slot
      ensures jobs[i].completesAt <= after.done[j].start
    {
      if j < n {
        assert before.done[j].slot == jobs[i].slot;
      } else {
        assert OnSlot(jobs[i], |before.slots|);
      }
    }
  }

  // ---------------------------------------------------------------- no idle slot

  /** Slot `c` is taken until `time` by a running job or by one of the first `n` steps. */
  ghost predicate BusyUntil(jobs: seq<Job>, done: seq<Scheduled>, n: nat, c: nat, time: real)
    requires n <= |done|
  {
    || (exists i :: 0 <= i < |jobs| && jobs[i].slot == c && jobs[i].completesAt >= time)
    || (exists i :: 0 <= i < n && done[i].work.Todo? && done[i].slot == c && done[i].completes >= time)
  }

  /** A requirement of the step, earlier in the plan, completes exactly at `time`. */
  ghost predicate AwaitedAt(p: Problem, done: seq<Scheduled>, j: nat, time: real)
    requires j < |done|
  {
    exists i, r ::
      0 <= i < j && r in RequirementsOf(p, done[j].work.key) && Answers(done[i], r) && done[i].completes == time
  }

  /** Step `j` could not have started earlier: it starts now, or right after a requirement, or no slot was free. */
  ghost predicate StartsAtOnce(p: Problem, now: real, jobs: seq<Job>, capacity: nat, done: seq<Scheduled>, j: nat)
    requires j < |done|
  {
    done[j].work.Todo? ==>
      || done[j].start <= now
      || AwaitedAt(p, done, j, done[j].start)
      || forall c :: 0 <= c < capacity ==> BusyUntil(jobs, done, j, c, done[j].start)
  }

  /** A slot is free from now on, or from the end of a job or step on it. */
  ghost predicate SlotsOwned(now: real, jobs: seq<Job>, slots: seq<real>, done: seq<Scheduled>) {
    forall c :: 0 <= c < |slots| ==> slots[c] <= now || BusyUntil(jobs, done, |done|, c, slots[c])
  }

  lemma {:induction false} InitialSlotsOwned(capacity: nat, now: real, jobs: seq<Job>)
    ensures SlotsOwned(now, jobs, InitialSlots(capacity, now, jobs), [])
  {
    if jobs != [] {
      var n := |jobs| - 1;
      InitialSlotsOwned(capacity, now, jobs[..n]);
      var slots := InitialSlots(capacity, now, jobs);
      forall c | 0 <= c < capacity
        ensures slots[c] <= now || BusyUntil(jobs, [], 0, c, slots[c])
      {
        if jobs[n].slot != c && slots[c] > now {
          var i :| 0 <= i < n && jobs[..n][i].slot == c && jobs[..n][i].completesAt >= slots[c];
          assert jobs[i].slot == c && jobs[i].completesAt >= slots[c];
        }
      }
    }
  }

  /** The readiness of a step is now, or the completion of one of its requirements. */
  lemma {:induction false} ReadyAtIsReached(done: seq<Scheduled>, requirements: seq<Requirement>, now: real)
    ensures var ready := ReadyAt(done, requirements, now);
      || ready == now
      || exists i, r :: 0 <= i < |done| && r in requirements && Answers(done[i], r) && done[i].completes == ready
  {
    if requirements != [] {
      var n := |requirements| - 1;
      assert requirements == requirements[..n] + [requirements[n]];
      ReadyAtIsReached(done, requirements[..n], now);
      LookupFinds(done, requirements[n]);
      var earlier, found := ReadyAt(done, requirements[..n], now), Lookup(done, requirements[n]);
      if found.Some? && earlier < found.value.completes && found.value.completes != 0.0 {
        var i :| 0 <= i < |done| && done[i] == found.value && Answers(done[i], requirements[n]);
        assert requirements[n] in requirements;
      } else if earlier != now {
        var i, r :| 0 <= i < |done| && r in requirements[..n] && Answers(done[i], r) && done[i].completes == earlier;
        assert r in requirements;
      }
    }
  }

  lemma BusyCarriesOver(jobs: seq<Job>, before: seq<Scheduled>, after: seq<Scheduled>, n: nat, m: nat, c: nat,
          time: real)
    requires n <= |before| <= |after| && n <= m <= |after| && after[..|before|] == before
    requires BusyUntil(jobs, before, n, c, time)
    ensures BusyUntil(jobs, after, m, c, time)
  {
    if i :| 0 <= i < n && before[i].work.Todo? && before[i].slot == c && before[i].completes >= time {
      assert after[i] == before[i];
    }
  }

  lemma StepStartsAtOnce(p: Problem, now: real, jobs: seq<Job>, before: Board, work: Work)
    requires before.slots != [] && SlotsOwned(now, jobs, before.slots, before.done) && ValidWork(now, work)
    ensures var after := Schedule(p, now, before, work);
      && |after.done| == |before.done| + 1 && after.done[..|before.done|] == before.done
      && StartsAtOnce(p, now, jobs, |before.slots|, after.done, |before.done|)
      && |after.slots| == |before.slots| && SlotsOwned(now, jobs, after.slots, after.done)
  {
    hide Lacking, ReadyAt, RequirementsOf, BusyUntil;
    var after, n := Schedule(p, now, before, work), |before.done|;
    assert after.done[..n] == before.done;
    forall c | 0 <= c < |before.slots| && BusyUntil(jobs, before.done, n, c, before.slots[c])
      ensures BusyUntil(jobs, after.done, n, c, before.slots[c])
      ensures BusyUntil(jobs, after.done, n + 1, c, before.slots[c])
    {
      BusyCarriesOver(jobs, before.done, after.done, n, n, c, before.slots[c]);
      BusyCarriesOver(jobs, before.done, after.done, n, n + 1, c, before.slots[c]);
    }
    if work.Todo? {
      ReadyAtIsReached(before.done, RequirementsOf(p, work.key), now);
      ReadyAtIsLate(before.done, RequirementsOf(p, work.key), now);
      StartsForAReason(p, now, jobs, before, after);
      OwnCompletion(jobs, after.done, n);
    }
  }

  lemma OwnCompletion(jobs: seq<Job>, done: seq<Scheduled>, n: nat)
    requires n < |done| && done[n].work.Todo? && done[n].slot >= 0
    ensures BusyUntil(jobs, done, n + 1, done[n].slot, done[n].completes)
  {
  }

  lemma LessBusy(jobs: seq<Job>, done: seq<Scheduled>, n: nat, c: nat, time: real, earlier: real)
    requires n <= |done| && BusyUntil(jobs, done, n, c, time) && earlier <= time
    ensures BusyUntil(jobs, done, n, c, earlier)
  {
  }

  lemma StartsForAReason(p: Problem, now: real, jobs: seq<Job>, before: Board, after: Board)
    requires before.slots != [] && |after.done| == |before.done| + 1 && after.done[..|before.done|] == before.done
    requires forall c :: 0 <= c < |before.slots| && before.slots[c] > now ==>
      BusyUntil(jobs, after.done, |before.done|, c, before.slots[c])
    requires after.done[|before.done|].work.Todo?
    requires after.done[|before.done|].start ==
      Max(ReadyAt(before.done, RequirementsOf(p, after.done[|before.done|].work.key), now),
          before.slots[FirstFree(before.slots)])
    ensures StartsAtOnce(p, now, jobs, |before.slots|, after.done, |before.done|)
  {
    hide BusyUntil, ReadyAt, RequirementsOf, Answers;
    var n := |before.done|;
    var s := after.done[n];
    var ready := ReadyAt(before.done, RequirementsOf(p, s.work.key), now);
    ReadyAtIsReached(before.done, RequirementsOf(p, s.work.key), now);
    if s.start == ready && ready != now {
      var i, r :| 0 <= i < n && r in RequirementsOf(p, s.work.key) && Answers(before.done[i], r)
        && before.done[i].completes == ready;
      assert after.done[i] == before.done[i];
      assert AwaitedAt(p, after.done, n, s.start);
    } else if s.start > now {
      forall c | 0 <= c < |before.slots|
        ensures BusyUntil(jobs, after.done, n, c, s.start)
      {
        LessBusy(jobs, after.done, n, c, before.slots[c], s.start);
      }
    }
  }

  lemma StillAtOnce(p: Problem, now: real, jobs: seq<Job>, capacity: nat, before: seq<Scheduled>, after: seq<Scheduled>,
        j: nat)
    requires j < |before| <= |after| && after[..|before|] == before
    requires StartsAtOnce(p, now, jobs, capacity, before, j)
    ensures StartsAtOnce(p, now, jobs, capacity, after, j)
  {
    hide BusyUntil, RequirementsOf;
    assert after[j] == before[j];
    if AwaitedAt(p, before, j, before[j].start) {
      var i, r :| 0 <= i < j && r in RequirementsOf(p, before[j].work.key) && Answers(before[i], r)
        && before[i].completes == before[j].start;
      assert after[i] == before[i];
    }
    forall c | 0 <= c < capacity && BusyUntil(jobs, before, j, c, before[j].start)
      ensures BusyUntil(jobs, after, j, c, before[j].start)
    {
      BusyCarriesOver(jobs, before, after, j, j, c, before[j].start);
    }
  }

  /**
   The schedule is greedy: every new step starts now, or the moment one of its requirements completes, or
   when until then every slot was taken.
   */
  lemma {:induction false} StepsStartAtOnce(p: Problem, now: real, start: Board, jobs: seq<Job>, works: seq<Work>)
    requires start.slots != [] && start.done == [] && ValidWorks(now, works) && SlotsOwned(now, jobs, start.slots, [])
    ensures var r := ScheduleAll(p, now, start, works);
      && |r.done| == |works| && SlotsOwned(now, jobs, r.slots, r.done)
      && forall j :: 0 <= j < |works| ==> StartsAtOnce(p, now, jobs, |start.slots|, r.done, j)
  {
    hide Schedule, StartsAtOnce, SlotsOwned;
    if works != [] {
      FrontWorks(now, works);
      var n := |works| - 1;
      StepsStartAtOnce(p, now, start, jobs, works[..n]);
      var before := ScheduleAll(p, now, start, works[..n]);
      StepStartsAtOnce(p, now, jobs, before, works[n]);
      var r := Schedule(p, now, before, works[n]);
      forall j | 0 <= j < n
        ensures StartsAtOnce(p, now, jobs, |start.slots|, r.done, j)
      {
        StillAtOnce(p, now, jobs, |start.slots|, before.done, r.done, j);
      }
    }
  }

  /** A step under construction keeps its job's slot and completion and costs nothing; a new one takes its duration. */
  lemma {:induction false} StepsKeepTheirTimes(p: Problem, now: real, start: Board, works: seq<Work>)
    requires start.slots != [] && start.done == []
    ensures var r := ScheduleAll(p, now, start, works);
      && |r.done| == |works|
      && (forall i :: 0 <= i < |works| ==> r.done[i].work == works[i])
      && (forall i :: 0 <= i < |works| && works[i].Running? ==>
            && r.done[i].slot == works[i].job.slot && r.done[i].completes == works[i].job.completesAt
            && r.done[i].start == now && !r.done[i].affordable && r.done[i].deficits == NOTHING)
      && (forall i :: 0 <= i < |works| && works[i].Todo? ==>
            && r.done[i].completes == r.done[i].start + works[i].duration * 1000.0
            && 0 <= r.done[i].slot < |start.slots|)
  {
    hide ReadyAt, Lacking, RequirementsOf;
    if works != [] {
      StepsKeepTheirTimes(p, now, start, works[..|works| - 1]);
    }
  }

  // ---------------------------------------------------------------- stock

  function Paid(s: Scheduled): Amounts {
    if s.work.Todo? && s.affordable then s.work.cost else NOTHING
  }

  /** The summed price of the steps marked affordable. */
  function TotalPaid(done: seq<Scheduled>): Amounts {
    if done == [] then NOTHING else Plus(TotalPaid(done[..|done| - 1]), Paid(done[|done| - 1]))
  }

  /** The stock left before step `i`. */
  function StockBefore(stock: Amounts, done: seq<Scheduled>, i: nat): Amounts
    requires i <= |done|
  {
    Minus(stock, TotalPaid(done[..i]))
  }

  /**
   The steps marked affordable can all be paid from the starting stock; each step is marked so exactly
   when what is left then covers it, and its deficits are what is missing.
   */
  lemma {:induction false} AffordableStepsArePaid(p: Problem, now: real, start: Board, works: seq<Work>)
    requires start.slots != [] && start.done == [] && Fits(NOTHING, start.remaining) && ValidWorks(now, works)
    ensures var r := ScheduleAll(p, now, start, works);
      && |r.done| == |works| && Fits(TotalPaid(r.done), start.remaining)
      && r.remaining == Minus(start.remaining, TotalPaid(r.done))
      && (forall i :: 0 <= i < |works| ==> r.done[i].work == works[i])
      && (forall i :: 0 <= i < |works| && works[i].Todo? ==>
            && r.done[i].affordable == Fits(works[i].cost, StockBefore(start.remaining, r.done, i))
            && r.done[i].deficits == Lacking(works[i].cost, StockBefore(start.remaining, r.done, i)))
  {
    hide Schedule, Lacking, ValidWork, Paid;
    if works != [] {
      FrontWorks(now, works);
      var n := |works| - 1;
      AffordableStepsArePaid(p, now, start, works[..n]);
      var before := ScheduleAll(p, now, start, works[..n]);
      StockStep(p, now, start.remaining, before, works[n]);
      var r := Schedule(p, now, before, works[n]);
      assert r.done[..n] == before.done;
      forall i | 0 <= i < |works|
        ensures r.done[i].work == works[i]
        ensures works[i].Todo? ==>
          && r.done[i].affordable == Fits(works[i].cost, StockBefore(start.remaining, r.done, i))
          && r.done[i].deficits == Lacking(works[i].cost, StockBefore(start.remaining, r.done, i))
      {
        assert r.done[..i] == before.done[..i];
        if i < n {
          assert works[..n][i] == works[i];
        } else {
          assert before.done[..n] == before.done;
        }
      }
    }
  }

  lemma NothingLacks(cost: Amounts, stock: Amounts)
    ensures Lacking(cost, stock) == NOTHING <==> Fits(cost, stock)
  {
  }

  lemma PaymentFits(total: Amounts, cost: Amounts, stock: Amounts)
    requires Fits(total, stock) && Fits(cost, Minus(stock, total))
    ensures Fits(Plus(total, cost), stock) && Minus(Minus(stock, total), cost) == Minus(stock, Plus(total, cost))
  {
  }

  lemma PayingNothing(total: Amounts)
    ensures Plus(total, NOTHING) == total
  {
  }

  lemma StockStep(p: Problem, now: real, stock: Amounts, before: Board, work: Work)
    requires before.slots != [] && Fits(TotalPaid(before.done), stock) && ValidWork(now, work)
    requires before.remaining == Minus(stock, TotalPaid(before.done))
    ensures var r := Schedule(p, now, before, work);
      && |r.done| == |before.done| + 1 && r.done[..|before.done|] == before.done && r.done[|before.done|].work == work
      && Fits(TotalPaid(r.done), stock) && r.remaining == Minus(stock, TotalPaid(r.done))
      && (work.Todo? ==>
            && r.done[|before.done|].affordable == Fits(work.cost, before.remaining)
            && r.done[|before.done|].deficits == Lacking(work.cost, before.remaining))
  {
    hide ReadyAt, FirstFree, RequirementsOf, Lacking, Fits, Plus, Minus, ValidWork;
    var r := Schedule(p, now, before, work);
    assert r.done[..|before.done|] == before.done;
    assert TotalPaid(r.done) == Plus(TotalPaid(before.done), Paid(r.done[|before.done|]));
    PayingNothing(TotalPaid(before.done));
    if work.Todo? {
      NothingLacks(work.cost, before.remaining);
      if Fits(work.cost, before.remaining) {
        PaymentFits(TotalPaid(before.done), work.cost, stock);
      }
    }
  }

  // ---------------------------------------------------------------- length of the schedule

  function WorkTime(works: seq<Work>): real {
    if works == [] then 0.0
    else
      var last := works[|works| - 1];
      WorkTime(works[..|works| - 1]) + if last.Todo? then last.duration * 1000.0 else 0.0
  }

  lemma {:induction false} ReadyAtIsBounded(done: seq<Scheduled>, requirements: seq<Requirement>, now: real,
          bound: real)
    requires now <= bound && forall i :: 0 <= i < |done| ==> done[i].completes <= bound
    ensures ReadyAt(done, requirements, now) <= bound
  {
    if requirements != [] {
      ReadyAtIsBounded(done, requirements[..|requirements| - 1], now, bound);
      LookupFinds(done, requirements[|requirements| - 1]);
    }
  }

  lemma {:induction false} LookupFinds(done: seq<Scheduled>, r: Requirement)
    ensures var found := Lookup(done, r);
      && (found.Some? ==> exists i :: 0 <= i < |done| && done[i] == found.value && Answers(done[i], r))
      && (found.None? ==> forall i :: 0 <= i < |done| ==> !Answers(done[i], r))
  {
    if done != [] {
      var n := |done| - 1;
      LookupFinds(done[..n], r);
      if Lookup(done, r).Some? && !Answers(done[n], r) {
        var i :| 0 <= i < n && done[..n][i] == Lookup(done, r).value && Answers(done[..n][i], r);
        assert done[i] == Lookup(done, r).value;
      }
      if Lookup(done, r).None? {
        forall i | 0 <= i < |done|
          ensures !Answers(done[i], r)
        {
          assert i < n ==> done[..n][i] == done[i];
        }
      }
    }
  }

  ghost predicate AllDoneBy(board: Board, bound: real) {
    && (forall i :: 0 <= i < |board.done| ==> board.done[i].completes <= bound)
    && (forall i :: 0 <= i < |board.slots| ==> board.slots[i] <= bound)
  }

  lemma MakespanStep(p: Problem, now: real, before: Board, work: Work, bound: real)
    requires before.slots != [] && now <= bound && AllDoneBy(before, bound) && ValidWork(now, work)
    requires work.Running? ==> work.job.completesAt <= bound
    ensures AllDoneBy(Schedule(p, now, before, work), bound + if work.Todo? then work.duration * 1000.0 else 0.0)
  {
    if work.Todo? {
      ReadyAtIsBounded(before.done, RequirementsOf(p, work.key), now, bound);
    }
  }

  /** Everything is complete no later than the latest initial slot time plus the time of all new steps. */
  lemma {:induction false} MakespanIsBounded(p: Problem, now: real, start: Board, works: seq<Work>, latest: real)
    requires start.slots != [] && start.done == [] && ValidWorks(now, works) && now <= latest
    requires forall i :: 0 <= i < |start.slots| ==> start.slots[i] <= latest
    requires forall i :: 0 <= i < |works| && works[i].Running? ==> works[i].job.completesAt <= latest
    ensures WorkTime(works) >= 0.0 && AllDoneBy(ScheduleAll(p, now, start, works), latest + WorkTime(works))
  {
    hide Schedule, AllDoneBy;
    if works != [] {
      FrontWorks(now, works);
      var front, last := works[..|works| - 1], works[|works| - 1];
      MakespanIsBounded(p, now, start, front, latest);
      MakespanStep(p, now, ScheduleAll(p, now, start, front), last, latest + WorkTime(front));
      assert WorkTime(works) == WorkTime(front) + if last.Todo? then last.duration * 1000.0 else 0.0;
    } else {
      StartIsDoneBy(start, latest);
    }
  }

  lemma StartIsDoneBy(start: Board, latest: real)
    requires start.done == [] && forall i :: 0 <= i < |start.slots| ==> start.slots[i] <= latest
    ensures AllDoneBy(start, latest)
  {
  }

  // ---------------------------------------------------------------- precedence

  /** A new step starts no earlier than each requirement earlier in the plan completes. */
  ghost predicate WaitsFor(p: Problem, done: seq<Scheduled>, i: nat, j: nat)
    requires i < |done| && j < |done|
  {
    forall r :: r in RequirementsOf(p, done[j].work.key) && Answers(done[i], r) ==> done[i].completes <= done[j].start
  }

  ghost predicate RequirementsComplete(p: Problem, done: seq<Scheduled>) {
    forall i, j :: 0 <= i < j < |done| && done[j].work.Todo? ==> WaitsFor(p, done, i, j)
  }

  /** Each step of a plan is listed once. */
  ghost predicate DistinctSteps(works: seq<Work>) {
    forall i, j :: 0 <= i < j < |works| ==> works[i].key != works[j].key
  }

  lemma {:induction false} ReadyAtCovers(done: seq<Scheduled>, requirements: seq<Requirement>, now: real,
          r: Requirement, i: nat)
    requires now >= 0.0 && r in requirements && i < |done| && Answers(done[i], r) && done[i].completes >= now
    requires forall k :: 0 <= k < |done| && Answers(done[k], r) ==> k == i
    ensures done[i].completes <= ReadyAt(done, requirements, now)
  {
    var n := |requirements| - 1;
    assert requirements == requirements[..n] + [requirements[n]];
    if requirements[n] == r {
      LookupFinds(done, r);
      ReadyAtIsLate(done, requirements[..n], now);
    } else {
      ReadyAtCovers(done, requirements[..n], now, r, i);
    }
  }

  lemma {:induction false} RequirementsCompleteFirst(p: Problem, now: real, start: Board, works: seq<Work>)
    requires now >= 0.0
    requires start.slots != [] && start.done == [] && SlotsFrom(now, start.slots)
    requires ValidWorks(now, works) && DistinctSteps(works)
    ensures RequirementsComplete(p, ScheduleAll(p, now, start, works).done)
  {
    if works != [] {
      FrontWorks(now, works);
      var front, last := works[..|works| - 1], works[|works| - 1];
      assert DistinctSteps(front);
      RequirementsCompleteFirst(p, now, start, front);
      SlotsNeverOverlap(p, now, start, [], front);
      var before := ScheduleAll(p, now, start, front);
      LastWaits(p, now, before, front, last, works);
    }
  }

  lemma LastWaits(p: Problem, now: real, before: Board, front: seq<Work>, last: Work, works: seq<Work>)
    requires now >= 0.0 && before.slots != [] && Works(before.done) == front && works == front + [last]
    requires AllFitted(now, before.slots, before.done) && DistinctSteps(works)
    requires RequirementsComplete(p, before.done)
    ensures RequirementsComplete(p, Schedule(p, now, before, last).done)
  {
    var after := Schedule(p, now, before, last);
    var n := |before.done|;
    forall i, j | 0 <= i < j < |after.done| && after.done[j].work.Todo?
      ensures WaitsFor(p, after.done, i, j)
    {
      if j < n {
        assert WaitsFor(p, before.done, i, j);
      } else {
        forall r | r in RequirementsOf(p, last.key) && Answers(after.done[i], r)
          ensures after.done[i].completes <= after.done[j].start
        {
          forall k | 0 <= k < n && Answers(before.done[k], r)
            ensures k == i
          {
            assert works[k].key == works[i].key;
          }
          assert Fitted(now, before.slots, before.done[i]);
          ReadyAtCovers(before.done, RequirementsOf(p, last.key), now, r, i);
        }
      }
    }
  }

  lemma TwoSteps(p: Problem, now: real, start: Board, a: Work, b: Work)
    requires start.slots != []
    ensures Schedule(p, now, start, a).slots != []
    ensures ScheduleAll(p, now, start, [a, b]) == Schedule(p, now, Schedule(p, now, start, a), b)
  {
    hide Schedule;
    assert [a, b][..1] == [a] && [a][..0] == [];
    assert ScheduleAll(p, now, start, [a]) == Schedule(p, now, ScheduleAll(p, now, start, []), a);
  }
}

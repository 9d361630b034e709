/**
 When storing succeeds. Together with `IndexerInvariant`, which says what a success means, this pins
 the transaction down from both sides (server/chain-indexer-store.js:173-321).
 */
module IndexerSuccess {
  import opened Wrappers
  import opened Sorting
  import opened ChainTypes
  import opened IndexerCore
  import opened IndexerStore
  import opened FinalizedIndex
  import opened IndexerInvariant

  // ---------------------------------------------------------------- preparing

  lemma ChainFront(s: seq<Block>)
    requires s != [] && ChainOf(s)
    ensures ChainOf(s[..|s| - 1])
    ensures |s| > 1 ==> s[|s| - 2].number < s[|s| - 1].number
  {
  }

  lemma {:induction false} ChainIsSorted(s: seq<Block>)
    requires ChainOf(s)
    ensures Sort(s, LowerBlock) == s
  {
    hide ChainOf;
    if s != [] {
      var n := |s| - 1;
      ChainFront(s);
      ChainIsSorted(s[..n]);
      SortFixesAppend(s, LowerBlock);
    }
  }

  lemma {:induction false} NoLogFault(contract: Address, blocks: seq<Block>, logs: seq<Log>)
    requires forall log :: log in logs ==> log.address == contract && Supplied(blocks, log.blockNumber, log.blockHash)
    ensures LogFault(contract, blocks, logs).None?
  {
    if logs != [] {
      NoLogFault(contract, blocks, logs[..|logs| - 1]);
    }
  }

  /** A batch is accepted for the transaction when it is one chain of blocks with well-formed logs of its own. */
  ghost predicate WellFormed(contract: Address, batch: Batch) {
    && batch.blocks != [] && ChainOf(batch.blocks)
    && (forall b :: b in batch.blocks ==> BlockInRange(b))
    && batch.checkpoint == batch.blocks[|batch.blocks| - 1].ToHeader()
    && (forall log :: log in batch.logs ==>
          InRange(log) && log.address == contract && Supplied(batch.blocks, log.blockNumber, log.blockHash))
    && (forall a, b :: a in batch.logs && b in batch.logs && KeyOf(a) == KeyOf(b) ==> a == b)
  }

  lemma LogsAreCanonical(logs: seq<Log>)
    requires forall log :: log in logs ==> InRange(log)
    requires forall a, b :: a in logs && b in logs && KeyOf(a) == KeyOf(b) ==> a == b
    ensures CanonicalLogs(logs).Success?
  {
    assert !Conflicting(logs);
  }

  lemma WellFormedIsPrepared(contract: Address, batch: Batch)
    requires WellFormed(contract, batch)
    ensures Prepare(contract, batch).Success?
    ensures Prepare(contract, batch).value.blocks == batch.blocks
    ensures Prepare(contract, batch).value.maxDepth == batch.maxRollbackDepth
    ensures PreparedOk(contract, Prepare(contract, batch).value)
    ensures forall log :: log in Prepare(contract, batch).value.logs <==> log in batch.logs
  {
    hide CanonicalLogs, LogFault, PreparedOk;
    ChainIsSorted(batch.blocks);
    NoBatchFault(batch.blocks);
    assert batch.blocks[|batch.blocks| - 1] in batch.blocks;
    LogsAreCanonical(batch.logs);
    CanonicalLogsShape(batch.logs);
    NoLogFault(contract, batch.blocks, CanonicalLogs(batch.logs).value);
    PrepareChecks(contract, batch);
  }

  // ---------------------------------------------------------------- planning

  ghost predicate HeaderChain(s: seq<Header>) {
    && (forall i :: 0 <= i < |s| ==> s[i].number == s[0].number + i)
    && (forall i, j :: 0 <= i < |s| && 0 <= j < |s| && j == i + 1 ==> s[j].parent == s[i].hash)
  }

  lemma HeaderChainFront(s: seq<Header>)
    requires s != [] && HeaderChain(s)
    ensures HeaderChain(s[..|s| - 1])
  {
    assert forall i :: 0 <= i < |s| - 1 ==> s[..|s| - 1][i] == s[i];
  }

  lemma {:induction false} NoFaultInHeaderChain(s: seq<Header>)
    requires HeaderChain(s)
    ensures HeaderFault(s).None?
  {
    if s != [] {
      HeaderChainFront(s);
      NoFaultInHeaderChain(s[..|s| - 1]);
    }
  }

  lemma {:induction false} HeaderChainIsSorted(s: seq<Header>)
    requires HeaderChain(s)
    ensures Sort(s, HeaderBefore) == s
  {
    if s != [] {
      var n := |s| - 1;
      HeaderChainFront(s);
      HeaderChainIsSorted(s[..n]);
      SortFixesAppend(s, HeaderBefore);
    }
  }

  lemma ChainHeadersAreSorted(s: seq<Block>)
    requires s != [] && ChainOf(s) && forall b :: b in s ==> BlockInRange(b)
    ensures SortedHeaders(Headers(s)) == Success(Headers(s)) && StrictlySorted(Headers(s), HeaderBefore)
  {
    TipOfChain(s);
    assert HeaderChain(Headers(s));
    NoFaultInHeaderChain(Headers(s));
    HeaderChainIsSorted(Headers(s));
    forall h | h in Headers(s)
      ensures HeaderInRange(h)
    {
      var i :| 0 <= i < |s| && Headers(s)[i] == h;
      assert s[i] in s;
    }
  }

  lemma TailIsChain(blocks: map<nat, Block>, lower: nat, lo: nat, hi: nat)
    requires lo <= hi && lower <= hi && Spans(blocks, lo, hi) && WellNumbered(blocks) && Linked(blocks)
    ensures var rows := Rows(blocks, lower, hi);
      && rows != [] && ChainOf(rows) && rows[|rows| - 1] == blocks[hi]
      && (forall b :: b in rows ==> BlockInRange(b))
  {
    var from := if lower < lo then lo else lower;
    if lower < lo {
      RowsSkip(blocks, lower, lo, hi);
    }
    RowsDense(blocks, from, hi);
    var rows := Rows(blocks, lower, hi);
    forall i, j | 0 <= i < |rows| && 0 <= j < |rows| && j == i + 1
      ensures rows[j].parent == rows[i].hash
    {
      assert rows[j] == blocks[from + j] && rows[i] == blocks[from + i];
    }
  }

  lemma {:induction false} AboveIsSuffix(s: seq<Header>, height: nat, k: nat)
    requires StrictlySorted(s, HeaderBefore) && k <= |s|
    requires forall i :: 0 <= i < |s| ==> (s[i].number > height <==> k <= i)
    ensures Above(s, height) == s[k..]
  {
    if s != [] {
      var n := |s| - 1;
      if k <= n {
        AboveIsSuffix(s[..n], height, k);
        assert s[k..] == s[..n][k..] + [s[n]];
      } else {
        AboveIsSuffix(s[..n], height, n);
      }
    }
  }

  lemma {:induction false} FindsItself(s: seq<Block>, i: nat)
    requires i < |s| && forall j, k :: 0 <= j < k < |s| ==> s[j].number != s[k].number
    ensures Find(s, s[i].ToHeader()) == Some(s[i])
  {
    if i < |s| - 1 {
      FindsItself(s[..|s| - 1], i);
    }
  }

  lemma {:induction false} ResupplySuffix(s: seq<Block>, k: nat, m: nat)
    requires k <= m <= |s| && forall j, k :: 0 <= j < k < |s| ==> s[j].number != s[k].number
    ensures Resupply(s, Headers(s)[k..m]) == Success(s[k..m])
  {
    if k < m {
      ResupplySuffix(s, k, m - 1);
      assert Headers(s)[k..m][..m - 1 - k] == Headers(s)[k..m - 1];
      FindsItself(s, m - 1);
      assert s[k..m] == s[k..m - 1] + [s[m - 1]];
    }
  }

  /** The highest stored height that an observed block equals, or names as its parent. */
  ghost predicate HighestVouched(blocks: map<nat, Block>, observed: seq<Block>, a: nat) {
    && a in blocks && VouchedFor(blocks, observed, a)
    && forall n :: n in blocks && a < n ==> !VouchedFor(blocks, observed, n)
  }

  /** At the heights of a batch, the stored blocks it vouches for are those it agrees with. */
  lemma VoucherIsAgreement(blocks: map<nat, Block>, s: seq<Block>, n: nat)
    requires s != [] && ChainOf(s) && n in blocks && s[0].number <= n
    ensures VouchedFor(blocks, s, n) <==>
      n < s[0].number + |s| && s[n - s[0].number].hash == blocks[n].hash
  {
    var first := s[0].number;
    if VouchedFor(blocks, s, n) {
      var i :| 0 <= i < |s| && Names(s[i].ToHeader(), n, blocks[n].hash);
      assert i > 0 ==> s[i].number == first + i && s[i].parent == s[i - 1].hash;
    }
    if n < first + |s| && s[n - first].hash == blocks[n].hash {
      assert n - first > 0 ==> s[n - first].number == first + (n - first);
      assert Names(s[n - first].ToHeader(), n, blocks[n].hash);
    }
  }

  /** Below its heights a batch vouches for one stored block at most: the one its first block names as parent. */
  lemma VoucherIsParent(blocks: map<nat, Block>, s: seq<Block>, n: nat)
    requires s != [] && ChainOf(s) && n in blocks && n < s[0].number
    ensures VouchedFor(blocks, s, n) <==> n + 1 == s[0].number && s[0].parent == blocks[n].hash
  {
    if VouchedFor(blocks, s, n) {
      var i :| 0 <= i < |s| && Names(s[i].ToHeader(), n, blocks[n].hash);
      assert s[i].number == s[0].number + i;
    }
    if n + 1 == s[0].number && s[0].parent == blocks[n].hash {
      assert Names(s[0].ToHeader(), n, blocks[n].hash);
    }
  }

  lemma AncestorIsHighest(blocks: map<nat, Block>, lower: nat, hi: nat, s: seq<Block>, a: nat)
    requires WellNumbered(blocks) && HighestVouched(blocks, s, a) && lower <= a <= hi
    requires StrictlySorted(Headers(Rows(blocks, lower, hi)), HeaderBefore)
    ensures var c := CommonAncestor(Headers(Rows(blocks, lower, hi)), Headers(s));
      c.Some? && c.value.number == a && c.value.hash == blocks[a].hash
  {
    hide Rows, Headers, Names, ByHeight, CommonAncestor, WellNumbered, Named, Holds;
    var rows := Headers(Rows(blocks, lower, hi));
    HighestAncestor(rows, Headers(s));
    HeadersHold(blocks, lower, hi, a, blocks[a].hash);
    HeadersNamed(s, a, blocks[a].hash);
    assert Holds(rows, a, blocks[a].hash) && Named(Headers(s), a, blocks[a].hash);
    var c := CommonAncestor(rows, Headers(s)).value;
    HeadersHold(blocks, lower, hi, c.number, c.hash);
    HeadersNamed(s, c.number, c.hash);
  }

  /** The hash the block at index `k` names as its parent, in a chain that ends no earlier than there. */
  function HashBefore(s: seq<Block>, k: nat): Hash
    requires s != [] && k <= |s|
  {
    if k == 0 then s[0].parent else s[k - 1].hash
  }

  lemma SuffixContinues(s: seq<Block>, ancestor: Header, k: nat)
    requires s != [] && ChainOf(s) && k <= |s|
    requires ancestor.number + 1 == s[0].number + k && ancestor.hash == HashBefore(s, k)
    ensures Continues(ancestor, Headers(s)[k..])
  {
    forall i | 0 <= i < |s| - k
      ensures LinkedAt(ancestor, Headers(s)[k..], i)
    {
      assert s[k + i].number == s[0].number + (k + i);
      assert k + i > 0 ==> s[k + i].parent == s[k + i - 1].hash;
    }
  }

  lemma PlanFromSucceeds(checkpoint: Header, ancestor: Header, s: seq<Block>, maxDepth: nat, k: nat)
    requires s != [] && ChainOf(s) && k <= |s| && StrictlySorted(Headers(s), HeaderBefore)
    requires ancestor.number + 1 == s[0].number + k && ancestor.hash == HashBefore(s, k)
    requires ancestor.number <= checkpoint.number <= ancestor.number + maxDepth
    ensures var r := PlanFrom(checkpoint, ancestor, Headers(s), maxDepth);
      && r.Success? && r.value.replay == Headers(s)[k..]
      && r.value.rollbackDepth == checkpoint.number - ancestor.number
      && r.value.deleteFrom == if r.value.rollbackDepth == 0 then None else Some(ancestor.number + 1)
  {
    TipOfChain(s);
    AboveIsSuffix(Headers(s), ancestor.number, k);
    SuffixContinues(s, ancestor, k);
    ReplayFaultIff(ancestor, Headers(s)[k..]);
  }

  /** What the batch holds or names just above the highest block it vouches for. */
  lemma VouchedHash(blocks: map<nat, Block>, s: seq<Block>, a: nat)
    requires s != [] && ChainOf(s) && a in blocks && VouchedFor(blocks, s, a) && a < s[0].number + |s|
    ensures s[0].number <= a + 1 && blocks[a].hash == HashBefore(s, a + 1 - s[0].number)
  {
    if s[0].number <= a {
      VoucherIsAgreement(blocks, s, a);
    } else {
      VoucherIsParent(blocks, s, a);
    }
  }

  lemma TailIsPlanned(blocks: map<nat, Block>, lo: nat, current: Checkpoint, p: Prepared, a: nat)
    requires lo <= current.number && Spans(blocks, lo, current.number) && WellNumbered(blocks) && Linked(blocks)
    requires blocks[current.number].hash == current.hash
    requires p.blocks != [] && ChainOf(p.blocks) && forall b :: b in p.blocks ==> BlockInRange(b)
    requires HighestVouched(blocks, p.blocks, a) && current.number < p.blocks[0].number + |p.blocks|
    requires current.number <= a + p.maxDepth
    ensures p.blocks[0].number <= a + 1
    ensures var r := PlanTail(current, Rows(blocks, LowerBound(current.number, p.maxDepth), current.number), p);
      && r.Success? && r.value.replay == Headers(p.blocks)[a + 1 - p.blocks[0].number..]
      && r.value.rollbackDepth == current.number - a
      && r.value.deleteFrom == if a == current.number then None else Some(a + 1)
  {
    hide PlanTail, Holds, CommonAncestor, SortedHeaders, ChainOf;
    var lower := LowerBound(current.number, p.maxDepth);
    var rows := Rows(blocks, lower, current.number);
    TailIsChain(blocks, lower, lo, current.number);
    ChainHeadersAreSorted(rows);
    ChainHeadersAreSorted(p.blocks);
    AncestorIsHighest(blocks, lower, current.number, p.blocks, a);
    VouchedHash(blocks, p.blocks, a);
    CheckpointHeld(blocks, lower, current);
    TailPlanSucceeds(current, rows, p, a, blocks[a].hash);
  }

  lemma PlanStoreFrom(t: Tables, p: Prepared, plan: Plan, k: nat)
    requires t.checkpoint.Some? && t.checkpoint.value.number <= p.tip.number
    requires PlanTail(t.checkpoint.value, Tail(t, p), p) == Success(plan)
    requires p.blocks != [] && ChainOf(p.blocks) && k <= |p.blocks| && plan.replay == Headers(p.blocks)[k..]
    ensures PlanStore(t, p) == Success(StorePlan(p.blocks[k..], plan.deleteFrom, plan.rollbackDepth))
  {
    hide PlanTail, PlanWrites, Rows, Headers, ChainOf;
    ResuppliesSuffix(p, plan, k);
  }

  /** The highest block the batch vouches for lies within reach, and the batch ends no lower than the checkpoint. */
  ghost predicate Splices(t: Tables, p: Prepared, a: nat)
    requires t.checkpoint.Some?
  {
    && t.checkpoint.value.number <= p.tip.number && t.checkpoint.value.number <= a + p.maxDepth
    && HighestVouched(t.blocks, p.blocks, a)
  }

  lemma SplicePoint(contract: Address, t: Tables, lo: nat, p: Prepared, a: nat)
    requires ValidIndex(contract, t, lo) && t.checkpoint.Some? && PreparedOk(contract, p) && Splices(t, p, a)
    ensures p.blocks[0].number <= a + 1 <= p.blocks[0].number + |p.blocks| && a <= t.checkpoint.value.number
  {
    TipOfChain(p.blocks);
    AncestorMeetsBatch(t, p, a);
  }

  /** What the plan is when the batch splices onto the block at height `a`. */
  lemma PlanSucceeds(contract: Address, t: Tables, lo: nat, p: Prepared, a: nat)
    requires ValidIndex(contract, t, lo) && t.checkpoint.Some? && PreparedOk(contract, p) && Splices(t, p, a)
    ensures p.blocks[0].number <= a + 1 <= p.blocks[0].number + |p.blocks| && a <= t.checkpoint.value.number
    ensures PlanStore(t, p) == Success(PlanAt(t.checkpoint.value, p, a))
  {
    hide PlanTail, PlanStore, EventsInBlocks, KeyedEvents, UniqueHashes, Rows, Headers, Linked, WellNumbered, ChainOf;
    SplicePoint(contract, t, lo, p, a);
    TipOfChain(p.blocks);
    TailIsPlanned(t.blocks, lo, t.checkpoint.value, p, a);
    PlanStoreFrom(t, p, PlanTail(t.checkpoint.value, Tail(t, p), p).value, a + 1 - p.blocks[0].number);
  }

  function PlanAt(current: Checkpoint, p: Prepared, a: nat): StorePlan
    requires p.blocks != [] && p.blocks[0].number <= a + 1 <= p.blocks[0].number + |p.blocks| && a <= current.number
  {
    StorePlan(p.blocks[a + 1 - p.blocks[0].number..], if a == current.number then None else Some(a + 1),
              current.number - a)
  }

  /**
   On a valid index planning succeeds exactly when the batch ends no lower than the checkpoint and vouches
   for a stored block, the highest of which lies within reach.
   */
  lemma PlanSucceedsIff(contract: Address, t: Tables, lo: nat, p: Prepared)
    requires ValidIndex(contract, t, lo) && t.checkpoint.Some? && PreparedOk(contract, p)
    ensures PlanStore(t, p).Success? <==> exists a :: Splices(t, p, a)
  {
    hide PlanTail, PlanStore, EventsInBlocks, KeyedEvents, UniqueHashes, Rows, Linked, WellNumbered, ChainOf;
    if PlanStore(t, p).Success? {
      PlanMeans(contract, t, lo, p);
      assert Splices(t, p, AncestorHeight(t, p));
    }
    if a :| Splices(t, p, a) {
      PlanSucceeds(contract, t, lo, p, a);
    }
  }

  lemma TailPlanSucceeds(current: Checkpoint, rows: seq<Block>, p: Prepared, a: nat, hash: Hash)
    requires rows != [] && p.blocks != [] && ChainOf(p.blocks) && current.number <= MAX_BIGINT
    requires SortedHeaders(Headers(rows)) == Success(Headers(rows)) && StrictlySorted(Headers(rows), HeaderBefore)
    requires SortedHeaders(Headers(p.blocks)) == Success(Headers(p.blocks))
    requires StrictlySorted(Headers(p.blocks), HeaderBefore)
    requires Holds(Headers(rows), current.number, current.hash)
    requires p.blocks[0].number <= a + 1 <= p.blocks[0].number + |p.blocks|
    requires HashBefore(p.blocks, a + 1 - p.blocks[0].number) == hash && a <= current.number <= a + p.maxDepth
    requires var c := CommonAncestor(Headers(rows), Headers(p.blocks));
      c.Some? && c.value.number == a && c.value.hash == hash
    ensures var r := PlanTail(current, rows, p);
      && r.Success? && r.value.replay == Headers(p.blocks)[a + 1 - p.blocks[0].number..]
      && r.value.rollbackDepth == current.number - a
      && r.value.deleteFrom == if a == current.number then None else Some(a + 1)
  {
    hide Holds, SortedHeaders, CommonAncestor, PlanFrom, Headers, ByHeight;
    var checkpoint := Header(current.number, current.hash, rows[|rows| - 1].parent);
    CheckpointIsStored(checkpoint, Headers(rows));
    PlanFromSucceeds(checkpoint, CommonAncestor(Headers(rows), Headers(p.blocks)).value, p.blocks, p.maxDepth,
                     a + 1 - p.blocks[0].number);
  }

  lemma ResuppliesSuffix(p: Prepared, plan: Plan, k: nat)
    requires p.blocks != [] && ChainOf(p.blocks) && k <= |p.blocks| && plan.replay == Headers(p.blocks)[k..]
    ensures PlanWrites(p.blocks, plan) == Success(StorePlan(p.blocks[k..], plan.deleteFrom, plan.rollbackDepth))
  {
    var s := p.blocks;
    TipOfChain(s);
    ResupplySuffix(s, k, |s|);
    assert Headers(s)[k..|s|] == Headers(s)[k..] && s[k..|s|] == s[k..];
  }

  lemma CheckpointHeld(blocks: map<nat, Block>, lower: nat, current: Checkpoint)
    requires WellNumbered(blocks) && lower <= current.number
    requires current.number in blocks && blocks[current.number].hash == current.hash
    ensures Holds(Headers(Rows(blocks, lower, current.number)), current.number, current.hash)
  {
    HeadersHold(blocks, lower, current.number, current.number, current.hash);
  }

  // ---------------------------------------------------------------- writing

  ghost predicate FreshRows(blocks: map<nat, Block>, rows: seq<Block>) {
    && (forall i :: 0 <= i < |rows| ==> rows[i].number !in blocks)
    && (forall i, n :: 0 <= i < |rows| && n in blocks ==> blocks[n].hash != rows[i].hash)
    && (forall i, j :: 0 <= i < j < |rows| ==> rows[i].number != rows[j].number && rows[i].hash != rows[j].hash)
  }

  lemma FreshFront(blocks: map<nat, Block>, rows: seq<Block>)
    requires rows != [] && FreshRows(blocks, rows)
    ensures FreshRows(blocks, rows[..|rows| - 1])
  {
  }

  lemma LastIsFresh(blocks: map<nat, Block>, rows: seq<Block>, front: map<nat, Block>)
    requires rows != [] && FreshRows(blocks, rows)
    requires forall n :: n in front ==>
      (n in blocks && front[n] == blocks[n]) || (front[n] in rows[..|rows| - 1] && front[n].number == n)
    ensures forall n :: n in front ==> front[n].hash != rows[|rows| - 1].hash && n != rows[|rows| - 1].number
  {
    var m := |rows| - 1;
    forall n | n in front
      ensures front[n].hash != rows[m].hash && n != rows[m].number
    {
      if n in blocks && front[n] == blocks[n] {
      } else {
        var i :| 0 <= i < m && rows[..m][i] == front[n];
        assert rows[i].number != rows[m].number && rows[i].hash != rows[m].hash;
      }
    }
  }

  /** Rows with new heights and new hashes are all inserted. */
  lemma {:induction false} FreshRowsInsert(blocks: map<nat, Block>, rows: seq<Block>)
    requires FreshRows(blocks, rows)
    ensures InsertBlocks(blocks, rows).Some?
    ensures var r := InsertBlocks(blocks, rows).value;
      && (forall n :: n in r ==> (n in blocks && r[n] == blocks[n]) || (r[n] in rows && r[n].number == n))
      && (forall n :: n in blocks ==> n in r && r[n] == blocks[n])
      && (forall i :: 0 <= i < |rows| ==> rows[i].number in r && r[rows[i].number] == rows[i])
  {
    hide FreshRows;
    if rows != [] {
      var m := |rows| - 1;
      FreshFront(blocks, rows);
      FreshRowsInsert(blocks, rows[..m]);
      var front := InsertBlocks(blocks, rows[..m]).value;
      LastIsFresh(blocks, rows, front);
      assert InsertBlocks(blocks, rows) == Some(front[rows[m].number := rows[m]]);
      forall i | 0 <= i < m
        ensures rows[i].number in front && front[rows[i].number] == rows[i]
      {
        assert rows[..m][i] == rows[i];
      }
    }
  }

  lemma RowsReadBack(blocks: map<nat, Block>, s: seq<Block>)
    requires s != [] && ChainOf(s)
    requires forall i :: 0 <= i < |s| ==> s[i].number in blocks && blocks[s[i].number] == s[i]
    ensures Rows(blocks, s[0].number, s[|s| - 1].number) == s
  {
    TipOfChain(s);
    var first, last := s[0].number, s[|s| - 1].number;
    forall n | first <= n <= last
      ensures n in blocks && blocks[n] == s[n - first]
    {
      assert s[n - first].number == n;
    }
    RowsDense(blocks, first, last);
  }

  /** The stored blocks up to the ancestor are those of the batch, and none of its hashes lies below it. */
  ghost predicate BlocksFit(blocks: map<nat, Block>, s: seq<Block>, a: nat)
    requires s != []
  {
    && (forall n :: n in blocks && s[0].number <= n <= a && n < s[0].number + |s| ==> blocks[n] == s[n - s[0].number])
    && (forall n, i :: n in blocks && n < s[0].number && 0 <= i < |s| ==> blocks[n].hash != s[i].hash)
    && (forall i, j :: 0 <= i < j < |s| ==> s[i].hash != s[j].hash)
  }

  /** The stored events up to the ancestor are those of the batch, and none of its keys lies below it. */
  ghost predicate EventsFit(events: map<EventKey, Log>, logs: seq<Log>, first: nat, a: nat) {
    forall k :: k in events && events[k].blockNumber <= a ==>
      if first <= events[k].blockNumber then events[k] in logs else forall log :: log in logs ==> KeyOf(log) != k
  }

  lemma SuffixIsFresh(kept: map<nat, Block>, s: seq<Block>, a: nat)
    requires s != [] && ChainOf(s) && s[0].number <= a + 1 <= s[0].number + |s|
    requires BlocksFit(kept, s, a) && forall n :: n in kept ==> n <= a
    ensures FreshRows(kept, s[a + 1 - s[0].number..])
  {
    var first := s[0].number;
    var k := a + 1 - first;
    var rows := s[k..];
    forall i, n | 0 <= i < |rows| && n in kept
      ensures kept[n].hash != rows[i].hash
    {
      assert rows[i] == s[k + i];
      if first <= n {
        assert kept[n] == s[n - first];
      }
    }
    forall i, j | 0 <= i < j < |rows|
      ensures rows[i].number != rows[j].number && rows[i].hash != rows[j].hash
    {
      assert rows[i] == s[k + i] && rows[j] == s[k + j];
    }
    forall i | 0 <= i < |rows|
      ensures rows[i].number !in kept
    {
      assert rows[i] == s[k + i] && s[k + i].number == first + (k + i);
    }
  }

  lemma BlocksWriteSucceeds(kept: map<nat, Block>, s: seq<Block>, a: nat)
    requires s != [] && ChainOf(s) && s[0].number <= a + 1 <= s[0].number + |s|
    requires BlocksFit(kept, s, a) && forall n :: n in kept ==> n <= a
    requires forall n :: s[0].number <= n <= a ==> n in kept
    ensures var r := InsertBlocks(kept, s[a + 1 - s[0].number..]);
      r.Some? && Rows(r.value, s[0].number, s[|s| - 1].number) == s
  {
    hide FreshRows, Rows, InsertBlocks;
    var first := s[0].number;
    var k := a + 1 - first;
    var rows := s[k..];
    SuffixIsFresh(kept, s, a);
    FreshRowsInsert(kept, rows);
    var r := InsertBlocks(kept, rows).value;
    forall i | 0 <= i < |s|
      ensures s[i].number in r && r[s[i].number] == s[i]
    {
      assert s[i].number == first + i;
      if i < k {
        assert kept[first + i] == s[i];
      } else {
        assert rows[i - k] == s[i];
      }
    }
    RowsReadBack(r, s);
  }

  lemma EventsWriteSucceeds(kept: map<EventKey, Log>, logs: seq<Log>, first: nat, tip: nat, a: nat)
    requires KeyedEvents(kept) && DistinctKeys(logs) && EventsFit(kept, logs, first, a)
    requires forall k :: k in kept ==> kept[k].blockNumber <= a
    requires forall log :: log in logs ==> first <= log.blockNumber <= tip
    ensures EventsBetween(InsertEvents(kept, logs), first, tip) == Elements(logs)
  {
    var r := InsertEvents(kept, logs);
    InsertEventsMeans(kept, logs);
    forall log
      ensures log in EventsBetween(r, first, tip) <==> log in Elements(logs)
    {
      if log in logs {
        var other := r[KeyOf(log)];
        assert other in logs && KeyOf(other) == KeyOf(log);
        var i :| 0 <= i < |logs| && logs[i] == log;
        var j :| 0 <= j < |logs| && logs[j] == other;
      }
      if log in EventsBetween(r, first, tip) {
        var k :| k in r && first <= r[k].blockNumber <= tip && r[k] == log;
        assert k !in kept ==> log in logs;
      }
    }
  }

  lemma LogsAreInRange(contract: Address, p: Prepared)
    requires PreparedOk(contract, p)
    ensures forall log :: log in p.logs ==> p.blocks[0].number <= log.blockNumber <= p.tip.number
  {
    TipOfChain(p.blocks);
    forall log | log in p.logs
      ensures p.blocks[0].number <= log.blockNumber <= p.tip.number
    {
      var b :| b in p.blocks && b.number == log.blockNumber && b.hash == log.blockHash;
      var i :| 0 <= i < |p.blocks| && p.blocks[i] == b;
    }
  }

  lemma WriteSucceeds(t: Tables, p: Prepared, plan: StorePlan)
    requires p.blocks != []
    requires InsertBlocks(BlocksBelow(t.blocks, plan.deleteFrom), plan.replay).Some?
    requires Rows(InsertBlocks(BlocksBelow(t.blocks, plan.deleteFrom), plan.replay).value,
                  p.blocks[0].number, p.tip.number) == p.blocks
    requires EventsBetween(InsertEvents(EventsBelow(t.events, plan.deleteFrom), p.logs),
                           p.blocks[0].number, p.tip.number) == Elements(p.logs)
    ensures Write(t, p, plan).Success?
  {
  }

  /** The batch splices onto the block at height `a`, and fits what is stored up to there. */
  ghost predicate Committable(t: Tables, lo: nat, p: Prepared, a: nat)
    requires t.checkpoint.Some? && p.blocks != []
  {
    && Splices(t, p, a) && lo <= p.blocks[0].number
    && BlocksFit(t.blocks, p.blocks, a) && EventsFit(t.events, p.logs, p.blocks[0].number, a)
  }

  lemma CommitSucceeds(contract: Address, t: Tables, lo: nat, p: Prepared, a: nat)
    requires ValidIndex(contract, t, lo) && t.checkpoint.Some? && PreparedOk(contract, p) && Committable(t, lo, p, a)
    ensures Commit(t, p).Success? && Commit(t, p).value.depth == t.checkpoint.value.number - a
  {
    hide PlanStore, Write, Rows, InsertBlocks, InsertEvents, EventsBetween, EventsInBlocks, DistinctKeys, BlocksFit,
      EventsFit, BlocksBelow, EventsBelow, Linked, WellNumbered, UniqueHashes, Splices, HighestVouched;
    PlanSucceeds(contract, t, lo, p, a);
    TipOfChain(p.blocks);
    var plan := PlanAt(t.checkpoint.value, p, a);
    var keptBlocks, keptEvents := BlocksBelow(t.blocks, plan.deleteFrom), EventsBelow(t.events, plan.deleteFrom);
    KeptBlocksFit(t.blocks, p.blocks, t.checkpoint.value.number, plan.deleteFrom, a);
    KeptEventsFit(contract, t, lo, p.logs, p.blocks[0].number, plan.deleteFrom, a);
    BlocksWriteSucceeds(keptBlocks, p.blocks, a);
    LogsAreInRange(contract, p);
    EventsWriteSucceeds(keptEvents, p.logs, p.blocks[0].number, p.tip.number, a);
    WriteSucceeds(t, p, plan);
  }

  lemma CommittedBlocksFit(t: Tables, p: Prepared, r: Tables, a: nat)
    requires p.blocks != [] && ChainOf(p.blocks) && p.blocks[0].number <= a + 1 <= p.blocks[0].number + |p.blocks|
    requires BlocksSpliced(t, p, r, a) && UniqueHashes(r.blocks)
    ensures BlocksFit(t.blocks, p.blocks, a)
  {
    var s, first := p.blocks, p.blocks[0].number;
    forall n, i | n in t.blocks && n < first && 0 <= i < |s|
      ensures t.blocks[n].hash != s[i].hash
    {
      assert r.blocks[n] == t.blocks[n] && r.blocks[first + i] == s[i];
    }
    forall i, j | 0 <= i < j < |s|
      ensures s[i].hash != s[j].hash
    {
      assert r.blocks[first + i] == s[i] && r.blocks[first + j] == s[j];
    }
    forall n | n in t.blocks && first <= n <= a && n < first + |s|
      ensures t.blocks[n] == s[n - first]
    {
      assert r.blocks[n] == t.blocks[n];
    }
  }

  lemma CommittedEventsFit(t: Tables, p: Prepared, r: Tables, a: nat)
    requires p.blocks != [] && a < p.blocks[0].number + |p.blocks| && KeyedEvents(t.events)
    requires EventsSpliced(t, p, r, a)
    ensures EventsFit(t.events, p.logs, p.blocks[0].number, a)
  {
  }

  /**
   On a valid index a prepared batch is committed exactly when it ends no lower than the checkpoint, the
   highest stored block it equals or names as parent lies within reach, and it fits what is stored up to
   there: it does not begin below the index, repeats the stored blocks and events where they meet, and no
   hash or event key of its own lies elsewhere.
   */
  lemma CommitSucceedsIff(contract: Address, t: Tables, lo: nat, p: Prepared)
    requires ValidIndex(contract, t, lo) && t.checkpoint.Some? && PreparedOk(contract, p)
    ensures Commit(t, p).Success? <==> exists a :: Committable(t, lo, p, a)
  {
    hide PlanTail, PlanStore, Commit, EventsInBlocks, Rows, Linked, WellNumbered, ChainOf, BlocksFit, EventsFit,
      BlocksSpliced, EventsSpliced, DistinctKeys, UniqueHashes;
    if Commit(t, p).Success? {
      CommitMeans(contract, t, lo, p);
      CommitKeepsValid(contract, t, lo, p);
      TipOfChain(p.blocks);
      var a, r := AncestorHeight(t, p), Commit(t, p).value.tables;
      CommittedBlocksFit(t, p, r, a);
      CommittedEventsFit(t, p, r, a);
      assert Committable(t, lo, p, a);
    }
    if a :| Committable(t, lo, p, a) {
      CommitSucceeds(contract, t, lo, p, a);
    }
  }

  lemma KeptBlocksFit(blocks: map<nat, Block>, s: seq<Block>, hi: nat, deleteFrom: Option<nat>, a: nat)
    requires s != [] && BlocksFit(blocks, s, a) && a <= hi && forall n :: n in blocks ==> n <= hi
    requires deleteFrom == if a == hi then None else Some(a + 1)
    ensures BlocksFit(BlocksBelow(blocks, deleteFrom), s, a)
    ensures forall n :: n in BlocksBelow(blocks, deleteFrom) <==> n in blocks && n <= a
  {
  }

  lemma KeptEventsFit(contract: Address, t: Tables, lo: nat, logs: seq<Log>, first: nat, deleteFrom: Option<nat>,
          a: nat)
    requires ValidIndex(contract, t, lo) && t.checkpoint.Some? && a <= t.checkpoint.value.number
    requires deleteFrom == if a == t.checkpoint.value.number then None else Some(a + 1)
    requires EventsFit(t.events, logs, first, a)
    ensures var kept := EventsBelow(t.events, deleteFrom);
      && KeyedEvents(kept) && EventsFit(kept, logs, first, a)
      && forall k :: k in kept ==> kept[k].blockNumber <= a
  {
  }

  lemma FirstRowsAreFresh(s: seq<Block>)
    requires ChainOf(s) && forall i, j :: 0 <= i < j < |s| ==> s[i].hash != s[j].hash
    ensures FreshRows(map[], s)
  {
    assert forall i, j :: 0 <= i < j < |s| ==> s[i].number != s[j].number;
  }

  /** A prepared batch with no hash twice is committed to an empty index. */
  lemma FirstCommitSucceeds(contract: Address, p: Prepared)
    requires PreparedOk(contract, p)
    requires forall i, j :: 0 <= i < j < |p.blocks| ==> p.blocks[i].hash != p.blocks[j].hash
    ensures Commit(EMPTY, p).Success? && Commit(EMPTY, p).value.depth == 0
  {
    hide InsertBlocks, InsertEvents, EventsBetween, Rows, Write, FreshRows, DistinctKeys;
    var plan := StorePlan(p.blocks, None, 0);
    assert BlocksBelow(EMPTY.blocks, None) == map[] && EventsBelow(EMPTY.events, None) == map[];
    FirstRowsAreFresh(p.blocks);
    FreshRowsInsert(map[], p.blocks);
    RowsReadBack(InsertBlocks(map[], p.blocks).value, p.blocks);
    LogsAreInRange(contract, p);
    EmptyMapsAreClean();
    EventsWriteSucceeds(map[], p.logs, p.blocks[0].number, p.tip.number, 0);
    WriteSucceeds(EMPTY, p, plan);
  }

  /** An empty index takes a prepared batch exactly when no block hash is in it twice. */
  lemma FirstCommitSucceedsIff(contract: Address, p: Prepared)
    requires PreparedOk(contract, p)
    ensures Commit(EMPTY, p).Success? <==>
      forall i, j :: 0 <= i < j < |p.blocks| ==> p.blocks[i].hash != p.blocks[j].hash
  {
    hide Commit, DistinctKeys, EventsInBlocks, KeyedEvents, Linked;
    if Commit(EMPTY, p).Success? {
      FirstCommitIsValid(contract, p);
      TipOfChain(p.blocks);
      FirstBlocksAreStored(contract, p);
      var r := Commit(EMPTY, p).value.tables;
      forall i, j | 0 <= i < j < |p.blocks|
        ensures p.blocks[i].hash != p.blocks[j].hash
      {
        assert r.blocks[p.blocks[0].number + i] == p.blocks[i] && r.blocks[p.blocks[0].number + j] == p.blocks[j];
      }
    } else if forall i, j :: 0 <= i < j < |p.blocks| ==> p.blocks[i].hash != p.blocks[j].hash {
      FirstCommitSucceeds(contract, p);
    }
  }

  lemma FirstBlocksAreStored(contract: Address, p: Prepared)
    requires PreparedOk(contract, p) && Commit(EMPTY, p).Success?
    ensures var r := Commit(EMPTY, p).value.tables;
      forall i :: 0 <= i < |p.blocks| ==>
        p.blocks[0].number + i in r.blocks && r.blocks[p.blocks[0].number + i] == p.blocks[i]
  {
    hide DistinctKeys, EventsInBlocks, KeyedEvents, Linked, UniqueHashes;
    FirstCommitIsValid(contract, p);
    TipOfChain(p.blocks);
    var r := Commit(EMPTY, p).value.tables;
    forall i | 0 <= i < |p.blocks|
      ensures p.blocks[0].number + i in r.blocks && r.blocks[p.blocks[0].number + i] == p.blocks[i]
    {
      var n := p.blocks[0].number + i;
      var j :| 0 <= j < |p.blocks| && p.blocks[j] == r.blocks[n];
    }
  }
}

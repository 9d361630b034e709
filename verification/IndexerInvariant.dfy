/**
 What every reachable state of the index keeps, whatever batches callers supply
 (server/chain-indexer-store.js:173-329).
 */
module IndexerInvariant {
  import opened Wrappers
  import opened Sorting
  import opened ChainTypes
  import opened IndexerCore
  import opened IndexerStore
  import opened FinalizedIndex

  // ---------------------------------------------------------------- lists of blocks

  /** One contiguous hash-linked run of blocks. */
  ghost predicate ChainOf(s: seq<Block>) {
    && (forall i :: 0 <= i < |s| ==> s[i].number == s[0].number + i)
    && (forall i, j :: 0 <= i < |s| && 0 <= j < |s| && j == i + 1 ==> s[j].parent == s[i].hash)
  }

  lemma {:induction false} NoBatchFault(s: seq<Block>)
    ensures BatchFault(s).None? <==> ChainOf(s)
  {
    if |s| >= 2 {
      var n := |s| - 1;
      NoBatchFault(s[..n]);
      assert forall i :: 0 <= i < n ==> s[..n][i] == s[i];
      assert ChainOf(s) ==> s[n].number == s[0].number + n && s[n - 1].number == s[0].number + (n - 1);
      assert ChainOf(s[..n]) ==> s[..n][n - 1].number == s[..n][0].number + (n - 1);
    }
  }

  /** What the checks before the transaction establish. */
  ghost predicate PreparedOk(contract: Address, p: Prepared) {
    && p.blocks != [] && ChainOf(p.blocks)
    && p.tip == Checkpoint(p.blocks[|p.blocks| - 1].number, p.blocks[|p.blocks| - 1].hash)
    && (forall b :: b in p.blocks ==> BlockInRange(b))
    && (forall log :: log in p.logs ==>
          InRange(log) && log.address == contract && Supplied(p.blocks, log.blockNumber, log.blockHash))
    && DistinctKeys(p.logs)
  }

  lemma PrepareChecks(contract: Address, batch: Batch)
    requires Prepare(contract, batch).Success?
    ensures PreparedOk(contract, Prepare(contract, batch).value)
    ensures forall b :: b in Prepare(contract, batch).value.blocks <==> b in batch.blocks
    ensures forall log :: log in Prepare(contract, batch).value.logs <==> log in batch.logs
  {
    var p := Prepare(contract, batch).value;
    assert WeakOrder(LowerBlock);
    SortSorts(batch.blocks, LowerBlock);
    NoBatchFault(p.blocks);
    CanonicalLogsShape(batch.logs);
    AllOfContract(contract, p.blocks, p.logs);
    PreparedKeysAreDistinct(contract, batch);
  }

  lemma {:induction false} RowsMembers(blocks: map<nat, Block>, lo: nat, hi: int)
    ensures forall b :: b in Rows(blocks, lo, hi) <==> exists n :: n in blocks && lo <= n <= hi && blocks[n] == b
    decreases hi + 1 - lo
  {
    if lo <= hi {
      RowsMembers(blocks, lo, hi - 1);
    }
  }

  /** Reading a range that is fully stored returns it block by block. */
  lemma {:induction false} RowsDense(blocks: map<nat, Block>, lo: nat, hi: int)
    requires lo <= hi + 1 && forall n :: lo <= n <= hi ==> n in blocks
    ensures |Rows(blocks, lo, hi)| == hi + 1 - lo
    ensures forall i :: 0 <= i < hi + 1 - lo ==> Rows(blocks, lo, hi)[i] == blocks[lo + i]
    decreases hi + 1 - lo
  {
    if lo <= hi {
      RowsDense(blocks, lo, hi - 1);
    }
  }

  /** Heights below the first stored block contribute no rows. */
  lemma {:induction false} RowsSkip(blocks: map<nat, Block>, lo: nat, first: nat, hi: int)
    requires lo <= first && forall n :: n in blocks ==> first <= n
    ensures Rows(blocks, lo, hi) == Rows(blocks, first, hi)
    decreases hi + 1 - lo
  {
    if lo <= hi {
      RowsSkip(blocks, lo, first, hi - 1);
    }
  }

  /** If a re-read returns a contiguous run, those blocks are what is stored there, and all of it. */
  lemma RowsMatch(blocks: map<nat, Block>, s: seq<Block>)
    requires s != [] && ChainOf(s)
    requires forall n :: n in blocks ==> blocks[n].number == n
    requires Rows(blocks, s[0].number, s[|s| - 1].number) == s
    ensures forall n :: s[0].number <= n < s[0].number + |s| ==> n in blocks && blocks[n] == s[n - s[0].number]
    ensures s[|s| - 1].number == s[0].number + |s| - 1
  {
    RowsMembers(blocks, s[0].number, s[|s| - 1].number);
    forall n | s[0].number <= n < s[0].number + |s|
      ensures n in blocks && blocks[n] == s[n - s[0].number]
    {
      var i := n - s[0].number;
      assert s[i] in Rows(blocks, s[0].number, s[|s| - 1].number);
      assert s[i].number == n;
    }
  }

  // ---------------------------------------------------------------- the invariant

  ghost predicate Spans(blocks: map<nat, Block>, lo: nat, hi: nat) {
    forall n :: n in blocks <==> lo <= n <= hi
  }

  ghost predicate WellNumbered(blocks: map<nat, Block>) {
    forall n :: n in blocks ==> blocks[n].number == n && BlockInRange(blocks[n])
  }

  ghost predicate Linked(blocks: map<nat, Block>) {
    forall m, n :: m in blocks && n in blocks && n == m + 1 ==> blocks[n].parent == blocks[m].hash
  }

  ghost predicate UniqueHashes(blocks: map<nat, Block>) {
    forall m, n :: m in blocks && n in blocks && blocks[m].hash == blocks[n].hash ==> m == n
  }

  /** `log` is an event of a stored block. */
  ghost predicate OfBlock(blocks: map<nat, Block>, log: Log) {
    log.blockNumber in blocks && blocks[log.blockNumber].hash == log.blockHash
  }

  ghost predicate EventsInBlocks(contract: Address, blocks: map<nat, Block>, events: map<EventKey, Log>) {
    forall k :: k in events ==> events[k].address == contract && InRange(events[k]) && OfBlock(blocks, events[k])
  }

  /**
   The index from height `lo`: blocks contiguous from `lo` to the checkpoint, hash-linked, with no hash
   twice; every event under its key, of this contract and of a stored block. An empty index has nothing.
   */
  ghost predicate ValidIndex(contract: Address, t: Tables, lo: nat) {
    match t.checkpoint
    case None => t.blocks == map[] && t.events == map[]
    case Some(c) =>
      && lo <= c.number && Spans(t.blocks, lo, c.number) && t.blocks[c.number].hash == c.hash
      && WellNumbered(t.blocks) && Linked(t.blocks) && UniqueHashes(t.blocks)
      && KeyedEvents(t.events) && EventsInBlocks(contract, t.blocks, t.events)
  }

  // ---------------------------------------------------------------- planning on a valid index

  /** The stored rows the planner sees. */
  function Tail(t: Tables, p: Prepared): seq<Block>
    requires t.checkpoint.Some?
  {
    Rows(t.blocks, LowerBound(t.checkpoint.value.number, p.maxDepth), t.checkpoint.value.number)
  }

  lemma {:induction false} ResupplyMembers(blocks: seq<Block>, headers: seq<Header>)
    ensures Resupply(blocks, headers).Success? ==>
      var r := Resupply(blocks, headers).value;
      && |r| == |headers|
      && forall i :: 0 <= i < |r| ==> r[i] in blocks && r[i].number == headers[i].number && r[i].hash == headers[i].hash
  {
    if headers != [] {
      ResupplyMembers(blocks, headers[..|headers| - 1]);
      FindMember(blocks, headers[|headers| - 1]);
    }
  }

  lemma {:induction false} FindMember(blocks: seq<Block>, header: Header)
    ensures Find(blocks, header).Some? ==>
      Find(blocks, header).value in blocks &&
      Find(blocks, header).value.number == header.number && Find(blocks, header).value.hash == header.hash
    ensures Find(blocks, header).None? ==>
      forall b :: b in blocks ==> !(b.number == header.number && b.hash == header.hash)
  {
    if blocks != [] {
      FindMember(blocks[..|blocks| - 1], header);
      assert blocks == blocks[..|blocks| - 1] + [blocks[|blocks| - 1]];
    }
  }

  /** The common ancestor the planner finds. */
  function AncestorHeight(t: Tables, p: Prepared): nat
    requires t.checkpoint.Some? && PlanTail(t.checkpoint.value, Tail(t, p), p).Success?
  {
    PlanTail(t.checkpoint.value, Tail(t, p), p).value.ancestor.number
  }

  /** An observed block equals the stored block at height `a`, or names it as its parent. */
  ghost predicate VouchedFor(blocks: map<nat, Block>, observed: seq<Block>, a: nat)
    requires a in blocks
  {
    exists i :: 0 <= i < |observed| && Names(observed[i].ToHeader(), a, blocks[a].hash)
  }

  /** What a successful plan means on a valid index. */
  ghost predicate PlanMeaning(t: Tables, p: Prepared, plan: StorePlan, a: nat) {
    && t.checkpoint.Some? && a in t.blocks
    && LowerBound(t.checkpoint.value.number, p.maxDepth) <= a <= t.checkpoint.value.number <= p.tip.number
    && plan.depth == t.checkpoint.value.number - a
    && plan.deleteFrom == (if plan.depth == 0 then None else Some(a + 1))
    && VouchedFor(t.blocks, p.blocks, a)
    && (forall n :: n in t.blocks && a < n ==> !VouchedFor(t.blocks, p.blocks, n))
    && (forall b :: b in plan.replay ==> b in p.blocks && b.number > a)
  }

  lemma HeadersHold(blocks: map<nat, Block>, lo: nat, hi: nat, n: nat, h: Hash)
    requires WellNumbered(blocks)
    ensures Holds(Headers(Rows(blocks, lo, hi)), n, h) <==> lo <= n <= hi && n in blocks && blocks[n].hash == h
  {
    var rows := Rows(blocks, lo, hi);
    RowsMembers(blocks, lo, hi);
    if Holds(Headers(rows), n, h) {
      var x :| x in Headers(rows) && x.number == n && x.hash == h;
      var i :| 0 <= i < |rows| && Headers(rows)[i] == x;
      assert rows[i] in rows;
    }
    if lo <= n <= hi && n in blocks && blocks[n].hash == h {
      assert blocks[n] in rows;
      var i :| 0 <= i < |rows| && rows[i] == blocks[n];
      assert Headers(rows)[i] in Headers(rows);
    }
  }

  lemma HeadersNamed(s: seq<Block>, n: nat, h: Hash)
    ensures Named(Headers(s), n, h) <==> exists i :: 0 <= i < |s| && Names(s[i].ToHeader(), n, h)
  {
    var hs := Headers(s);
    if Named(hs, n, h) {
      var o :| o in hs && Names(o, n, h);
      var i :| 0 <= i < |hs| && hs[i] == o;
      assert Names(s[i].ToHeader(), n, h);
    }
    if i :| 0 <= i < |s| && Names(s[i].ToHeader(), n, h) {
      assert hs[i] in hs;
    }
  }

  lemma TailPlanSplices(current: Checkpoint, rows: seq<Block>, p: Prepared)
    requires PlanTail(current, rows, p).Success?
    ensures rows != []
    ensures PlanSplices(PlanTail(current, rows, p).value,
                        Header(current.number, current.hash, rows[|rows| - 1].parent),
                        Headers(rows), Headers(p.blocks), p.maxDepth)
  {
    PlanIsMinimalAndSplices(Header(current.number, current.hash, rows[|rows| - 1].parent),
                            Headers(rows), Headers(p.blocks), p.maxDepth);
  }

  lemma NoHigherVoucher(blocks: map<nat, Block>, lower: nat, hi: nat, observed: seq<Block>, a: nat, hash: Hash)
    requires WellNumbered(blocks) && forall n :: n in blocks ==> n <= hi
    requires IsHighestAncestor(Headers(Rows(blocks, lower, hi)), Headers(observed), a, hash)
    ensures a in blocks && lower <= a <= hi && blocks[a].hash == hash && VouchedFor(blocks, observed, a)
    ensures forall n :: n in blocks && a < n ==> !VouchedFor(blocks, observed, n)
  {
    HeadersHold(blocks, lower, hi, a, hash);
    HeadersNamed(observed, a, hash);
    forall n | n in blocks && a < n
      ensures !VouchedFor(blocks, observed, n)
    {
      HeadersHold(blocks, lower, hi, n, blocks[n].hash);
      HeadersNamed(observed, n, blocks[n].hash);
    }
  }

  lemma AncestorMeans(blocks: map<nat, Block>, lower: nat, current: Checkpoint, p: Prepared, plan: Plan)
    requires WellNumbered(blocks) && forall n :: n in blocks ==> n <= current.number
    requires PlanTail(current, Rows(blocks, lower, current.number), p) == Success(plan)
    ensures var a := plan.ancestor.number;
      && a in blocks && lower <= a <= current.number && blocks[a].hash == plan.ancestor.hash
      && plan.rollbackDepth == current.number - a
      && plan.deleteFrom == (if plan.rollbackDepth == 0 then None else Some(a + 1))
      && VouchedFor(blocks, p.blocks, a)
      && (forall n :: n in blocks && a < n ==> !VouchedFor(blocks, p.blocks, n))
      && (forall o :: o in plan.replay ==> o.number > a)
  {
    hide PlanTail, Named, Holds;
    TailPlanSplices(current, Rows(blocks, lower, current.number), p);
    NoHigherVoucher(blocks, lower, current.number, p.blocks, plan.ancestor.number, plan.ancestor.hash);
  }

  lemma PlanMeans(contract: Address, t: Tables, lo: nat, p: Prepared)
    requires ValidIndex(contract, t, lo) && t.checkpoint.Some?
    requires PlanStore(t, p).Success?
    ensures PlanTail(t.checkpoint.value, Tail(t, p), p).Success?
    ensures PlanMeaning(t, p, PlanStore(t, p).value, AncestorHeight(t, p))
  {
    var current := t.checkpoint.value;
    var plan := PlanTail(current, Tail(t, p), p).value;
    AncestorMeans(t.blocks, LowerBound(current.number, p.maxDepth), current, p, plan);
    ReplayComesFromBatch(p.blocks, plan, PlanStore(t, p).value.replay);
  }

  lemma ReplayComesFromBatch(blocks: seq<Block>, plan: Plan, replay: seq<Block>)
    requires Resupply(blocks, plan.replay) == Success(replay)
    requires forall o :: o in plan.replay ==> o.number > plan.ancestor.number
    ensures forall b :: b in replay ==> b in blocks && b.number > plan.ancestor.number
  {
    ResupplyMembers(blocks, plan.replay);
    forall b | b in replay
      ensures b in blocks && b.number > plan.ancestor.number
    {
      var i :| 0 <= i < |replay| && replay[i] == b;
      assert plan.replay[i] in plan.replay;
    }
  }

  // ---------------------------------------------------------------- writing

  /** Inserting keeps what was there, adds nothing but the rows, and never repeats a hash. */
  lemma {:induction false} InsertBlocksMeans(blocks: map<nat, Block>, rows: seq<Block>)
    requires InsertBlocks(blocks, rows).Some?
    ensures var r := InsertBlocks(blocks, rows).value;
      && (forall n :: n in blocks ==> n in r && r[n] == blocks[n])
      && (forall n :: n in r && n !in blocks ==> r[n] in rows && r[n].number == n)
      && (UniqueHashes(blocks) ==> UniqueHashes(r))
  {
    if rows != [] {
      var n := |rows| - 1;
      InsertBlocksMeans(blocks, rows[..n]);
      assert rows == rows[..n] + [rows[n]];
    }
  }

  /** Inserting keeps the events that were there and adds nothing but the logs, each key once. */
  lemma {:induction false} InsertEventsMeans(events: map<EventKey, Log>, logs: seq<Log>)
    ensures var r := InsertEvents(events, logs);
      && (forall k :: k in events ==> k in r && r[k] == events[k])
      && (forall k :: k in r && k !in events ==> r[k] in logs && KeyOf(r[k]) == k)
      && (forall log :: log in logs ==> KeyOf(log) in r)
  {
    if logs != [] {
      var n := |logs| - 1;
      InsertEventsMeans(events, logs[..n]);
      assert logs == logs[..n] + [logs[n]];
    }
  }

  /** The stored blocks up to the ancestor and the supplied blocks, which agree where they meet. */
  ghost predicate BlocksSpliced(t: Tables, p: Prepared, r: Tables, a: nat)
    requires p.blocks != []
  {
    var first := p.blocks[0].number;
    var tip := first + |p.blocks| - 1;
    && (forall n :: n in r.blocks <==> (n in t.blocks && n <= a) || first <= n <= tip)
    && (forall n :: n in r.blocks ==> n in t.blocks || n > a)
    && (forall n :: n in t.blocks && n <= a ==> r.blocks[n] == t.blocks[n])
    && (forall n :: first <= n <= tip ==> r.blocks[n] == p.blocks[n - first])
  }

  /** The events of the kept blocks, and in the batch's heights exactly its logs. */
  ghost predicate EventsSpliced(t: Tables, p: Prepared, r: Tables, a: nat)
    requires p.blocks != []
  {
    var first := p.blocks[0].number;
    var tip := first + |p.blocks| - 1;
    && (forall k :: k in r.events && !(first <= r.events[k].blockNumber <= tip) ==>
          k in t.events && r.events[k] == t.events[k] && t.events[k].blockNumber <= a)
    && (forall k :: k in t.events && t.events[k].blockNumber <= a ==> k in r.events && r.events[k] == t.events[k])
    && (forall log :: log in p.logs <==>
          (KeyOf(log) in r.events && r.events[KeyOf(log)] == log && first <= log.blockNumber <= tip))
  }

  /** What the tables hold after a commit on top of the block at height `a`. */
  ghost predicate CommitMeaning(t: Tables, p: Prepared, r: Tables, a: nat)
    requires p.blocks != []
  {
    && p.tip.number == p.blocks[0].number + |p.blocks| - 1
    && r.checkpoint == Some(p.tip)
    && p.blocks[0].number <= a + 1 && a <= p.tip.number
    && BlocksSpliced(t, p, r, a) && EventsSpliced(t, p, r, a)
  }

  lemma AncestorMeetsBatch(t: Tables, p: Prepared, a: nat)
    requires p.blocks != [] && ChainOf(p.blocks) && a in t.blocks && VouchedFor(t.blocks, p.blocks, a)
    ensures p.blocks[0].number <= a + 1
    ensures p.blocks[0].number == a + 1 ==> p.blocks[0].parent == t.blocks[a].hash
  {
    var i :| 0 <= i < |p.blocks| && Names(p.blocks[i].ToHeader(), a, t.blocks[a].hash);
    assert i > 0 ==> p.blocks[i].number == p.blocks[0].number + i;
  }

  lemma TipOfChain(s: seq<Block>)
    requires s != [] && ChainOf(s)
    ensures s[|s| - 1].number == s[0].number + |s| - 1
    ensures forall i :: 0 <= i < |s| ==> s[i].number == s[0].number + i
  {
  }

  lemma InsertedBlocks(kept: map<nat, Block>, replay: seq<Block>, r: map<nat, Block>, s: seq<Block>, a: nat)
    requires InsertBlocks(kept, replay) == Some(r)
    requires forall n :: n in kept ==> kept[n].number == n
    requires s != [] && ChainOf(s) && forall b :: b in replay ==> b in s && b.number > a
    requires Rows(r, s[0].number, s[|s| - 1].number) == s
    ensures forall n :: n in kept ==> n in r && r[n] == kept[n]
    ensures forall n :: n in r <==> n in kept || s[0].number <= n < s[0].number + |s|
    ensures forall n :: n in r ==> n in kept || n > a
    ensures forall n :: s[0].number <= n < s[0].number + |s| ==> r[n] == s[n - s[0].number]
    ensures UniqueHashes(kept) ==> UniqueHashes(r)
  {
    InsertBlocksMeans(kept, replay);
    RowsMatch(r, s);
    forall n | n in r && n !in kept
      ensures s[0].number <= n < s[0].number + |s|
    {
      var i :| 0 <= i < |s| && s[i] == r[n];
      assert i > 0 ==> s[i].number == s[0].number + i;
    }
  }

  /** The rows a plan keeps are those up to the ancestor. */
  lemma KeptBlocks(blocks: map<nat, Block>, deleteFrom: Option<nat>, a: nat)
    requires forall n :: n in blocks ==> (n <= a <==> deleteFrom.None? || n < deleteFrom.value)
    requires UniqueHashes(blocks) && WellNumbered(blocks)
    ensures var kept := BlocksBelow(blocks, deleteFrom);
      && (forall n :: n in kept <==> n in blocks && n <= a)
      && (forall n :: n in kept ==> kept[n] == blocks[n])
      && UniqueHashes(kept) && WellNumbered(kept)
  {
  }

  lemma WriteMeansBlocks(t: Tables, p: Prepared, plan: StorePlan, a: nat, kept: map<nat, Block>)
    requires p.blocks != [] && ChainOf(p.blocks) && p.tip.number == p.blocks[|p.blocks| - 1].number
    requires kept == BlocksBelow(t.blocks, plan.deleteFrom) && UniqueHashes(kept) && WellNumbered(kept)
    requires forall n :: n in kept <==> n in t.blocks && n <= a
    requires forall n :: n in kept ==> kept[n] == t.blocks[n]
    requires forall b :: b in plan.replay ==> b in p.blocks && b.number > a
    requires Write(t, p, plan).Success?
    ensures BlocksSpliced(t, p, Write(t, p, plan).value, a) && UniqueHashes(Write(t, p, plan).value.blocks)
  {
    hide InsertBlocks, InsertEvents, Rows, EventsBetween, ChainOf, UniqueHashes;
    InsertedBlocks(kept, plan.replay, Write(t, p, plan).value.blocks, p.blocks, a);
  }

  lemma WriteMeansEvents(contract: Address, t: Tables, lo: nat, p: Prepared, plan: StorePlan, a: nat)
    requires ValidIndex(contract, t, lo) && PreparedOk(contract, p) && PlanMeaning(t, p, plan, a)
    requires Write(t, p, plan).Success?
    ensures EventsSpliced(t, p, Write(t, p, plan).value, a) && KeyedEvents(Write(t, p, plan).value.events)
  {
    var kept := EventsBelow(t.events, plan.deleteFrom);
    var first := p.blocks[0].number;
    var tip := first + |p.blocks| - 1;
    var r := Write(t, p, plan).value;
    assert forall k :: k in kept <==> k in t.events && t.events[k].blockNumber <= a;
    InsertEventsMeans(kept, p.logs);
    InsertKeepsKeys(kept, p.logs);
    assert EventsBetween(r.events, first, tip) == Elements(p.logs);
    TipOfChain(p.blocks);
    forall log
      ensures log in p.logs <==>
        (KeyOf(log) in r.events && r.events[KeyOf(log)] == log && first <= log.blockNumber <= tip)
    {
      assert log in p.logs <==> log in Elements(p.logs);
      assert log in Elements(p.logs) <==> log in EventsBetween(r.events, first, tip);
    }
    assert forall k :: k in r.events && k !in kept ==> r.events[k] in p.logs;
  }

  lemma WriteMovesCheckpoint(t: Tables, p: Prepared, plan: StorePlan)
    requires p.blocks != [] && Write(t, p, plan).Success?
    ensures Write(t, p, plan).value.checkpoint == Some(p.tip)
  {
  }

  lemma CommitMeans(contract: Address, t: Tables, lo: nat, p: Prepared)
    requires ValidIndex(contract, t, lo) && t.checkpoint.Some? && PreparedOk(contract, p)
    requires Commit(t, p).Success?
    ensures PlanTail(t.checkpoint.value, Tail(t, p), p).Success?
    ensures PlanMeaning(t, p, PlanStore(t, p).value, AncestorHeight(t, p))
    ensures CommitMeaning(t, p, Commit(t, p).value.tables, AncestorHeight(t, p))
    ensures KeyedEvents(Commit(t, p).value.tables.events) && UniqueHashes(Commit(t, p).value.tables.blocks)
    ensures Commit(t, p).value.depth == t.checkpoint.value.number - AncestorHeight(t, p)
  {
    hide PlanTail, PlanStore, Write, Rows, VouchedFor, EventsInBlocks, Linked, DistinctKeys, KeyedEvents,
      BlocksSpliced, EventsSpliced,
      BlocksBelow;
    PlanMeans(contract, t, lo, p);
    var a := AncestorHeight(t, p);
    AncestorMeetsBatch(t, p, a);
    TipOfChain(p.blocks);
    WriteMovesCheckpoint(t, p, PlanStore(t, p).value);
    KeptBlocks(t.blocks, PlanStore(t, p).value.deleteFrom, a);
    WriteMeansBlocks(t, p, PlanStore(t, p).value, a, BlocksBelow(t.blocks, PlanStore(t, p).value.deleteFrom));
    WriteMeansEvents(contract, t, lo, p, PlanStore(t, p).value, a);
  }

  // ---------------------------------------------------------------- one call

  lemma SplicedBlocksAreValid(t: Tables, lo: nat, p: Prepared, r: Tables, a: nat)
    requires t.checkpoint.Some? && p.blocks != [] && ChainOf(p.blocks)
    requires Spans(t.blocks, lo, t.checkpoint.value.number) && WellNumbered(t.blocks) && Linked(t.blocks)
    requires forall b :: b in p.blocks ==> BlockInRange(b)
    requires a in t.blocks && VouchedFor(t.blocks, p.blocks, a)
    requires CommitMeaning(t, p, r, a)
    ensures lo <= p.blocks[0].number <= p.tip.number
    ensures Spans(r.blocks, lo, p.tip.number) && WellNumbered(r.blocks) && Linked(r.blocks)
  {
    var first := p.blocks[0].number;
    TipOfChain(p.blocks);
    AncestorMeetsBatch(t, p, a);
    assert first in r.blocks;
    forall m, n | m in r.blocks && n in r.blocks && n == m + 1
      ensures r.blocks[n].parent == r.blocks[m].hash
    {
      if first <= m {
        assert p.blocks[n - first].parent == p.blocks[m - first].hash;
      }
    }
  }

  lemma SplicedEventsAreValid(contract: Address, t: Tables, p: Prepared, r: Tables, a: nat)
    requires t.checkpoint.Some? && PreparedOk(contract, p)
    requires WellNumbered(t.blocks) && EventsInBlocks(contract, t.blocks, t.events)
    requires CommitMeaning(t, p, r, a) && KeyedEvents(r.events)
    ensures EventsInBlocks(contract, r.blocks, r.events)
  {
    var first := p.blocks[0].number;
    TipOfChain(p.blocks);
    forall k | k in r.events
      ensures r.events[k].address == contract && InRange(r.events[k]) && OfBlock(r.blocks, r.events[k])
    {
      var log := r.events[k];
      if first <= log.blockNumber <= p.tip.number {
        assert log in p.logs;
        var b :| b in p.blocks && b.number == log.blockNumber && b.hash == log.blockHash;
        var i :| 0 <= i < |p.blocks| && p.blocks[i] == b;
      }
    }
  }

  /** A later batch: the start height stays, the checkpoint does not fall, and the index stays valid. */
  lemma CommitKeepsValid(contract: Address, t: Tables, lo: nat, p: Prepared)
    requires ValidIndex(contract, t, lo) && t.checkpoint.Some? && PreparedOk(contract, p)
    requires Commit(t, p).Success?
    ensures var r := Commit(t, p).value.tables;
      ValidIndex(contract, r, lo) && r.checkpoint == Some(p.tip) && t.checkpoint.value.number <= p.tip.number
    ensures lo <= p.blocks[0].number
  {
    hide PlanStore, PlanTail, Write, AncestorHeight;
    CommitMeans(contract, t, lo, p);
    var r := Commit(t, p).value.tables;
    var a := AncestorHeight(t, p);
    TipOfChain(p.blocks);
    SplicedBlocksAreValid(t, lo, p, r, a);
    SplicedEventsAreValid(contract, t, p, r, a);
  }

  lemma {:induction false} InsertIntoEmpty(logs: seq<Log>)
    requires DistinctKeys(logs)
    ensures forall log :: log in logs <==>
      KeyOf(log) in InsertEvents(map[], logs) && InsertEvents(map[], logs)[KeyOf(log)] == log
  {
    var r := InsertEvents(map[], logs);
    InsertEventsMeans(map[], logs);
    forall log | log in logs
      ensures r[KeyOf(log)] == log
    {
      assert r[KeyOf(log)] in logs;
      var i :| 0 <= i < |logs| && logs[i] == log;
      var j :| 0 <= j < |logs| && logs[j] == r[KeyOf(log)];
    }
  }

  /** The first batch fixes the start height. */
  lemma FirstCommitIsValid(contract: Address, p: Prepared)
    requires PreparedOk(contract, p) && Commit(EMPTY, p).Success?
    ensures var r := Commit(EMPTY, p).value.tables;
      && ValidIndex(contract, r, p.blocks[0].number) && r.checkpoint == Some(p.tip)
      && (forall n :: n in r.blocks ==> r.blocks[n] in p.blocks)
      && (forall log :: log in p.logs <==> KeyOf(log) in r.events && r.events[KeyOf(log)] == log)
  {
    hide InsertBlocks, InsertEvents, Rows, EventsBetween, ChainOf, UniqueHashes, KeyedEvents;
    var r := Commit(EMPTY, p).value.tables;
    assert BlocksBelow(EMPTY.blocks, None) == map[] && EventsBelow(EMPTY.events, None) == map[];
    TipOfChain(p.blocks);
    InsertBlocksMeans(map[], p.blocks);
    EmptyMapsAreClean();
    RowsMatch(r.blocks, p.blocks);
    InsertIntoEmpty(p.logs);
    InsertEventsMeans(map[], p.logs);
    InsertKeepsKeys(map[], p.logs);
    FirstBlocksAreValid(r.blocks, p.blocks);
    FirstEventsAreValid(contract, p, r);
  }

  lemma EmptyMapsAreClean()
    ensures UniqueHashes(map[])
    ensures KeyedEvents(map[])
  {
  }

  lemma FirstBlocksAreValid(blocks: map<nat, Block>, s: seq<Block>)
    requires s != [] && ChainOf(s) && forall b :: b in s ==> BlockInRange(b)
    requires forall n :: n in blocks ==> blocks[n] in s && blocks[n].number == n
    requires forall n :: s[0].number <= n < s[0].number + |s| ==> n in blocks && blocks[n] == s[n - s[0].number]
    ensures Spans(blocks, s[0].number, s[|s| - 1].number) && WellNumbered(blocks) && Linked(blocks)
  {
    TipOfChain(s);
    forall n | n in blocks
      ensures s[0].number <= n < s[0].number + |s|
    {
      var i :| 0 <= i < |s| && s[i] == blocks[n];
    }
  }

  lemma FirstEventsAreValid(contract: Address, p: Prepared, r: Tables)
    requires PreparedOk(contract, p)
    requires forall n :: p.blocks[0].number <= n < p.blocks[0].number + |p.blocks| ==>
      n in r.blocks && r.blocks[n] == p.blocks[n - p.blocks[0].number]
    requires forall k :: k in r.events ==> r.events[k] in p.logs
    ensures EventsInBlocks(contract, r.blocks, r.events)
  {
    TipOfChain(p.blocks);
    forall k | k in r.events
      ensures OfBlock(r.blocks, r.events[k])
    {
      var log := r.events[k];
      var b :| b in p.blocks && b.number == log.blockNumber && b.hash == log.blockHash;
      var i :| 0 <= i < |p.blocks| && p.blocks[i] == b;
    }
  }

  // ---------------------------------------------------------------- whole runs

  /** The tables after a call: a failed call leaves them as they were. */
  function After(contract: Address, t: Tables, batch: Batch): Tables {
    var r := StoreTables(contract, t, batch);
    if r.Success? then r.value.tables else t
  }

  function Run(contract: Address, t: Tables, batches: seq<Batch>): Tables {
    if batches == [] then t
    else After(contract, Run(contract, t, batches[..|batches| - 1]), batches[|batches| - 1])
  }

  lemma StoreKeepsValid(contract: Address, t: Tables, lo: nat, batch: Batch)
    requires ValidIndex(contract, t, lo) && t.checkpoint.Some?
    ensures var r := After(contract, t, batch);
      ValidIndex(contract, r, lo) && r.checkpoint.Some? && t.checkpoint.value.number <= r.checkpoint.value.number
  {
    hide Prepare, Commit;
    if StoreTables(contract, t, batch).Success? {
      PrepareChecks(contract, batch);
      CommitKeepsValid(contract, t, lo, Prepare(contract, batch).value);
    }
  }

  /**
   From a valid index, any calls with any batches keep it valid from the same start height, and never
   move the checkpoint down.
   */
  lemma {:induction false} RunKeepsValid(contract: Address, t: Tables, lo: nat, batches: seq<Batch>)
    requires ValidIndex(contract, t, lo) && t.checkpoint.Some?
    ensures var r := Run(contract, t, batches);
      ValidIndex(contract, r, lo) && r.checkpoint.Some? && t.checkpoint.value.number <= r.checkpoint.value.number
  {
    hide After;
    if batches != [] {
      RunKeepsValid(contract, t, lo, batches[..|batches| - 1]);
      StoreKeepsValid(contract, Run(contract, t, batches[..|batches| - 1]), lo, batches[|batches| - 1]);
    }
  }

  lemma FirstStore(contract: Address, batch: Batch)
    ensures var first := After(contract, EMPTY, batch);
      first == EMPTY || exists lo :: ValidIndex(contract, first, lo) && first.checkpoint.Some?
  {
    hide Prepare, Commit;
    if StoreTables(contract, EMPTY, batch).Success? {
      PrepareChecks(contract, batch);
      FirstCommitIsValid(contract, Prepare(contract, batch).value);
    }
  }

  /** Every state an index can reach, from empty, with arbitrary batches. */
  lemma {:induction false} ReachableIsValid(contract: Address, batches: seq<Batch>)
    ensures exists lo :: ValidIndex(contract, Run(contract, EMPTY, batches), lo)
  {
    hide After;
    if batches == [] {
      assert ValidIndex(contract, Run(contract, EMPTY, batches), 0);
    } else {
      var front, last := batches[..|batches| - 1], batches[|batches| - 1];
      assert Run(contract, EMPTY, batches) == After(contract, Run(contract, EMPTY, front), last);
      ReachableIsValid(contract, front);
      var lo :| ValidIndex(contract, Run(contract, EMPTY, front), lo);
      if Run(contract, EMPTY, front).checkpoint.None? {
        FirstStore(contract, last);
        assert ValidIndex(contract, EMPTY, 0);
      } else {
        StoreKeepsValid(contract, Run(contract, EMPTY, front), lo, last);
        assert ValidIndex(contract, Run(contract, EMPTY, batches), lo);
      }
    }
  }
}

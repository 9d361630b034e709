/**
 The incremental index agrees with the simple thing it stands for: the parent-hash ancestry of its
 checkpoint and the logs of those blocks (server/chain-indexer-store.js:173-329).
 */
module IndexerRefinement {
  import opened Wrappers
  import opened ChainTypes
  import opened IndexerCore
  import opened IndexerStore
  import opened FinalizedIndex
  import opened IndexerInvariant
  import opened IndexerSuccess

  // ---------------------------------------------------------------- built from scratch

  /** Everything the index holds, as one batch. */
  function Contents(t: Tables, lo: nat, maxDepth: nat): Batch
    requires t.checkpoint.Some? && KeyedEvents(t.events) && t.checkpoint.value.number in t.blocks
  {
    var hi := t.checkpoint.value.number;
    Batch(Rows(t.blocks, lo, hi), EventRows(t.events, 0, MAX_BIGINT), t.blocks[hi].ToHeader(), maxDepth)
  }

  lemma ContentsAreWellFormed(contract: Address, t: Tables, lo: nat, maxDepth: nat)
    requires ValidIndex(contract, t, lo) && t.checkpoint.Some?
    ensures WellFormed(contract, Contents(t, lo, maxDepth))
    ensures var s := Contents(t, lo, maxDepth).blocks; |s| == t.checkpoint.value.number + 1 - lo
    ensures var s := Contents(t, lo, maxDepth).blocks; forall i :: 0 <= i < |s| ==> s[i] == t.blocks[lo + i]
    ensures forall log :: log in Contents(t, lo, maxDepth).logs <==>
      KeyOf(log) in t.events && t.events[KeyOf(log)] == log
  {
    var hi := t.checkpoint.value.number;
    var batch := Contents(t, lo, maxDepth);
    TailIsChain(t.blocks, lo, lo, hi);
    RowsDense(t.blocks, lo, hi);
    assert forall log :: log in batch.logs <==> log in Elements(batch.logs);
    assert forall log :: log in EventsBetween(t.events, 0, MAX_BIGINT) <==>
      KeyOf(log) in t.events && t.events[KeyOf(log)] == log;
    forall log | log in batch.logs
      ensures InRange(log) && log.address == contract && Supplied(batch.blocks, log.blockNumber, log.blockHash)
    {
      assert batch.blocks[log.blockNumber - lo] in batch.blocks;
    }
  }

  lemma SameBlocks(blocks: map<nat, Block>, other: map<nat, Block>, lo: nat, hi: nat, s: seq<Block>)
    requires Spans(blocks, lo, hi) && Spans(other, lo, hi)
    requires forall n :: n in blocks ==> blocks[n].number == n
    requires forall n :: n in other ==> other[n].number == n && other[n] in s
    requires |s| == hi + 1 - lo && forall i :: 0 <= i < |s| ==> s[i] == blocks[lo + i]
    ensures other == blocks
  {
    forall n | n in other
      ensures n in blocks && other[n] == blocks[n]
    {
      var i :| 0 <= i < |s| && s[i] == other[n];
    }
  }

  ghost predicate Recorded(t: Tables, log: Log) {
    KeyOf(log) in t.events && t.events[KeyOf(log)] == log
  }

  lemma SameEvents(t: Tables, r: Tables)
    requires KeyedEvents(t.events) && KeyedEvents(r.events)
    requires forall log :: Recorded(t, log) <==> Recorded(r, log)
    ensures t.events == r.events
  {
    assert forall k :: k in t.events ==> Recorded(t, t.events[k]);
    assert forall k :: k in r.events ==> Recorded(r, r.events[k]);
  }

  lemma OneHashOneHeight(blocks: map<nat, Block>, m: nat, n: nat)
    requires UniqueHashes(blocks) && m in blocks && n in blocks && m != n
    ensures blocks[m].hash != blocks[n].hash
  {
  }

  /**
   Round trip for any reachable index, honest callers or not: storing its contents as a single batch
   into an empty index succeeds and gives the index back.
   */
  lemma RebuildFromScratch(contract: Address, t: Tables, lo: nat, maxDepth: nat)
    requires ValidIndex(contract, t, lo) && t.checkpoint.Some?
    ensures StoreTables(contract, EMPTY, Contents(t, lo, maxDepth)) == Success(Stored(t, 0))
  {
    hide WellFormed, PreparedOk, Contents, Prepare, Commit, Linked, UniqueHashes, EventsInBlocks, WellNumbered;
    var batch := Contents(t, lo, maxDepth);
    ContentsAreWellFormed(contract, t, lo, maxDepth);
    WellFormedIsPrepared(contract, batch);
    var p := Prepare(contract, batch).value;
    forall i, j | 0 <= i < j < |p.blocks|
      ensures p.blocks[i].hash != p.blocks[j].hash
    {
      OneHashOneHeight(t.blocks, lo + i, lo + j);
    }
    FirstCommitSucceeds(contract, p);
    FirstCommitIsValid(contract, p);
    RebuiltIsSame(contract, t, lo, p);
  }

  lemma RebuiltIsSame(contract: Address, t: Tables, lo: nat, p: Prepared)
    requires ValidIndex(contract, t, lo) && t.checkpoint.Some? && PreparedOk(contract, p)
    requires |p.blocks| == t.checkpoint.value.number + 1 - lo
    requires forall i :: 0 <= i < |p.blocks| ==> p.blocks[i] == t.blocks[lo + i]
    requires forall log :: log in p.logs <==> KeyOf(log) in t.events && t.events[KeyOf(log)] == log
    requires Commit(EMPTY, p).Success?
    ensures Commit(EMPTY, p).value.tables == t
  {
    hide Commit, Linked, UniqueHashes, EventsInBlocks;
    FirstCommitIsValid(contract, p);
    assert p.blocks[0] == t.blocks[lo];
    assert p.blocks[|p.blocks| - 1] == t.blocks[t.checkpoint.value.number];
    var r := Commit(EMPTY, p).value.tables;
    SameBlocks(t.blocks, r.blocks, lo, t.checkpoint.value.number, p.blocks);
    assert forall log :: Recorded(t, log) <==> log in p.logs;
    assert forall log :: Recorded(r, log) <==> log in p.logs;
    SameEvents(t, r);
  }

  // ---------------------------------------------------------------- honest callers

  /** What a block hash stands for: its parent, its timestamp and the logs of its transactions. */
  datatype World = World(parent: Hash -> Hash, time: Hash -> nat, logs: Hash -> set<Log>)

  /** A log names the block it is in. */
  ghost predicate Coherent(w: World) {
    forall h, log :: log in w.logs(h) ==> log.blockHash == h
  }

  ghost predicate TrueBlock(w: World, b: Block) {
    b.parent == w.parent(b.hash) && b.time == w.time(b.hash)
  }

  /** The blocks are what their hashes stand for, and the logs are all the logs of those blocks. */
  ghost predicate Honest(w: World, batch: Batch) {
    && (forall b :: b in batch.blocks ==> TrueBlock(w, b))
    && (forall log :: log in batch.logs <==> LogOf(w, batch.blocks, log))
  }

  ghost predicate LogOf(w: World, blocks: seq<Block>, log: Log) {
    exists b :: b in blocks && log in w.logs(b.hash)
  }

  ghost predicate LogOfStored(w: World, blocks: map<nat, Block>, log: Log) {
    exists n :: n in blocks && log in w.logs(blocks[n].hash)
  }

  /** The stored blocks are what their hashes stand for, and the stored events are exactly their logs. */
  ghost predicate Exact(w: World, t: Tables) {
    && (forall n :: n in t.blocks ==> TrueBlock(w, t.blocks[n]))
    && (forall log :: Recorded(t, log) <==> LogOfStored(w, t.blocks, log))
  }

  lemma SplicedIsExact(w: World, contract: Address, t: Tables, lo: nat, p: Prepared, r: Tables, a: nat)
    requires Coherent(w) && ValidIndex(contract, t, lo) && t.checkpoint.Some? && Exact(w, t)
    requires PreparedOk(contract, p) && ValidIndex(contract, r, lo) && r.checkpoint == Some(p.tip)
    requires forall b :: b in p.blocks ==> TrueBlock(w, b)
    requires forall log :: log in p.logs <==> LogOf(w, p.blocks, log)
    requires CommitMeaning(t, p, r, a)
    ensures Exact(w, r)
  {
    var first := p.blocks[0].number;
    TipOfChain(p.blocks);
    forall log | Recorded(r, log)
      ensures LogOfStored(w, r.blocks, log)
    {
      RecordedIsOfBlock(w, contract, t, lo, p, r, a, log);
    }
    forall log | LogOfStored(w, r.blocks, log)
      ensures Recorded(r, log)
    {
      var n :| n in r.blocks && log in w.logs(r.blocks[n].hash);
      OfBlockIsRecorded(w, contract, t, lo, p, r, a, log, n);
    }
    forall n | n in r.blocks
      ensures TrueBlock(w, r.blocks[n])
    {
      if first <= n {
        assert p.blocks[n - first] in p.blocks;
      }
    }
  }

  lemma RecordedIsOfBlock(w: World, contract: Address, t: Tables, lo: nat, p: Prepared, r: Tables, a: nat, log: Log)
    requires Coherent(w) && ValidIndex(contract, t, lo) && t.checkpoint.Some? && Exact(w, t)
    requires PreparedOk(contract, p) && KeyedEvents(r.events)
    requires forall x :: x in p.logs <==> LogOf(w, p.blocks, x)
    requires CommitMeaning(t, p, r, a) && Recorded(r, log)
    ensures LogOfStored(w, r.blocks, log)
  {
    hide DistinctKeys, Linked, WellNumbered, TrueBlock, ChainOf;
    var first := p.blocks[0].number;
    TipOfChain(p.blocks);
    if first <= log.blockNumber <= p.tip.number {
      assert log in p.logs;
      var b :| b in p.blocks && log in w.logs(b.hash);
      var i :| 0 <= i < |p.blocks| && p.blocks[i] == b;
      assert r.blocks[first + i] == b;
    } else {
      assert Recorded(t, log);
      var n :| n in t.blocks && log in w.logs(t.blocks[n].hash);
      assert n == log.blockNumber;
      assert r.blocks[n] == t.blocks[n];
    }
  }

  lemma OfBlockIsRecorded(w: World, contract: Address, t: Tables, lo: nat, p: Prepared, r: Tables, a: nat, log: Log,
          n: nat)
    requires Coherent(w) && ValidIndex(contract, t, lo) && t.checkpoint.Some? && Exact(w, t)
    requires PreparedOk(contract, p)
    requires forall x :: x in p.logs <==> LogOf(w, p.blocks, x)
    requires CommitMeaning(t, p, r, a)
    requires n in r.blocks && log in w.logs(r.blocks[n].hash)
    ensures Recorded(r, log)
  {
    var first := p.blocks[0].number;
    TipOfChain(p.blocks);
    if first <= n {
      assert p.blocks[n - first] in p.blocks;
      assert LogOf(w, p.blocks, log);
    } else {
      assert LogOfStored(w, t.blocks, log);
      assert Recorded(t, log);
      assert log.blockNumber == n;
    }
  }

  lemma StoreKeepsExact(w: World, contract: Address, t: Tables, lo: nat, batch: Batch)
    requires Coherent(w) && Honest(w, batch)
    requires ValidIndex(contract, t, lo) && t.checkpoint.Some? && Exact(w, t)
    ensures Exact(w, After(contract, t, batch))
  {
    hide Prepare, Commit, CommitMeaning, PlanMeaning, ValidIndex, PreparedOk, Exact, Coherent, TrueBlock, PlanTail,
      AncestorHeight;
    if StoreTables(contract, t, batch).Success? {
      PrepareChecks(contract, batch);
      var p := Prepare(contract, batch).value;
      CommitMeans(contract, t, lo, p);
      CommitKeepsValid(contract, t, lo, p);
      assert forall log :: LogOf(w, p.blocks, log) <==> LogOf(w, batch.blocks, log);
      SplicedIsExact(w, contract, t, lo, p, Commit(t, p).value.tables, AncestorHeight(t, p));
    }
  }

  lemma FirstStoreIsExact(w: World, contract: Address, batch: Batch)
    requires Honest(w, batch) && StoreTables(contract, EMPTY, batch).Success?
    ensures var r := StoreTables(contract, EMPTY, batch).value.tables;
      Exact(w, r) && r.checkpoint.Some? && ValidIndex(contract, r, Prepare(contract, batch).value.blocks[0].number)
  {
    hide Prepare, Commit;
    PrepareChecks(contract, batch);
    var p := Prepare(contract, batch).value;
    FirstCommitIsValid(contract, p);
    var r := Commit(EMPTY, p).value.tables;
    assert forall log :: LogOf(w, p.blocks, log) <==> LogOf(w, batch.blocks, log);
    forall log
      ensures LogOfStored(w, r.blocks, log) <==> LogOf(w, p.blocks, log)
    {
      FirstStoredLogs(w, contract, p, r, log);
    }
  }

  lemma FirstStoredLogs(w: World, contract: Address, p: Prepared, r: Tables, log: Log)
    requires PreparedOk(contract, p) && ValidIndex(contract, r, p.blocks[0].number) && r.checkpoint == Some(p.tip)
    requires forall n :: n in r.blocks ==> r.blocks[n] in p.blocks
    ensures LogOfStored(w, r.blocks, log) <==> LogOf(w, p.blocks, log)
  {
    TipOfChain(p.blocks);
    if LogOf(w, p.blocks, log) {
      var b :| b in p.blocks && log in w.logs(b.hash);
      var i :| 0 <= i < |p.blocks| && p.blocks[i] == b;
      var n := p.blocks[0].number + i;
      var j :| 0 <= j < |p.blocks| && p.blocks[j] == r.blocks[n];
      assert r.blocks[n] == b;
    }
  }

  // ---------------------------------------------------------------- the ancestry of the checkpoint

  /** The chain a block hash stands for, from height `number` down to `lo`. */
  ghost function Ancestry(w: World, number: nat, hash: Hash, lo: nat): map<nat, Block>
    requires lo <= number
    decreases number
  {
    var b := Block(number, hash, w.parent(hash), w.time(hash));
    if number == lo then map[number := b] else Ancestry(w, number - 1, w.parent(hash), lo)[number := b]
  }

  lemma {:induction false} BlocksAreAncestry(w: World, blocks: map<nat, Block>, lo: nat, hi: nat)
    requires lo <= hi && Spans(blocks, lo, hi) && Linked(blocks)
    requires forall n :: n in blocks ==> blocks[n].number == n && TrueBlock(w, blocks[n])
    ensures blocks == Ancestry(w, hi, blocks[hi].hash, lo)
    decreases hi
  {
    if lo < hi {
      var front := map n | n in blocks && n != hi :: blocks[n];
      BlocksAreAncestry(w, front, lo, hi - 1);
      assert blocks[hi - 1].hash == w.parent(blocks[hi].hash);
      assert blocks == front[hi := blocks[hi]];
    } else {
      assert blocks == map[hi := blocks[hi]];
    }
  }

  /** Two exact indexes with one start and one checkpoint are the same: how they came about leaves no trace. */
  lemma HistoryLeavesNoTrace(w: World, contract: Address, t: Tables, r: Tables, lo: nat)
    requires ValidIndex(contract, t, lo) && ValidIndex(contract, r, lo) && t.checkpoint.Some?
    requires Exact(w, t) && Exact(w, r) && t.checkpoint == r.checkpoint
    ensures t == r
  {
    hide TrueBlock, UniqueHashes, EventsInBlocks, Ancestry;
    var hi := t.checkpoint.value.number;
    BlocksAreAncestry(w, t.blocks, lo, hi);
    BlocksAreAncestry(w, r.blocks, lo, hi);
    forall log
      ensures Recorded(t, log) <==> Recorded(r, log)
    {
      assert LogOfStored(w, t.blocks, log) <==> LogOfStored(w, r.blocks, log);
    }
    SameEvents(t, r);
  }

  ghost predicate AllHonest(w: World, batches: seq<Batch>) {
    forall batch :: batch in batches ==> Honest(w, batch)
  }

  lemma {:induction false} RunKeepsExact(w: World, contract: Address, t: Tables, lo: nat, batches: seq<Batch>)
    requires Coherent(w) && AllHonest(w, batches)
    requires ValidIndex(contract, t, lo) && t.checkpoint.Some? && Exact(w, t)
    ensures Exact(w, Run(contract, t, batches))
  {
    hide After, Honest, Exact, Coherent;
    if batches != [] {
      var front, last := batches[..|batches| - 1], batches[|batches| - 1];
      RunKeepsExact(w, contract, t, lo, front);
      RunKeepsValid(contract, t, lo, front);
      StoreKeepsExact(w, contract, Run(contract, t, front), lo, last);
      assert Run(contract, t, batches) == After(contract, Run(contract, t, front), last);
    }
  }

  /** Where the first stored batch begins. */
  function StartOf(contract: Address, first: Batch): nat
    requires Prepare(contract, first).Success?
  {
    PreparedIsNotEmpty(contract, first);
    Prepare(contract, first).value.blocks[0].number
  }

  /**
   After any sequence of calls from an empty index, with any reorganisations and failures among them,
   the stored blocks are exactly the ancestry of the checkpoint down to the first batch's first height,
   and the stored events are exactly the logs of those blocks.
   */
  lemma IndexIsItsAncestry(w: World, contract: Address, first: Batch, later: seq<Batch>)
    requires Coherent(w) && Honest(w, first) && AllHonest(w, later)
    requires StoreTables(contract, EMPTY, first).Success?
    ensures var t := Run(contract, After(contract, EMPTY, first), later); var lo := StartOf(contract, first);
      && t.checkpoint.Some? && lo <= t.checkpoint.value.number
      && t.blocks == Ancestry(w, t.checkpoint.value.number, t.checkpoint.value.hash, lo)
      && (forall log :: Recorded(t, log) <==>
            LogOfStored(w, Ancestry(w, t.checkpoint.value.number, t.checkpoint.value.hash, lo), log))
      && ValidIndex(contract, t, lo) && Exact(w, t)
  {
    hide Honest, Commit, Prepare, Coherent, Ancestry, EventsInBlocks, UniqueHashes;
    FirstStoreIsExact(w, contract, first);
    var t0, lo := After(contract, EMPTY, first), StartOf(contract, first);
    RunKeepsValid(contract, t0, lo, later);
    RunKeepsExact(w, contract, t0, lo, later);
    var t := Run(contract, t0, later);
    BlocksAreAncestry(w, t.blocks, lo, t.checkpoint.value.number);
  }

  /** The incremental index equals the one a single honest batch over the same heights builds from scratch. */
  lemma IncrementalEqualsScratch(w: World, contract: Address, first: Batch, later: seq<Batch>, scratch: Batch)
    requires Coherent(w) && Honest(w, first) && AllHonest(w, later) && Honest(w, scratch)
    requires StoreTables(contract, EMPTY, first).Success? && StoreTables(contract, EMPTY, scratch).Success?
    requires StartOf(contract, scratch) == StartOf(contract, first)
    requires var t := Run(contract, After(contract, EMPTY, first), later);
      t.checkpoint == After(contract, EMPTY, scratch).checkpoint
    ensures Run(contract, After(contract, EMPTY, first), later) == After(contract, EMPTY, scratch)
  {
    hide Honest, Commit, Prepare, Coherent, Exact, Ancestry, LogOfStored, Recorded;
    IndexIsItsAncestry(w, contract, first, later);
    FirstStoreIsExact(w, contract, scratch);
    HistoryLeavesNoTrace(w, contract, Run(contract, After(contract, EMPTY, first), later),
                         After(contract, EMPTY, scratch), StartOf(contract, first));
  }

  // ---------------------------------------------------------------- why honesty is assumed

  /**
   Without it a checkpoint does not fix the events: a batch with the stored tip and one log more is
   accepted, whatever the block and its log.
   */
  lemma SameTipMayGainLogs(contract: Address, b: Block, log: Log)
    requires BlockInRange(b) && InRange(log) && log.address == contract
    requires log.blockNumber == b.number && log.blockHash == b.hash
    ensures var t := Tables(Some(Checkpoint(b.number, b.hash)), map[b.number := b], map[]);
      var r := StoreTables(contract, t, Batch([b], [log], b.ToHeader(), 0));
      && ValidIndex(contract, t, b.number)
      && r.Success? && r.value.tables.checkpoint == t.checkpoint && Recorded(r.value.tables, log) && r.value.tables != t
  {
    hide Prepare, Commit, WellFormed, PreparedOk;
    var t := Tables(Some(Checkpoint(b.number, b.hash)), map[b.number := b], map[]);
    var batch := Batch([b], [log], b.ToHeader(), 0);
    OneBlockBatch(contract, b, log);
    WellFormedIsPrepared(contract, batch);
    var p := Prepare(contract, batch).value;
    assert log in batch.logs;
    ExtraLogIsCommitted(contract, t, p, b, log);
  }

  lemma OneBlockBatch(contract: Address, b: Block, log: Log)
    requires BlockInRange(b) && InRange(log) && log.address == contract
    requires log.blockNumber == b.number && log.blockHash == b.hash
    ensures WellFormed(contract, Batch([b], [log], b.ToHeader(), 0))
    ensures ValidIndex(contract, Tables(Some(Checkpoint(b.number, b.hash)), map[b.number := b], map[]), b.number)
  {
    assert b in [b];
  }

  lemma ExtraLogIsCommitted(contract: Address, t: Tables, p: Prepared, b: Block, log: Log)
    requires ValidIndex(contract, t, b.number) && PreparedOk(contract, p) && p.blocks == [b] && log in p.logs
    requires t == Tables(Some(Checkpoint(b.number, b.hash)), map[b.number := b], map[])
    ensures Commit(t, p).Success?
    ensures Commit(t, p).value.tables.checkpoint == t.checkpoint && Recorded(Commit(t, p).value.tables, log)
  {
    hide Commit, PlanMeaning;
    TipOfChain(p.blocks);
    VoucherIsAgreement(t.blocks, p.blocks, b.number);
    assert Committable(t, b.number, p, b.number);
    CommitSucceeds(contract, t, b.number, p, b.number);
    CommitMeans(contract, t, b.number, p);
  }

  // ---------------------------------------------------------------- one tip, whoever supplies it

  /** A batch that ends in the stored tip keeps every stored block: the tip itself is the ancestor. */
  lemma SameTipKeepsBlocks(contract: Address, t: Tables, lo: nat, p: Prepared)
    requires ValidIndex(contract, t, lo) && t.checkpoint == Some(p.tip)
    requires PreparedOk(contract, p) && Commit(t, p).Success?
    ensures Commit(t, p).value.tables.checkpoint == t.checkpoint && Commit(t, p).value.tables.blocks == t.blocks
    ensures Commit(t, p).value.depth == 0
    ensures EventsSpliced(t, p, Commit(t, p).value.tables, t.checkpoint.value.number)
    ensures KeyedEvents(Commit(t, p).value.tables.events)
  {
    hide Commit, PlanStore, PlanTail, AncestorHeight, EventsSpliced, KeyedEvents, VouchedFor;
    CommitMeans(contract, t, lo, p);
    CommitKeepsValid(contract, t, lo, p);
    TipOfChain(p.blocks);
    VoucherIsAgreement(t.blocks, p.blocks, t.checkpoint.value.number);
  }

  /** Above nothing but the tip, the events after a commit are those before it and the batch's logs. */
  lemma SplicedAtTheTip(contract: Address, t: Tables, lo: nat, p: Prepared, r: Tables, log: Log)
    requires ValidIndex(contract, t, lo) && t.checkpoint == Some(p.tip)
    requires PreparedOk(contract, p) && EventsSpliced(t, p, r, p.tip.number) && KeyedEvents(r.events)
    ensures Recorded(t, log) ==> Recorded(r, log)
    ensures log in p.logs ==> Recorded(r, log)
    ensures Recorded(r, log) ==> Recorded(t, log) || log in p.logs
  {
    TipOfChain(p.blocks);
  }

  lemma PreparedTip(contract: Address, batch: Batch)
    requires Prepare(contract, batch).Success?
    ensures Prepare(contract, batch).value.tip == Checkpoint(batch.checkpoint.number, batch.checkpoint.hash)
  {
  }

  lemma SameTipAddsItsLogs(contract: Address, t: Tables, lo: nat, p: Prepared)
    requires ValidIndex(contract, t, lo) && t.checkpoint == Some(p.tip)
    requires PreparedOk(contract, p) && Commit(t, p).Success?
    ensures var r := Commit(t, p).value.tables;
      && r.checkpoint == t.checkpoint && r.blocks == t.blocks
      && (forall log :: Recorded(r, log) <==> Recorded(t, log) || log in p.logs)
      && (r == t <==> forall log :: log in p.logs ==> Recorded(t, log))
  {
    assert KeyedEvents(t.events);
    hide Commit, EventsSpliced, ValidIndex, Recorded, PreparedOk, KeyedEvents;
    SameTipKeepsBlocks(contract, t, lo, p);
    var r := Commit(t, p).value.tables;
    forall log
      ensures Recorded(r, log) <==> Recorded(t, log) || log in p.logs
    {
      SplicedAtTheTip(contract, t, lo, p, r, log);
    }
    if forall log :: log in p.logs ==> Recorded(t, log) {
      SameEvents(t, r);
    }
  }

  /**
   What a checkpoint fixes without honesty: a batch that ends in the stored tip never changes a block, and it
   leaves the tables as they were if and only if every log it brings is already recorded.
   */
  lemma SameTipKeepsTablesIff(contract: Address, t: Tables, lo: nat, batch: Batch)
    requires ValidIndex(contract, t, lo) && StoreTables(contract, t, batch).Success?
    requires t.checkpoint == Some(Checkpoint(batch.checkpoint.number, batch.checkpoint.hash))
    ensures var r := StoreTables(contract, t, batch).value.tables;
      && r.checkpoint == t.checkpoint && r.blocks == t.blocks
      && (forall log :: Recorded(r, log) <==> Recorded(t, log) || log in batch.logs)
      && (r == t <==> forall log :: log in batch.logs ==> Recorded(t, log))
  {
    var p := Prepare(contract, batch).value;
    hide Commit, ValidIndex, Recorded, PreparedOk;
    PrepareChecks(contract, batch);
    PreparedTip(contract, batch);
    hide Prepare;
    SameTipAddsItsLogs(contract, t, lo, p);
  }
}

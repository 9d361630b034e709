/**
 How far a replay gets: its ranges advance, cover the finalized chain, and against an endpoint that
 serves one chain end where a fresh replay ends (server/chain-indexer-reader.js:161-259).
 */
module ReplayProgress {
  import opened Wrappers
  import opened ChainTypes
  import opened IndexerCore
  import opened IndexerStore
  import opened FinalizedIndex
  import opened IndexerInvariant
  import opened IndexerSuccess
  import opened IndexerRefinement
  import opened IndexerReader

  // ---------------------------------------------------------------- ranges

  /** Every later range begins strictly above the one before, and ends strictly above it too. */
  lemma RangesAdvance(cfg: Config, from: nat, tip: nat)
    requires ValidConfig(cfg) && cfg.startBlock <= from <= tip && ToBlock(cfg, from, tip) < tip
    ensures var to := ToBlock(cfg, from, tip);
      && from < NextFrom(cfg, to) == to - cfg.rollbackDepth <= to
      && to < ToBlock(cfg, NextFrom(cfg, to), tip)
  {
  }

  /** How many ranges a replay of `n` blocks takes. */
  function RangeCount(cfg: Config, n: nat): nat
    requires ValidConfig(cfg) && n > 0
  {
    if n <= cfg.maxBlockRange then 1 else 1 + RangeCount(cfg, n - (cfg.maxBlockRange - cfg.rollbackDepth - 1))
  }

  function CeilDiv(a: nat, d: nat): nat
    requires d > 0
  {
    (a + d - 1) / d
  }

  lemma DivStep(a: nat, d: nat)
    requires d > 0
    ensures (a + d) / d == a / d + 1
  {
    var q, r := a / d, a % d;
    assert a == q * d + r;
    assert a + d == (q + 1) * d + r;
    DivUnique(a + d, d, q + 1, r);
  }

  lemma NoSmallMultiple(k: int, d: int, x: int)
    requires d > 0 && k * d == x && -d < x < d
    ensures k == 0
  {
  }

  lemma DivUnique(a: nat, d: nat, q: nat, r: nat)
    requires d > 0 && a == q * d + r && r < d
    ensures a / d == q
  {
    var p, s := a / d, a % d;
    assert (q - p) * d == s - r;
    NoSmallMultiple(q - p, d, s - r);
  }

  lemma {:induction false} RangeCountFormula(cfg: Config, n: nat)
    requires ValidConfig(cfg) && n > 0
    ensures RangeCount(cfg, n) ==
      1 + CeilDiv(if n <= cfg.maxBlockRange then 0 else n - cfg.maxBlockRange,
                  cfg.maxBlockRange - cfg.rollbackDepth - 1)
  {
    var d := cfg.maxBlockRange - cfg.rollbackDepth - 1;
    if n <= cfg.maxBlockRange {
      DivUnique(d - 1, d, 0, d - 1);
    } else {
      RangeCountFormula(cfg, n - d);
      if n - d <= cfg.maxBlockRange {
        DivUnique(n - cfg.maxBlockRange + d - 1, d, 1, n - cfg.maxBlockRange - 1);
        DivUnique(d - 1, d, 0, d - 1);
      } else {
        DivStep(n - d - cfg.maxBlockRange + d - 1, d);
      }
    }
  }

  /** The heights a batch reads. */
  ghost predicate Covers(batch: Batch, lo: nat, hi: nat) {
    && lo <= hi && |batch.blocks| == hi + 1 - lo
    && (forall i :: 0 <= i < |batch.blocks| ==> batch.blocks[i].number == lo + i)
    && batch.checkpoint == batch.blocks[|batch.blocks| - 1].ToHeader()
  }

  lemma ReadBatchCovers(rpc: Rpc, round: nat, contract: Address, maxDepth: nat, lo: nat, hi: nat)
    requires lo <= hi && ReadBatch(rpc, round, contract, maxDepth, lo, hi).Success?
    ensures Covers(ReadBatch(rpc, round, contract, maxDepth, lo, hi).value, lo, hi)
  {
    RpcHeadersInOrder(rpc, round, lo, hi);
  }

  lemma ReadBatchErrors(rpc: Rpc, round: nat, contract: Address, maxDepth: nat, lo: nat, hi: nat)
    requires lo <= hi
    ensures var r := ReadBatch(rpc, round, contract, maxDepth, lo, hi);
      r.Failure? ==> r.error in {IncompleteRpcHeaders, NoncanonicalRpcHeaders, IncompleteRpcLogs}
  {
  }

  /**
   The batches of a finished replay: from `from` to the tip without gaps, each later one beginning
   exactly `rollbackDepth` below the tip of the one before and ending above it.
   */
  ghost predicate Tiles(cfg: Config, batches: seq<Batch>, from: nat, tip: nat) {
    && batches != []
    && (forall i :: 0 <= i < |batches| ==>
          batches[i].blocks != [] && Covers(batches[i], batches[i].blocks[0].number, batches[i].checkpoint.number))
    && batches[0].blocks[0].number == from
    && batches[|batches| - 1].checkpoint.number == tip
    && (forall i, j :: 0 <= i < |batches| && 0 <= j < |batches| && j == i + 1 ==>
          && batches[j].blocks[0].number + cfg.rollbackDepth == batches[i].checkpoint.number
          && batches[i].checkpoint.number < batches[j].checkpoint.number)
  }

  lemma OneTile(cfg: Config, batch: Batch, from: nat, to: nat)
    requires Covers(batch, from, to)
    ensures Tiles(cfg, [batch], from, to) && batch.checkpoint.number == to
  {
  }

  lemma TilesPrepend(cfg: Config, first: Batch, rest: seq<Batch>, from: nat, to: nat, next: nat, tip: nat)
    requires Covers(first, from, to) && first.checkpoint.number == to
    requires Tiles(cfg, rest, next, tip) && next + cfg.rollbackDepth == to && to < rest[0].checkpoint.number
    ensures Tiles(cfg, [first] + rest, from, tip)
  {
    var all := [first] + rest;
    forall i | 0 <= i < |all|
      ensures all[i].blocks != [] && Covers(all[i], all[i].blocks[0].number, all[i].checkpoint.number)
    {
      assert i > 0 ==> all[i] == rest[i - 1];
    }
    forall i, j | 0 <= i < |all| && 0 <= j < |all| && j == i + 1
      ensures all[j].blocks[0].number + cfg.rollbackDepth == all[i].checkpoint.number
      ensures all[i].checkpoint.number < all[j].checkpoint.number
    {
      assert all[j] == rest[i];
      assert i > 0 ==> all[i] == rest[i - 1];
    }
  }

  lemma StoredTip(contract: Address, t: Tables, batch: Batch, lo: nat, hi: nat)
    requires Covers(batch, lo, hi) && StoreTables(contract, t, batch).Success?
    ensures StoreTables(contract, t, batch).value.tables.checkpoint.Some?
    ensures StoreTables(contract, t, batch).value.tables.checkpoint.value.number == hi
  {
    hide PlanStore, CanonicalLogs;
    PreparedIsNotEmpty(contract, batch);
  }

  /** A range could not be read, or the store refused it. */
  predicate ReadOrStoreFailed(error: ReaderError) {
    error in {IncompleteRpcHeaders, NoncanonicalRpcHeaders, IncompleteRpcLogs} || error.StoreFailed?
  }

  /**
   Whatever the endpoint answers, a replay never stops for want of progress or for a checkpoint it did
   not expect; and one that finishes has tiled the finalized chain with the predicted number of ranges.
   */
  lemma {:induction false} ReplayTiles(rpc: Rpc, cfg: Config, contract: Address, t: Tables, from: nat, tip: nat,
          round: nat)
    requires ValidConfig(cfg) && cfg.startBlock <= from <= tip
    ensures var o := ReplayFrom(rpc, cfg, contract, t, from, tip, round);
      && (o.result.Failure? ==> ReadOrStoreFailed(o.result.error))
      && (o.result.Success? ==>
            && Tiles(cfg, o.stored, from, tip)
            && o.result.value.batches == |o.stored| == RangeCount(cfg, tip + 1 - from)
            && o.stored[0].checkpoint.number == ToBlock(cfg, from, tip)
            && o.tables.checkpoint.Some? && o.result.value.checkpoint == o.tables.checkpoint
            && o.tables.checkpoint.value.number == tip && o.result.value.finalizedTip == Some(tip))
    decreases tip - from
  {
    hide ReadBatch, StoreTables, Tiles, Covers;
    var to := ToBlock(cfg, from, tip);
    var batch := ReadBatch(rpc, round, contract, cfg.rollbackDepth, from, to);
    ReadBatchErrors(rpc, round, contract, cfg.rollbackDepth, from, to);
    if batch.Success? {
      ReadBatchCovers(rpc, round, contract, cfg.rollbackDepth, from, to);
      var stored := StoreTables(contract, t, batch.value);
      if stored.Success? {
        StoredTip(contract, t, batch.value, from, to);
        OneTile(cfg, batch.value, from, to);
        if to < tip {
          RangesAdvance(cfg, from, tip);
          var r := stored.value.tables;
          ReplayTiles(rpc, cfg, contract, r, NextFrom(cfg, to), tip, round + 1);
          var rest := ReplayFrom(rpc, cfg, contract, r, NextFrom(cfg, to), tip, round + 1);
          if rest.result.Success? {
            TilesPrepend(cfg, batch.value, rest.stored, from, to, NextFrom(cfg, to), tip);
          }
        }
      }
    }
  }

  // ---------------------------------------------------------------- what is stored, and what is refused

  /** The batch is what the endpoint answered for one range after `round` batches. */
  ghost predicate WasServed(rpc: Rpc, contract: Address, depth: nat, round: nat, batch: Batch) {
    exists lo: nat, hi: nat :: lo <= hi && ReadsAsServed(rpc, round, contract, depth, lo, hi, Success(batch))
  }

  /** Each batch was served in its round, the first of them after `round` batches. */
  ghost predicate AllServed(rpc: Rpc, contract: Address, depth: nat, round: nat, batches: seq<Batch>) {
    forall i :: 0 <= i < |batches| ==> WasServed(rpc, contract, depth, round + i, batches[i])
  }

  lemma ServedPrepend(rpc: Rpc, contract: Address, depth: nat, round: nat, first: Batch, rest: seq<Batch>)
    requires WasServed(rpc, contract, depth, round, first) && AllServed(rpc, contract, depth, round + 1, rest)
    ensures AllServed(rpc, contract, depth, round, [first] + rest)
  {
    hide WasServed;
    forall i | 0 <= i <= |rest|
      ensures WasServed(rpc, contract, depth, round + i, ([first] + rest)[i])
    {
      assert i > 0 ==> WasServed(rpc, contract, depth, round + 1 + (i - 1), rest[i - 1]);
    }
  }

  /** Whatever the endpoint answers, a replay stores only ranges that were answered whole. */
  lemma {:induction false} OnlyServedRangesAreStored(rpc: Rpc, cfg: Config, contract: Address, t: Tables, from: nat,
          tip: nat, round: nat)
    requires ValidConfig(cfg) && cfg.startBlock <= from <= tip
    ensures AllServed(rpc, contract, cfg.rollbackDepth, round,
                      ReplayFrom(rpc, cfg, contract, t, from, tip, round).stored)
    decreases tip - from
  {
    hide ReadBatch, StoreTables, ReadsAsServed, AllServed, WasServed;
    var to := ToBlock(cfg, from, tip);
    var batch := ReadBatch(rpc, round, contract, cfg.rollbackDepth, from, to);
    RangeIsReadAsServed(rpc, round, contract, cfg.rollbackDepth, from, to);
    NoneServed(rpc, contract, cfg.rollbackDepth, round);
    if batch.Success? && StoreTables(contract, t, batch.value).Success? {
      ReadIsServed(rpc, contract, cfg.rollbackDepth, round, from, to, batch.value);
      ServedPrepend(rpc, contract, cfg.rollbackDepth, round, batch.value, []);
      assert [batch.value] + [] == [batch.value];
      if to < tip {
        RangesAdvance(cfg, from, tip);
        var r := StoreTables(contract, t, batch.value).value.tables;
        OnlyServedRangesAreStored(rpc, cfg, contract, r, NextFrom(cfg, to), tip, round + 1);
        ServedPrepend(rpc, contract, cfg.rollbackDepth, round, batch.value,
                      ReplayFrom(rpc, cfg, contract, r, NextFrom(cfg, to), tip, round + 1).stored);
      }
    }
  }

  lemma NoneServed(rpc: Rpc, contract: Address, depth: nat, round: nat)
    ensures AllServed(rpc, contract, depth, round, []) && AllServed(rpc, contract, depth, round + 1, [])
  {
  }

  lemma ReadIsServed(rpc: Rpc, contract: Address, depth: nat, round: nat, lo: nat, hi: nat, batch: Batch)
    requires lo <= hi && ReadsAsServed(rpc, round, contract, depth, lo, hi, Success(batch))
    ensures WasServed(rpc, contract, depth, round, batch)
  {
  }

  /** The configuration holds and the endpoint answers for its chain. */
  predicate Reachable(rpc: Rpc, cfg: Config) {
    && cfg.maxBlockRange <= MAX_SAFE_INTEGER && cfg.rollbackDepth + 1 < cfg.maxBlockRange
    && rpc.chainId == Some(cfg.chainId) && rpc.head.Some?
  }

  /** The checkpoint handed in is a height the index can hold, at or above the start. */
  predicate CheckpointStands(cfg: Config, checkpoint: Option<Checkpoint>) {
    checkpoint.None? || cfg.startBlock <= checkpoint.value.number <= MAX_BIGINT
  }

  /** Which refusal belongs to which fault, and that such a call stores nothing. */
  lemma ReplayRefusals(rpc: Rpc, cfg: Config, contract: Address, t: Tables, checkpoint: Option<Checkpoint>)
    ensures var o := Replay(rpc, cfg, contract, t, checkpoint); var r := o.result;
      var sound := cfg.maxBlockRange <= MAX_SAFE_INTEGER && cfg.rollbackDepth + 1 < cfg.maxBlockRange;
      var stands := CheckpointStands(cfg, checkpoint);
      && (r == Failure(RpcChainIdMismatch) <==> sound && rpc.chainId.Some? && rpc.chainId.value != cfg.chainId)
      && (r == Failure(RpcUnavailable) <==>
            sound && (rpc.chainId.None? || (rpc.chainId.value == cfg.chainId && rpc.head.None?)))
      && (r == Failure(InvalidCheckpoint) <==>
            Reachable(rpc, cfg) && checkpoint.Some? && checkpoint.value.number > MAX_BIGINT)
      && (r == Failure(InvalidReader) <==>
            !sound || (Reachable(rpc, cfg) && !stands && checkpoint.value.number <= MAX_BIGINT))
      && (r == Failure(CheckpointAheadOfFinalizedTip) <==>
            Reachable(rpc, cfg) && stands && checkpoint.Some? && rpc.head.value >= cfg.confirmations + cfg.startBlock
            && checkpoint.value.number + cfg.confirmations > rpc.head.value)
      && (r.Success? && r.value.finalizedTip.None? <==>
            Reachable(rpc, cfg) && stands && rpc.head.value < cfg.confirmations + cfg.startBlock)
      && (r.Success? && r.value.finalizedTip.None? ==> r.value == Report(None, 0, checkpoint))
      && (o.stored == [] ==> o.tables == t)
      && (r.Failure? && !ReadOrStoreFailed(r.error) ==> o.stored == [])
  {
    hide ReplayFrom;
    if Reachable(rpc, cfg) && CheckpointStands(cfg, checkpoint)
      && rpc.head.value >= cfg.confirmations + cfg.startBlock {
      var tip := rpc.head.value - cfg.confirmations;
      var from := if checkpoint.Some? then NextFrom(cfg, checkpoint.value.number) else cfg.startBlock;
      if checkpoint.None? || checkpoint.value.number <= tip {
        ReplayTiles(rpc, cfg, contract, t, from, tip, 0);
        NothingStoredNothingChanged(rpc, cfg, contract, t, from, tip, 0);
      }
    }
  }

  lemma NothingStoredNothingChanged(rpc: Rpc, cfg: Config, contract: Address, t: Tables, from: nat, tip: nat,
          round: nat)
    requires ValidConfig(cfg) && cfg.startBlock <= from <= tip
    ensures var o := ReplayFrom(rpc, cfg, contract, t, from, tip, round); o.stored == [] ==> o.tables == t
  {
    hide ReadBatch, StoreTables;
  }

  // ---------------------------------------------------------------- an endpoint that serves one chain

  ghost predicate ChainLog(w: World, chain: nat -> Block, lo: nat, hi: nat, log: Log) {
    exists h :: lo <= h <= hi && log in w.logs(chain(h).hash)
  }

  /** `chain` is a chain of the world between two heights that repeats no block hash and no event key. */
  ghost predicate TrueChain(w: World, contract: Address, chain: nat -> Block, lo: nat, hi: nat) {
    && (forall h :: lo <= h <= hi ==> chain(h).number == h && BlockInRange(chain(h)) && TrueBlock(w, chain(h)))
    && (forall h, k :: lo <= h <= hi && lo <= k <= hi && k == h + 1 ==> chain(k).parent == chain(h).hash)
    && (forall h, k :: lo <= h < k <= hi ==> chain(h).hash != chain(k).hash)
    && (forall h, log :: lo <= h <= hi && log in w.logs(chain(h).hash) ==>
          log.blockNumber == h && log.address == contract && InRange(log))
    && (forall a, b ::
          ChainLog(w, chain, lo, hi, a) && ChainLog(w, chain, lo, hi, b) && KeyOf(a) == KeyOf(b) ==> a == b)
  }

  /** At every moment the endpoint answers with that chain: its headers, and all the logs of a range. */
  ghost predicate Serves(rpc: Rpc, w: World, chain: nat -> Block, lo: nat, hi: nat) {
    && (forall round: nat, h: nat :: lo <= h <= hi ==> rpc.header(round, h) == Some(chain(h)))
    && (forall round: nat, from: nat, to: nat :: lo <= from <= to <= hi ==>
          CompleteLogs(rpc.logs(round, from, to), w, chain, from, to))
  }

  ghost predicate CompleteLogs(answer: Option<seq<RpcLog>>, w: World, chain: nat -> Block, from: nat, to: nat) {
    && answer.Some?
    && (forall x :: x in answer.value ==> !x.removed)
    && (forall log :: ChainLog(w, chain, from, to, log) <==> log in RawLogs(answer.value))
  }

  lemma {:induction false} ServedHeaders(rpc: Rpc, w: World, contract: Address, chain: nat -> Block, lo: nat, hi: nat,
          round: nat, from: nat, to: int)
    requires TrueChain(w, contract, chain, lo, hi) && Serves(rpc, w, chain, lo, hi)
    requires lo <= from <= to + 1 && to <= hi
    ensures var r := RpcHeaders(rpc, round, from, to);
      r.Some? && |r.value| == to + 1 - from && forall i :: 0 <= i < |r.value| ==> r.value[i] == chain(from + i)
    decreases 1 + to - from
  {
    if from <= to {
      ServedHeaders(rpc, w, contract, chain, lo, hi, round, from, to - 1);
    }
  }

  /** The batch that covers a stretch of the chain. */
  ghost predicate ChainBatch(w: World, chain: nat -> Block, from: nat, to: nat, batch: Batch) {
    && from <= to && |batch.blocks| == to + 1 - from
    && (forall i :: 0 <= i < |batch.blocks| ==> batch.blocks[i] == chain(from + i))
    && batch.checkpoint == chain(to).ToHeader()
    && (forall log :: log in batch.logs <==> ChainLog(w, chain, from, to, log))
  }

  lemma ChainBlocksSupply(w: World, contract: Address, chain: nat -> Block, lo: nat, hi: nat, blocks: seq<Block>,
          from: nat, to: nat, log: Log)
    requires Coherent(w) && TrueChain(w, contract, chain, lo, hi) && lo <= from <= to <= hi
    requires |blocks| == to + 1 - from && forall i :: 0 <= i < |blocks| ==> blocks[i] == chain(from + i)
    requires ChainLog(w, chain, from, to, log)
    ensures LogFits(contract, blocks, from, to, log) && InRange(log) && ChainLog(w, chain, lo, hi, log)
  {
    var h :| from <= h <= to && log in w.logs(chain(h).hash);
    assert blocks[h - from] == chain(from + (h - from));
    assert blocks[h - from] in blocks;
  }

  lemma ServedLogs(rpc: Rpc, w: World, contract: Address, chain: nat -> Block, lo: nat, hi: nat, round: nat,
          blocks: seq<Block>, from: nat, to: nat)
    requires Coherent(w) && TrueChain(w, contract, chain, lo, hi) && Serves(rpc, w, chain, lo, hi)
    requires lo <= from <= to <= hi
    requires |blocks| == to + 1 - from && forall i :: 0 <= i < |blocks| ==> blocks[i] == chain(from + i)
    ensures var r := ReadLogs(rpc, round, contract, blocks, from, to);
      r.Success? && forall log :: log in r.value <==> ChainLog(w, chain, from, to, log)
  {
    var answer := rpc.logs(round, from, to);
    assert CompleteLogs(answer, w, chain, from, to);
    var raw := RawLogs(answer.value);
    forall log | log in raw
      ensures LogFits(contract, blocks, from, to, log) && InRange(log) && ChainLog(w, chain, lo, hi, log)
    {
      ChainBlocksSupply(w, contract, chain, lo, hi, blocks, from, to, log);
    }
    LogsAreCanonical(raw);
    CanonicalLogsShape(raw);
  }

  lemma ServedBatch(rpc: Rpc, w: World, contract: Address, chain: nat -> Block, lo: nat, hi: nat, round: nat,
          maxDepth: nat, from: nat, to: nat)
    requires Coherent(w) && TrueChain(w, contract, chain, lo, hi) && Serves(rpc, w, chain, lo, hi)
    requires lo <= from <= to <= hi
    ensures var r := ReadBatch(rpc, round, contract, maxDepth, from, to);
      r.Success? && ChainBatch(w, chain, from, to, r.value) && r.value.maxRollbackDepth == maxDepth
  {
    hide ReadLogs, Coherent;
    ServedHeaders(rpc, w, contract, chain, lo, hi, round, from, to);
    var blocks := RpcHeaders(rpc, round, from, to).value;
    forall i | 1 <= i < |blocks|
      ensures blocks[i].parent == blocks[i - 1].hash
    {
      assert blocks[i] == chain(from + i) && blocks[i - 1] == chain(from + (i - 1));
    }
    ServedLogs(rpc, w, contract, chain, lo, hi, round, blocks, from, to);
  }

  lemma ChainBatchIsWellFormed(w: World, contract: Address, chain: nat -> Block, lo: nat, hi: nat, from: nat, to: nat,
          batch: Batch)
    requires Coherent(w) && TrueChain(w, contract, chain, lo, hi) && lo <= from <= to <= hi
    requires ChainBatch(w, chain, from, to, batch)
    ensures WellFormed(contract, batch) && Honest(w, batch)
  {
    var s := batch.blocks;
    forall i, j | 0 <= i < |s| && 0 <= j < |s| && j == i + 1
      ensures s[j].parent == s[i].hash
    {
      assert s[j] == chain(from + j) && s[i] == chain(from + i);
    }
    forall log | log in batch.logs
      ensures LogFits(contract, s, from, to, log) && InRange(log) && ChainLog(w, chain, lo, hi, log)
    {
      ChainBlocksSupply(w, contract, chain, lo, hi, s, from, to, log);
    }
    forall log
      ensures LogOf(w, s, log) <==> ChainLog(w, chain, from, to, log)
    {
      if LogOf(w, s, log) {
        var b :| b in s && log in w.logs(b.hash);
        var i :| 0 <= i < |s| && s[i] == b;
        assert log in w.logs(chain(from + i).hash);
      }
      if ChainLog(w, chain, from, to, log) {
        var h :| from <= h <= to && log in w.logs(chain(h).hash);
        assert s[h - from] == chain(from + (h - from));
        assert s[h - from] in s;
      }
    }
  }

  // ---------------------------------------------------------------- one batch of the chain

  /** An exact index whose block at `k` is the chain's agrees with the chain all the way down. */
  lemma {:induction false} AgreementGoesDown(w: World, contract: Address, chain: nat -> Block, lo: nat, hi: nat,
          t: Tables, k: nat, n: nat)
    requires ValidIndex(contract, t, lo) && t.checkpoint.Some? && Exact(w, t)
    requires TrueChain(w, contract, chain, lo, hi) && lo <= n <= k <= hi
    requires k in t.blocks && t.blocks[k].hash == chain(k).hash
    ensures n in t.blocks && t.blocks[n] == chain(n)
    decreases k - n
  {
    hide EventsInBlocks, KeyedEvents, UniqueHashes, LogOfStored, ChainLog;
    if n < k {
      AgreementGoesDown(w, contract, chain, lo, hi, t, k, n + 1);
      assert t.blocks[n + 1].parent == t.blocks[n].hash;
      assert chain(n + 1).parent == chain(n).hash;
    }
  }

  /** The highest height up to `k` at which the index and the chain agree. */
  lemma {:induction false} LastAgreement(blocks: map<nat, Block>, chain: nat -> Block, from: nat,
          k: nat) returns (a: nat)
    requires from <= k && from in blocks && blocks[from].hash == chain(from).hash
    ensures from <= a <= k && a in blocks && blocks[a].hash == chain(a).hash
    ensures forall n :: n in blocks && a < n <= k ==> blocks[n].hash != chain(n).hash
    decreases k
  {
    if k in blocks && blocks[k].hash == chain(k).hash {
      a := k;
    } else {
      a := LastAgreement(blocks, chain, from, k - 1);
    }
  }

  lemma ChainEventsFit(w: World, contract: Address, chain: nat -> Block, lo: nat, hi: nat, t: Tables, from: nat,
          to: nat, logs: seq<Log>, a: nat)
    requires Coherent(w) && ValidIndex(contract, t, lo) && t.checkpoint.Some? && Exact(w, t)
    requires TrueChain(w, contract, chain, lo, hi) && lo <= from <= to <= hi && a <= to
    requires forall n :: lo <= n <= a ==> n in t.blocks && t.blocks[n] == chain(n)
    requires forall log :: log in logs <==> ChainLog(w, chain, from, to, log)
    ensures EventsFit(t.events, logs, from, a)
  {
    hide Linked, WellNumbered, TrueBlock;
    forall k | k in t.events && t.events[k].blockNumber <= a
      ensures if from <= t.events[k].blockNumber then t.events[k] in logs
              else forall log :: log in logs ==> KeyOf(log) != k
    {
      var e := t.events[k];
      assert Recorded(t, e);
      var n :| n in t.blocks && e in w.logs(t.blocks[n].hash);
      assert OfBlock(t.blocks, e);
      assert e.blockHash == t.blocks[n].hash;
      assert n == e.blockNumber;
      assert e in w.logs(chain(n).hash);
      assert ChainLog(w, chain, lo, hi, e);
      if from <= n {
        assert ChainLog(w, chain, from, to, e);
      } else {
        forall log | log in logs
          ensures KeyOf(log) != k
        {
          var h :| from <= h <= to && log in w.logs(chain(h).hash);
          assert ChainLog(w, chain, lo, hi, log);
        }
      }
    }
  }

  lemma ChainBlocksFit(w: World, contract: Address, chain: nat -> Block, lo: nat, hi: nat, blocks: map<nat, Block>,
          s: seq<Block>, from: nat, to: nat, a: nat)
    requires TrueChain(w, contract, chain, lo, hi) && lo <= from <= to <= hi && from <= a + 1 && a <= hi
    requires forall n :: n in blocks && n <= a ==> lo <= n && blocks[n] == chain(n)
    requires |s| == to + 1 - from && forall i :: 0 <= i < |s| ==> s[i] == chain(from + i)
    ensures BlocksFit(blocks, s, a)
  {
    hide ChainLog, TrueBlock;
    assert s[0] == chain(from + 0);
    forall n, i | n in blocks && n < from && 0 <= i < |s|
      ensures blocks[n].hash != s[i].hash
    {
      assert chain(n).hash != chain(from + i).hash;
    }
    forall i, j | 0 <= i < j < |s|
      ensures s[i].hash != s[j].hash
    {
      assert chain(from + i).hash != chain(from + j).hash;
    }
  }

  lemma {:induction false} DisagreementGoesUp(w: World, contract: Address, chain: nat -> Block, lo: nat, hi: nat,
          t: Tables, from: nat, n: nat)
    requires ValidIndex(contract, t, lo) && t.checkpoint.Some? && Exact(w, t)
    requires TrueChain(w, contract, chain, from, hi) && from <= n <= hi
    requires from in t.blocks && t.blocks[from].hash != chain(from).hash && n in t.blocks
    ensures t.blocks[n].hash != chain(n).hash
    decreases n
  {
    hide EventsInBlocks, KeyedEvents, UniqueHashes, LogOfStored, ChainLog;
    if from < n {
      assert n - 1 in t.blocks;
      DisagreementGoesUp(w, contract, chain, lo, hi, t, from, n - 1);
      assert t.blocks[n].parent == t.blocks[n - 1].hash;
      assert chain(n).parent == chain(n - 1).hash;
    }
  }

  /**
   The index meets the chain where a range begins. If the stored block just below the range is still within
   reach of a rollback, that block is the one the range names as its parent; if not, index and chain hold
   the same block where the range begins.
   */
  predicate MeetsChain(chain: nat -> Block, blocks: map<nat, Block>, from: nat, height: nat, depth: nat)
    requires from in blocks
  {
    if from > 0 && from - 1 in blocks && height <= from - 1 + depth then blocks[from - 1].hash == chain(from).parent
    else blocks[from].hash == chain(from).hash
  }

  /** `s` is the stretch of the chain between two heights. */
  ghost predicate Stretch(chain: nat -> Block, s: seq<Block>, from: nat, to: nat) {
    && from <= to && |s| == to + 1 - from && chain(from).number == from
    && forall i :: 0 <= i < |s| ==> s[i] == chain(from + i)
  }

  /** What a stretch of the chain vouches for: the blocks it agrees with, and the one its first block names. */
  lemma StretchVouches(chain: nat -> Block, blocks: map<nat, Block>, s: seq<Block>, from: nat, to: nat, n: nat)
    requires Stretch(chain, s, from, to) && ChainOf(s) && n in blocks
    ensures VouchedFor(blocks, s, n) <==>
      if from <= n then n <= to && blocks[n].hash == chain(n).hash
      else n + 1 == from && blocks[n].hash == chain(from).parent
  {
    assert s[0] == chain(from + 0);
    if from <= n {
      VoucherIsAgreement(blocks, s, n);
      assert n <= to ==> s[n - from] == chain(from + (n - from));
    } else {
      VoucherIsParent(blocks, s, n);
    }
  }

  /** Where index and a stretch of the chain part: the chain is stored up to there, and nothing above is vouched for. */
  lemma SpliceHeight(w: World, contract: Address, chain: nat -> Block, lo: nat, hi: nat, t: Tables, s: seq<Block>,
          from: nat, to: nat, depth: nat) returns (a: nat)
    requires ValidIndex(contract, t, lo) && t.checkpoint.Some? && Exact(w, t)
    requires TrueChain(w, contract, chain, lo, hi) && lo <= from <= to <= hi
    requires Stretch(chain, s, from, to) && ChainOf(s)
    requires from <= t.checkpoint.value.number <= from + depth
    requires from in t.blocks && MeetsChain(chain, t.blocks, from, t.checkpoint.value.number, depth)
    ensures lo <= a && from <= a + 1 && a <= to && t.checkpoint.value.number <= a + depth
    ensures HighestVouched(t.blocks, s, a)
    ensures forall n :: lo <= n <= a ==> n in t.blocks && t.blocks[n] == chain(n)
  {
    hide EventsInBlocks, KeyedEvents, UniqueHashes, LogOfStored, ChainLog, VouchedFor, ChainOf, Exact, Linked;
    var agrees := t.blocks[from].hash == chain(from).hash;
    if agrees {
      a := LastAgreement(t.blocks, chain, from, to);
    } else {
      a := from - 1;
      TrueSubchain(w, contract, chain, lo, hi, from);
      assert chain(from).parent == chain(from - 1).hash;
    }
    forall n | n in t.blocks
      ensures n == a ==> VouchedFor(t.blocks, s, n)
      ensures a < n ==> !VouchedFor(t.blocks, s, n)
    {
      StretchVouches(chain, t.blocks, s, from, to, n);
      if !agrees && from <= n <= to {
        DisagreementGoesUp(w, contract, chain, lo, hi, t, from, n);
      }
    }
    forall n | lo <= n <= a
      ensures n in t.blocks && t.blocks[n] == chain(n)
    {
      AgreementGoesDown(w, contract, chain, lo, hi, t, a, n);
    }
  }

  /** The index after a batch of the chain. */
  ghost predicate OnChain(w: World, contract: Address, chain: nat -> Block, lo: nat, t: Tables, height: nat) {
    ValidIndex(contract, t, lo) && Exact(w, t) && t.checkpoint == Some(Checkpoint(height, chain(height).hash))
  }

  /** An index that ends on the chain meets it everywhere. */
  lemma OnChainMeets(w: World, contract: Address, chain: nat -> Block, lo: nat, hi: nat, t: Tables, height: nat,
          n: nat, depth: nat)
    requires OnChain(w, contract, chain, lo, t, height) && TrueChain(w, contract, chain, lo, hi)
    requires lo <= n <= height <= hi
    ensures n in t.blocks && MeetsChain(chain, t.blocks, n, height, depth)
  {
    hide EventsInBlocks, KeyedEvents, UniqueHashes, ChainLog, Exact, Linked;
    AgreementGoesDown(w, contract, chain, lo, hi, t, height, n);
    if lo < n {
      AgreementGoesDown(w, contract, chain, lo, hi, t, height, n - 1);
      assert chain(n).parent == chain(n - 1).hash;
    }
  }

  /** The next batch of the chain is stored when the index meets the chain where the batch begins. */
  lemma ChainBatchIsStored(w: World, contract: Address, chain: nat -> Block, lo: nat, hi: nat, t: Tables, from: nat,
          to: nat, batch: Batch)
    requires Coherent(w) && TrueChain(w, contract, chain, lo, hi) && lo <= from <= to <= hi
    requires ChainBatch(w, chain, from, to, batch)
    requires ValidIndex(contract, t, lo) && t.checkpoint.Some? && Exact(w, t)
    requires from <= t.checkpoint.value.number <= to && t.checkpoint.value.number <= from + batch.maxRollbackDepth
    requires from in t.blocks && MeetsChain(chain, t.blocks, from, t.checkpoint.value.number, batch.maxRollbackDepth)
    ensures var r := StoreTables(contract, t, batch);
      r.Success? && OnChain(w, contract, chain, lo, r.value.tables, to)
  {
    hide Prepare, Commit, PreparedOk, BlocksFit, EventsFit, HighestVouched, WellFormed, Honest, Exact, Coherent,
      EventsInBlocks, UniqueHashes, Linked, ChainLog, MeetsChain, WellNumbered, ChainOf;
    ChainBatchIsWellFormed(w, contract, chain, lo, hi, from, to, batch);
    WellFormedIsPrepared(contract, batch);
    var p := Prepare(contract, batch).value;
    assert p.blocks[0] == chain(from + 0);
    assert p.blocks[|p.blocks| - 1] == chain(to);
    PreparedTip(contract, p);
    var a := SpliceHeight(w, contract, chain, lo, hi, t, p.blocks, from, to, batch.maxRollbackDepth);
    ChainBlocksFit(w, contract, chain, lo, hi, t.blocks, p.blocks, from, to, a);
    ChainEventsFit(w, contract, chain, lo, hi, t, from, to, p.logs, a);
    assert Committable(t, lo, p, a);
    CommitSucceeds(contract, t, lo, p, a);
    CommitKeepsValid(contract, t, lo, p);
    StoreKeepsExact(w, contract, t, lo, batch);
  }

  lemma PreparedTip(contract: Address, p: Prepared)
    requires PreparedOk(contract, p)
    ensures p.blocks != [] && ChainOf(p.blocks)
    ensures p.tip == Checkpoint(p.blocks[|p.blocks| - 1].number, p.blocks[|p.blocks| - 1].hash)
  {
  }

  /** The first batch of the chain is stored in an empty index. */
  lemma FirstChainBatchIsStored(w: World, contract: Address, chain: nat -> Block, lo: nat, hi: nat, to: nat,
          batch: Batch)
    requires Coherent(w) && TrueChain(w, contract, chain, lo, hi) && lo <= to <= hi
    requires ChainBatch(w, chain, lo, to, batch)
    ensures var r := StoreTables(contract, EMPTY, batch);
      r.Success? && OnChain(w, contract, chain, lo, r.value.tables, to)
  {
    hide Prepare, Commit, PreparedOk, WellFormed, Honest, Exact, Coherent, ChainLog, ValidIndex;
    ChainBatchIsWellFormed(w, contract, chain, lo, hi, lo, to, batch);
    WellFormedIsPrepared(contract, batch);
    var p := Prepare(contract, batch).value;
    PreparedTip(contract, p);
    assert p.blocks[0] == chain(lo + 0);
    assert p.blocks[|p.blocks| - 1] == chain(to);
    forall i, j | 0 <= i < j < |p.blocks|
      ensures p.blocks[i].hash != p.blocks[j].hash
    {
      assert chain(lo + i).hash != chain(lo + j).hash;
    }
    FirstCommitSucceeds(contract, p);
    FirstCommitIsValid(contract, p);
    FirstStoreIsExact(w, contract, batch);
  }

  // ---------------------------------------------------------------- whole replays

  /** The index can take the range that begins at `from`: it is empty, or meets the chain there. */
  ghost predicate Ready(w: World, contract: Address, chain: nat -> Block, lo: nat, cfg: Config, t: Tables, from: nat,
          tip: nat) {
    if t == EMPTY then from == lo
    else
      && ValidIndex(contract, t, lo) && t.checkpoint.Some? && Exact(w, t)
      && from <= t.checkpoint.value.number <= tip && t.checkpoint.value.number <= from + cfg.rollbackDepth
      && from in t.blocks && MeetsChain(chain, t.blocks, from, t.checkpoint.value.number, cfg.rollbackDepth)
  }

  /** From there a replay of the served chain succeeds and leaves the index at its tip. */
  lemma {:induction false} ReplayReachesTip(rpc: Rpc, w: World, cfg: Config, contract: Address, chain: nat -> Block,
          lo: nat, t: Tables, from: nat, tip: nat, round: nat)
    requires ValidConfig(cfg) && cfg.startBlock <= from <= tip && lo <= from
    requires Coherent(w) && TrueChain(w, contract, chain, lo, tip) && Serves(rpc, w, chain, lo, tip)
    requires Ready(w, contract, chain, lo, cfg, t, from, tip)
    ensures var o := ReplayFrom(rpc, cfg, contract, t, from, tip, round);
      o.result.Success? && OnChain(w, contract, chain, lo, o.tables, tip)
    decreases tip - from
  {
    hide ReadBatch, StoreTables, Coherent, TrueChain, Serves, Exact, ChainBatch;
    var to := ToBlock(cfg, from, tip);
    ServedBatch(rpc, w, contract, chain, lo, tip, round, cfg.rollbackDepth, from, to);
    var batch := ReadBatch(rpc, round, contract, cfg.rollbackDepth, from, to).value;
    if t == EMPTY {
      FirstChainBatchIsStored(w, contract, chain, lo, tip, to, batch);
    } else {
      ChainBatchIsStored(w, contract, chain, lo, tip, t, from, to, batch);
    }
    var r := StoreTables(contract, t, batch).value.tables;
    if to < tip {
      RangesAdvance(cfg, from, tip);
      var next := NextFrom(cfg, to);
      OnChainMeets(w, contract, chain, lo, tip, r, to, next, cfg.rollbackDepth);
      ReplayReachesTip(rpc, w, cfg, contract, chain, lo, r, next, tip, round + 1);
    }
  }

  /** The configuration and the endpoint let a replay begin, with this finalized tip. */
  ghost predicate CanBegin(rpc: Rpc, cfg: Config, tip: nat) {
    && ValidConfig(cfg) && rpc.chainId == Some(cfg.chainId)
    && rpc.head.Some? && rpc.head.value == tip + cfg.confirmations && cfg.startBlock <= tip
  }

  /**
   A replay resumed from the stored checkpoint, against a served chain that the stored one meets where the
   first range begins, succeeds with no stale checkpoint, missing ancestor or exceeded depth, and leaves the
   tables that a fresh replay from the stored start height leaves.
   */
  lemma ResumedEqualsFresh(rpc: Rpc, w: World, cfg: Config, contract: Address, chain: nat -> Block, lo: nat, t: Tables,
          tip: nat)
    requires CanBegin(rpc, cfg, tip) && lo <= tip
    requires Coherent(w) && TrueChain(w, contract, chain, lo, tip) && Serves(rpc, w, chain, lo, tip)
    requires ValidIndex(contract, t, lo) && t.checkpoint.Some? && Exact(w, t)
    requires cfg.startBlock <= t.checkpoint.value.number <= tip
    requires var from := NextFrom(cfg, t.checkpoint.value.number);
      from in t.blocks && MeetsChain(chain, t.blocks, from, t.checkpoint.value.number, cfg.rollbackDepth)
    ensures var resumed := Replay(rpc, cfg, contract, t, t.checkpoint);
      var scratch := Replay(rpc, cfg.(startBlock := lo), contract, EMPTY, None);
      && resumed.result.Success? && scratch.result.Success? && resumed.tables == scratch.tables
      && OnChain(w, contract, chain, lo, resumed.tables, tip)
  {
    hide Coherent, TrueChain, Serves, Exact, ReplayFrom, MeetsChain;
    var height := t.checkpoint.value.number;
    CheckpointInRange(contract, t, lo);
    var from := NextFrom(cfg, height);
    ReplayReachesTip(rpc, w, cfg, contract, chain, lo, t, from, tip, 0);
    ReplayReachesTip(rpc, w, cfg.(startBlock := lo), contract, chain, lo, EMPTY, lo, tip, 0);
    HistoryLeavesNoTrace(w, contract, Replay(rpc, cfg, contract, t, t.checkpoint).tables,
                         Replay(rpc, cfg.(startBlock := lo), contract, EMPTY, None).tables, lo);
  }

  lemma CheckpointInRange(contract: Address, t: Tables, lo: nat)
    requires ValidIndex(contract, t, lo) && t.checkpoint.Some?
    ensures t.checkpoint.value.number <= MAX_BIGINT
    ensures forall n :: n in t.blocks <==> lo <= n <= t.checkpoint.value.number
  {
  }

  // ---------------------------------------------------------------- deeper reorganisations

  /** If index and chain do not meet, nothing within reach is vouched for. */
  lemma NothingVouched(w: World, contract: Address, chain: nat -> Block, lo: nat, hi: nat, t: Tables, s: seq<Block>,
          from: nat, to: nat, depth: nat, n: nat)
    requires ValidIndex(contract, t, lo) && t.checkpoint.Some? && Exact(w, t)
    requires TrueChain(w, contract, chain, from, hi) && from <= to <= hi && Stretch(chain, s, from, to) && ChainOf(s)
    requires from in t.blocks && !MeetsChain(chain, t.blocks, from, t.checkpoint.value.number, depth)
    requires n in t.blocks && t.checkpoint.value.number <= n + depth
    ensures !VouchedFor(t.blocks, s, n)
  {
    hide EventsInBlocks, KeyedEvents, UniqueHashes, LogOfStored, ChainLog, ChainOf, VouchedFor;
    if from > 0 && from - 1 in t.blocks {
      assert t.blocks[from].parent == t.blocks[from - 1].hash;
    }
    assert t.blocks[from].hash != chain(from).hash;
    StretchVouches(chain, t.blocks, s, from, to, n);
    if from <= n <= to {
      DisagreementGoesUp(w, contract, chain, lo, hi, t, from, n);
    }
  }

  lemma NoAncestorInReach(w: World, contract: Address, chain: nat -> Block, lo: nat, hi: nat, t: Tables, p: Prepared,
          from: nat, to: nat)
    requires ValidIndex(contract, t, lo) && t.checkpoint.Some? && Exact(w, t) && PreparedOk(contract, p)
    requires TrueChain(w, contract, chain, from, hi) && from <= to <= hi && Stretch(chain, p.blocks, from, to)
    requires t.checkpoint.value.number <= to
    requires from in t.blocks && !MeetsChain(chain, t.blocks, from, t.checkpoint.value.number, p.maxDepth)
    ensures Commit(t, p) == Failure(CommonAncestorNotFound)
  {
    hide ReorgPlan, Holds, Named, EventsInBlocks, KeyedEvents, LogOfStored, ChainLog, UniqueHashes, DistinctKeys,
      Rows, SortedHeaders, MeetsChain;
    var current := t.checkpoint.value;
    var lower := LowerBound(current.number, p.maxDepth);
    var rows := Tail(t, p);
    assert p.blocks[|p.blocks| - 1] == chain(from + (to - from));
    TailIsChain(t.blocks, lower, lo, current.number);
    ChainHeadersAreSorted(rows);
    ChainHeadersAreSorted(p.blocks);
    CheckpointHeld(t.blocks, lower, current);
    forall n: nat, h: Hash
      ensures !(Holds(Headers(rows), n, h) && Named(Headers(p.blocks), n, h))
    {
      HeadersHold(t.blocks, lower, current.number, n, h);
      HeadersNamed(p.blocks, n, h);
      if Holds(Headers(rows), n, h) {
        NothingVouched(w, contract, chain, lo, hi, t, p.blocks, from, to, p.maxDepth, n);
      }
    }
    NoAncestorIff(Header(current.number, current.hash, rows[|rows| - 1].parent), Headers(rows), Headers(p.blocks),
                  p.maxDepth);
  }

  /** A chain that the index does not meet where the first range begins has no ancestor within reach. */
  lemma DeepReorgIsRefused(rpc: Rpc, w: World, cfg: Config, contract: Address, chain: nat -> Block, lo: nat, t: Tables,
          tip: nat, from: nat)
    requires ValidConfig(cfg) && cfg.startBlock <= from
    requires Coherent(w) && TrueChain(w, contract, chain, from, tip) && Serves(rpc, w, chain, from, tip)
    requires ValidIndex(contract, t, lo) && t.checkpoint.Some? && Exact(w, t)
    requires from <= t.checkpoint.value.number <= tip && t.checkpoint.value.number <= from + cfg.rollbackDepth
    requires from in t.blocks && !MeetsChain(chain, t.blocks, from, t.checkpoint.value.number, cfg.rollbackDepth)
    ensures var o := ReplayFrom(rpc, cfg, contract, t, from, tip, 0);
      o.result == Failure(StoreFailed(CommonAncestorNotFound)) && o.tables == t
  {
    hide ReadBatch, Prepare, Commit, Coherent, Serves, Exact, WellFormed, Honest, TrueChain, MeetsChain, ValidIndex;
    var to := ToBlock(cfg, from, tip);
    ServedBatch(rpc, w, contract, chain, from, tip, 0, cfg.rollbackDepth, from, to);
    var batch := ReadBatch(rpc, 0, contract, cfg.rollbackDepth, from, to).value;
    ChainBatchIsWellFormed(w, contract, chain, from, tip, from, to, batch);
    WellFormedIsPrepared(contract, batch);
    ChainStartsAt(w, contract, chain, from, tip);
    NoAncestorInReach(w, contract, chain, lo, tip, t, Prepare(contract, batch).value, from, to);
  }

  lemma ChainStartsAt(w: World, contract: Address, chain: nat -> Block, from: nat, hi: nat)
    requires TrueChain(w, contract, chain, from, hi) && from <= hi
    ensures chain(from).number == from
  {
  }

  /** A range that begins below the index is refused: the index never grows downwards. */
  lemma RangeBelowIsRefused(rpc: Rpc, w: World, cfg: Config, contract: Address, chain: nat -> Block, lo: nat, t: Tables,
          tip: nat, from: nat)
    requires ValidConfig(cfg) && cfg.startBlock <= from <= tip && from < lo
    requires Coherent(w) && TrueChain(w, contract, chain, from, tip) && Serves(rpc, w, chain, from, tip)
    requires ValidIndex(contract, t, lo) && t.checkpoint.Some?
    ensures var o := ReplayFrom(rpc, cfg, contract, t, from, tip, 0); o.result.Failure? && o.tables == t
  {
    hide ReadBatch, Prepare, Commit, Coherent, Serves, WellFormed, Honest, TrueChain, ValidIndex, PreparedOk;
    var to := ToBlock(cfg, from, tip);
    ServedBatch(rpc, w, contract, chain, from, tip, 0, cfg.rollbackDepth, from, to);
    var batch := ReadBatch(rpc, 0, contract, cfg.rollbackDepth, from, to).value;
    ChainBatchIsWellFormed(w, contract, chain, from, tip, from, to, batch);
    WellFormedIsPrepared(contract, batch);
    ChainStartsAt(w, contract, chain, from, tip);
    var p := Prepare(contract, batch).value;
    assert p.blocks[0] == chain(from + 0);
    if Commit(t, p).Success? {
      CommitKeepsValid(contract, t, lo, p);
    }
  }

  /**
   The exact condition. A replay resumed from the stored checkpoint, against an endpoint that serves one
   chain, succeeds if and only if the checkpoint is neither below the configured start nor above the tip,
   the first range does not begin below the index, and index and chain meet where it begins. Otherwise the
   tables stay as they were; if only the last fails, the error is the missing ancestor.
   */
  lemma ResumeSucceedsIff(rpc: Rpc, w: World, cfg: Config, contract: Address, chain: nat -> Block, bottom: nat, lo: nat,
          t: Tables, tip: nat)
    requires CanBegin(rpc, cfg, tip)
    requires ValidIndex(contract, t, lo) && t.checkpoint.Some? && Exact(w, t)
    requires bottom <= lo && bottom <= cfg.startBlock
    requires Coherent(w) && TrueChain(w, contract, chain, bottom, tip) && Serves(rpc, w, chain, bottom, tip)
    ensures var height := t.checkpoint.value.number; var from := NextFrom(cfg, height);
      var o := Replay(rpc, cfg, contract, t, t.checkpoint);
      var begins := cfg.startBlock <= height <= tip && lo <= from;
      && (begins ==> from in t.blocks)
      && (o.result.Success? <==> begins && MeetsChain(chain, t.blocks, from, height, cfg.rollbackDepth))
      && (o.result.Failure? ==> o.tables == t)
      && (begins && o.result.Failure? ==> o.result == Failure(StoreFailed(CommonAncestorNotFound)))
  {
    hide Coherent, Exact, ReplayFrom, ValidIndex, TrueChain, Serves, MeetsChain, OnChain;
    var height := t.checkpoint.value.number;
    var from := NextFrom(cfg, height);
    CheckpointInRange(contract, t, lo);
    if cfg.startBlock <= height <= tip {
      ServedFrom(rpc, w, contract, chain, bottom, tip, lo);
      ServedFrom(rpc, w, contract, chain, bottom, tip, from);
      if from < lo {
        RangeBelowIsRefused(rpc, w, cfg, contract, chain, lo, t, tip, from);
      } else if MeetsChain(chain, t.blocks, from, height, cfg.rollbackDepth) {
        ResumedEqualsFresh(rpc, w, cfg, contract, chain, lo, t, tip);
      } else {
        DeepReorgIsRefused(rpc, w, cfg, contract, chain, lo, t, tip, from);
      }
    }
  }

  lemma ServedFrom(rpc: Rpc, w: World, contract: Address, chain: nat -> Block, lo: nat, hi: nat, from: nat)
    requires TrueChain(w, contract, chain, lo, hi) && Serves(rpc, w, chain, lo, hi) && lo <= from
    ensures TrueChain(w, contract, chain, from, hi) && Serves(rpc, w, chain, from, hi)
  {
    TrueSubchain(w, contract, chain, lo, hi, from);
  }

  lemma TrueSubchain(w: World, contract: Address, chain: nat -> Block, lo: nat, hi: nat, from: nat)
    requires TrueChain(w, contract, chain, lo, hi) && lo <= from
    ensures TrueChain(w, contract, chain, from, hi)
  {
    assert forall log :: ChainLog(w, chain, from, hi, log) ==> ChainLog(w, chain, lo, hi, log);
  }
}

/**
 One replay of the finalized chain into the index, in overlapping ranges
 (server/chain-indexer-reader.js). The RPC endpoint is whatever answers it gives: each answer may
 depend on how many batches have been stored, so that the chain may reorganise during a replay.
 */
module IndexerReader {
  import opened Wrappers
  import opened Sorting
  import opened ChainTypes
  import opened IndexerCore
  import opened IndexerStore
  import opened FinalizedIndex
  import opened IndexerInvariant

  datatype Config = Config(chainId: nat, startBlock: nat, confirmations: nat, rollbackDepth: nat, maxBlockRange: nat)

  datatype RpcLog = RpcLog(log: Log, removed: bool)

  /** The answers of the endpoint; None where it fails or answers nothing usable. */
  datatype Rpc = Rpc(
    chainId: Option<nat>,
    head: Option<nat>,
    header: (nat, nat) -> Option<Block>,
    logs: (nat, nat, nat) -> Option<seq<RpcLog>>)

  datatype Report = Report(finalizedTip: Option<nat>, batches: nat, checkpoint: Option<Checkpoint>)

  /** The batches a replay stored, what they made of the tables, and how the replay ended. */
  datatype Outcome = Outcome(tables: Tables, stored: seq<Batch>, result: Result<Report, ReaderError>)

  /** A later batch starts `rollbackDepth` below the checkpoint and must still end above it. */
  predicate ValidConfig(cfg: Config) {
    && 0 < cfg.maxBlockRange <= MAX_SAFE_INTEGER
    && cfg.rollbackDepth + 1 < cfg.maxBlockRange
  }

  // ---------------------------------------------------------------- one batch

  function RpcHeader(rpc: Rpc, round: nat, height: nat): Option<Block> {
    match rpc.header(round, height)
    case None => None
    case Some(b) => if b.number == height && b.number <= MAX_BIGINT then Some(b) else None
  }

  function RpcHeaders(rpc: Rpc, round: nat, lo: nat, hi: int): Option<seq<Block>>
    decreases hi + 1 - lo
  {
    if hi < lo then Some([])
    else
      var front := RpcHeaders(rpc, round, lo, hi - 1);
      var last := RpcHeader(rpc, round, hi);
      if front.None? || last.None? then None else Some(front.value + [last.value])
  }

  predicate HeadersLinked(blocks: seq<Block>) {
    forall i :: 1 <= i < |blocks| ==> blocks[i].parent == blocks[i - 1].hash
  }

  function RawLogs(logs: seq<RpcLog>): (r: seq<Log>)
    ensures |r| == |logs| && forall i :: 0 <= i < |r| ==> r[i] == logs[i].log
  {
    seq(|logs|, i requires 0 <= i < |logs| => logs[i].log)
  }

  predicate LogFits(contract: Address, blocks: seq<Block>, lo: nat, hi: nat, log: Log) {
    && log.address == contract && lo <= log.blockNumber <= hi
    && Supplied(blocks, log.blockNumber, log.blockHash)
  }

  function ReadLogs(rpc: Rpc, round: nat, contract: Address, blocks: seq<Block>, lo: nat, hi: nat): Result<seq<Log>,
          ReaderError> {
    match rpc.logs(round, lo, hi)
    case None => Failure(IncompleteRpcLogs)
    case Some(raw) =>
      var logs := CanonicalLogs(RawLogs(raw));
      if logs.Failure? then Failure(IncompleteRpcLogs)
      else if exists x :: x in raw && x.removed then Failure(IncompleteRpcLogs)
      else if exists log :: log in logs.value && !LogFits(contract, blocks, lo, hi, log) then Failure(IncompleteRpcLogs)
      else Success(logs.value)
  }

  function ReadBatch(rpc: Rpc, round: nat, contract: Address, maxDepth: nat, lo: nat, hi: nat): Result<Batch,
          ReaderError>
    requires lo <= hi
  {
    var blocks := RpcHeaders(rpc, round, lo, hi);
    if blocks.None? then Failure(IncompleteRpcHeaders)
    else if !HeadersLinked(blocks.value) then Failure(NoncanonicalRpcHeaders)
    else
      var logs := ReadLogs(rpc, round, contract, blocks.value, lo, hi);
      if logs.Failure? then Failure(logs.error)
      else
        RpcHeadersInOrder(rpc, round, lo, hi);
        Success(Batch(blocks.value, logs.value, blocks.value[|blocks.value| - 1].ToHeader(), maxDepth))
  }

  lemma {:induction false} RpcHeadersInOrder(rpc: Rpc, round: nat, lo: nat, hi: int)
    requires lo <= hi + 1
    ensures var r := RpcHeaders(rpc, round, lo, hi);
      r.Some? ==> |r.value| == hi + 1 - lo && forall i :: 0 <= i < |r.value| ==> r.value[i].number == lo + i
    decreases hi + 1 - lo
  {
    if lo <= hi {
      RpcHeadersInOrder(rpc, round, lo, hi - 1);
    }
  }

  lemma {:induction false} HeadersStayMissing(rpc: Rpc, round: nat, lo: nat, k: int, hi: int)
    requires k <= hi && RpcHeaders(rpc, round, lo, k).None?
    ensures RpcHeaders(rpc, round, lo, hi).None?
    decreases hi
  {
    if k < hi {
      HeadersStayMissing(rpc, round, lo, k, hi - 1);
    }
  }

  // What the endpoint answered, and what is read from it.

  /** Every height is answered with its own block, in range. */
  ghost predicate HeadersServed(rpc: Rpc, round: nat, lo: nat, hi: nat) {
    forall h: nat :: lo <= h <= hi ==>
      rpc.header(round, h).Some? && rpc.header(round, h).value.number == h && h <= MAX_BIGINT
  }

  /** Neighbouring answers name each other as parent and child. */
  ghost predicate HeadersJoin(rpc: Rpc, round: nat, lo: nat, hi: nat)
    requires HeadersServed(rpc, round, lo, hi)
  {
    forall h: nat, k: nat :: lo <= h <= hi && lo <= k <= hi && k == h + 1 ==>
      rpc.header(round, k).value.parent == rpc.header(round, h).value.hash
  }

  /** The answered log stands: not withdrawn, in range, of the contract and of a block that was answered. */
  ghost predicate LogStands(rpc: Rpc, round: nat, contract: Address, lo: nat, hi: nat, x: RpcLog)
    requires HeadersServed(rpc, round, lo, hi)
  {
    && !x.removed && InRange(x.log) && x.log.address == contract && lo <= x.log.blockNumber <= hi
    && x.log.blockHash == rpc.header(round, x.log.blockNumber).value.hash
  }

  /** The logs are answered, all of them stand, and none contradicts another. */
  ghost predicate LogsServed(rpc: Rpc, round: nat, contract: Address, lo: nat, hi: nat)
    requires HeadersServed(rpc, round, lo, hi)
  {
    && rpc.logs(round, lo, hi).Some?
    && (forall x :: x in rpc.logs(round, lo, hi).value ==> LogStands(rpc, round, contract, lo, hi, x))
    && (forall x, y :: x in rpc.logs(round, lo, hi).value && y in rpc.logs(round, lo, hi).value ==>
          KeyOf(x.log) != KeyOf(y.log) || x.log == y.log)
  }

  /** `batch` holds the answered blocks in order, and the answered logs in order, each once. */
  ghost predicate HoldsAnswers(rpc: Rpc, round: nat, lo: nat, hi: nat, batch: Batch)
    requires lo <= hi && HeadersServed(rpc, round, lo, hi) && rpc.logs(round, lo, hi).Some?
  {
    && |batch.blocks| == hi + 1 - lo
    && (forall i :: 0 <= i < |batch.blocks| ==> batch.blocks[i] == rpc.header(round, lo + i).value)
    && ReadAsAnswered(rpc.logs(round, lo, hi).value, batch.logs)
    && batch.checkpoint == rpc.header(round, hi).value.ToHeader()
  }

  /** What reading one range comes to. */
  ghost predicate ReadsAsServed(rpc: Rpc, round: nat, contract: Address, maxDepth: nat, lo: nat, hi: nat,
          r: Result<Batch, ReaderError>)
    requires lo <= hi
  {
    if !HeadersServed(rpc, round, lo, hi) then r == Failure(IncompleteRpcHeaders)
    else if !HeadersJoin(rpc, round, lo, hi) then r == Failure(NoncanonicalRpcHeaders)
    else if !LogsServed(rpc, round, contract, lo, hi) then r == Failure(IncompleteRpcLogs)
    else r.Success? && HoldsAnswers(rpc, round, lo, hi, r.value) && r.value.maxRollbackDepth == maxDepth
  }

  lemma {:induction false} HeadersAreServed(rpc: Rpc, round: nat, lo: nat, hi: int)
    requires lo <= hi + 1
    ensures RpcHeaders(rpc, round, lo, hi).Some? <==> hi < lo || HeadersServed(rpc, round, lo, hi)
    ensures RpcHeaders(rpc, round, lo, hi).Some? ==>
      var blocks := RpcHeaders(rpc, round, lo, hi).value;
      && |blocks| == hi + 1 - lo
      && forall i :: 0 <= i < |blocks| ==> rpc.header(round, lo + i) == Some(blocks[i])
    decreases hi + 1 - lo
  {
    if lo <= hi {
      HeadersAreServed(rpc, round, lo, hi - 1);
      assert HeadersServed(rpc, round, lo, hi) <==>
        (hi - 1 < lo || HeadersServed(rpc, round, lo, hi - 1)) && RpcHeader(rpc, round, hi).Some?;
    }
  }

  lemma LinksAreServed(rpc: Rpc, round: nat, lo: nat, hi: nat, blocks: seq<Block>)
    requires lo <= hi && HeadersServed(rpc, round, lo, hi) && |blocks| == hi + 1 - lo
    requires forall i :: 0 <= i < |blocks| ==> rpc.header(round, lo + i) == Some(blocks[i])
    ensures HeadersLinked(blocks) <==> HeadersJoin(rpc, round, lo, hi)
  {
    if HeadersLinked(blocks) {
      forall h: nat, k: nat | lo <= h <= hi && lo <= k <= hi && k == h + 1
        ensures rpc.header(round, k).value.parent == rpc.header(round, h).value.hash
      {
        assert blocks[k - lo].parent == blocks[k - lo - 1].hash;
        assert rpc.header(round, lo + (k - lo)) == Some(blocks[k - lo]);
        assert rpc.header(round, lo + (k - lo - 1)) == Some(blocks[k - lo - 1]);
      }
    }
    if HeadersJoin(rpc, round, lo, hi) {
      forall i | 1 <= i < |blocks|
        ensures blocks[i].parent == blocks[i - 1].hash
      {
        assert rpc.header(round, lo + i) == Some(blocks[i]) && rpc.header(round, lo + (i - 1)) == Some(blocks[i - 1]);
      }
    }
  }

  /** A log fits the blocks read exactly when it is of the block answered for its height. */
  lemma FitsTheAnswer(rpc: Rpc, round: nat, contract: Address, lo: nat, hi: nat, blocks: seq<Block>, log: Log)
    requires lo <= hi && HeadersServed(rpc, round, lo, hi) && |blocks| == hi + 1 - lo
    requires forall i :: 0 <= i < |blocks| ==> rpc.header(round, lo + i) == Some(blocks[i])
    ensures LogFits(contract, blocks, lo, hi, log) <==>
      log.address == contract && lo <= log.blockNumber <= hi
      && log.blockHash == rpc.header(round, log.blockNumber).value.hash
  {
    if lo <= log.blockNumber <= hi {
      var i := log.blockNumber - lo;
      assert rpc.header(round, lo + i) == Some(blocks[i]) && blocks[i] in blocks;
      if Supplied(blocks, log.blockNumber, log.blockHash) {
        var b :| b in blocks && b.number == log.blockNumber && b.hash == log.blockHash;
        var j :| 0 <= j < |blocks| && blocks[j] == b;
        assert rpc.header(round, lo + j) == Some(blocks[j]);
      }
    }
  }

  /** The logs are read exactly when they are served, and then as they were answered. */
  lemma LogsAreServed(rpc: Rpc, round: nat, contract: Address, lo: nat, hi: nat, blocks: seq<Block>)
    requires lo <= hi && HeadersServed(rpc, round, lo, hi) && |blocks| == hi + 1 - lo
    requires forall i :: 0 <= i < |blocks| ==> rpc.header(round, lo + i) == Some(blocks[i])
    ensures var r := ReadLogs(rpc, round, contract, blocks, lo, hi);
      && (r.Failure? ==> r.error == IncompleteRpcLogs)
      && (r.Success? <==> LogsServed(rpc, round, contract, lo, hi))
      && (r.Success? ==> ReadAsAnswered(rpc.logs(round, lo, hi).value, r.value))
  {
    hide LogBefore, LogFits, StrictlySorted, Sorted, CanonicalLogs;
    if rpc.logs(round, lo, hi).Some? {
      var answered := rpc.logs(round, lo, hi).value;
      AnsweredLogs(answered);
      forall log
        ensures LogFits(contract, blocks, lo, hi, log) <==>
          log.address == contract && lo <= log.blockNumber <= hi
          && log.blockHash == rpc.header(round, log.blockNumber).value.hash
      {
        FitsTheAnswer(rpc, round, contract, lo, hi, blocks, log);
      }
      if LogsServed(rpc, round, contract, lo, hi) {
        ServedLogsAreCanonical(contract, answered);
      }
      if ReadLogs(rpc, round, contract, blocks, lo, hi).Success? {
        ReadLogsStand(contract, answered);
      }
    }
  }

  /** `logs` are the answered ones, each once, in execution order. */
  ghost predicate ReadAsAnswered(answered: seq<RpcLog>, logs: seq<Log>) {
    && StrictlySorted(logs, LogBefore)
    && forall log :: log in logs <==> exists x :: x in answered && x.log == log
  }

  lemma ServedLogsAreCanonical(contract: Address, answered: seq<RpcLog>)
    requires forall x :: x in answered ==> InRange(x.log) && x.log.address == contract
    requires forall x, y :: x in answered && y in answered && KeyOf(x.log) == KeyOf(y.log) ==> x.log == y.log
    ensures CanonicalLogs(RawLogs(answered)).Success?
    ensures ReadAsAnswered(answered, CanonicalLogs(RawLogs(answered)).value)
  {
    hide LogBefore;
    AnsweredLogs(answered);
    CanonicalLogsShape(RawLogs(answered));
    CanonicalLogsStrict(RawLogs(answered));
  }

  lemma ReadLogsStand(contract: Address, answered: seq<RpcLog>)
    requires CanonicalLogs(RawLogs(answered)).Success?
    requires forall log :: log in CanonicalLogs(RawLogs(answered)).value ==> log.address == contract
    ensures forall x :: x in answered ==> InRange(x.log) && x.log in CanonicalLogs(RawLogs(answered)).value
    ensures forall x, y :: x in answered && y in answered && KeyOf(x.log) == KeyOf(y.log) ==> x.log == y.log
  {
    hide LogBefore, StrictlySorted, Sorted;
    AnsweredLogs(answered);
    CanonicalLogsShape(RawLogs(answered));
    forall x, y | x in answered && y in answered && KeyOf(x.log) == KeyOf(y.log)
      ensures x.log == y.log
    {
      assert x.log in RawLogs(answered) && y.log in RawLogs(answered);
      assert EventId(x.log) == EventId(y.log);
    }
  }

  lemma AnsweredLogs(answered: seq<RpcLog>)
    ensures forall log :: log in RawLogs(answered) <==> exists x :: x in answered && x.log == log
  {
    forall log | log in RawLogs(answered)
      ensures exists x :: x in answered && x.log == log
    {
      var i :| 0 <= i < |answered| && RawLogs(answered)[i] == log;
      assert answered[i] in answered;
    }
    forall x | x in answered
      ensures x.log in RawLogs(answered)
    {
      var i :| 0 <= i < |answered| && answered[i] == x;
      assert RawLogs(answered)[i] == x.log;
    }
  }

  /**
   For any endpoint: a range is read if and only if every height is answered with its own block, neighbours are
   linked, and the logs are answered, none of them withdrawn, out of range, foreign or contradicted; what is read
   is then exactly that, and each refusal names what is missing.
   */
  lemma RangeIsReadAsServed(rpc: Rpc, round: nat, contract: Address, maxDepth: nat, lo: nat, hi: nat)
    requires lo <= hi
    ensures ReadsAsServed(rpc, round, contract, maxDepth, lo, hi, ReadBatch(rpc, round, contract, maxDepth, lo, hi))
  {
    hide ReadLogs, HeadersLinked;
    HeadersAreServed(rpc, round, lo, hi);
    if HeadersServed(rpc, round, lo, hi) {
      var blocks := RpcHeaders(rpc, round, lo, hi).value;
      LinksAreServed(rpc, round, lo, hi, blocks);
      LogsAreServed(rpc, round, contract, lo, hi, blocks);
      assert rpc.header(round, lo + (|blocks| - 1)) == Some(blocks[|blocks| - 1]);
    }
  }

  method ReadCompleteBatch(rpc: Rpc, round: nat, contract: Address, maxDepth: nat, lo: nat, hi: nat)
    returns (r: Result<Batch, ReaderError>)
    requires lo <= hi
    ensures r == ReadBatch(rpc, round, contract, maxDepth, lo, hi)
    ensures ReadsAsServed(rpc, round, contract, maxDepth, lo, hi, r)
  {
    hide ReadLogs, ReadsAsServed;
    RangeIsReadAsServed(rpc, round, contract, maxDepth, lo, hi);
    var blocks: seq<Block> := [];
    var height := lo;
    while height <= hi
      invariant lo <= height <= hi + 1
      invariant RpcHeaders(rpc, round, lo, height - 1) == Some(blocks)
    {
      var b := RpcHeader(rpc, round, height);
      if b.None? {
        HeadersStayMissing(rpc, round, lo, height, hi);
        return Failure(IncompleteRpcHeaders);
      }
      blocks := blocks + [b.value];
      height := height + 1;
    }
    RpcHeadersInOrder(rpc, round, lo, hi);
    for index := 1 to |blocks|
      invariant forall i :: 1 <= i < index ==> blocks[i].parent == blocks[i - 1].hash
    {
      if blocks[index].parent != blocks[index - 1].hash {
        return Failure(NoncanonicalRpcHeaders);
      }
    }
    var logs := ReadLogs(rpc, round, contract, blocks, lo, hi);
    if logs.Failure? {
      return Failure(logs.error);
    }
    r := Success(Batch(blocks, logs.value, blocks[|blocks| - 1].ToHeader(), maxDepth));
  }

  // ---------------------------------------------------------------- the loop

  /** Where a range ends. */
  function ToBlock(cfg: Config, from: nat, tip: nat): nat
    requires ValidConfig(cfg)
  {
    if from + cfg.maxBlockRange - 1 > tip then tip else from + cfg.maxBlockRange - 1
  }

  /** Where the range after checkpoint height `height` begins. */
  function NextFrom(cfg: Config, height: nat): nat {
    if height < cfg.startBlock + cfg.rollbackDepth then cfg.startBlock else height - cfg.rollbackDepth
  }

  function Stop(o: Tables, stored: seq<Batch>, error: ReaderError): Outcome {
    Outcome(o, stored, Failure(error))
  }

  function Replayed(first: Batch, rest: Outcome): Outcome {
    rest.(stored := [first] + rest.stored,
          result := if rest.result.Success? then Success(rest.result.value.(batches := rest.result.value.batches + 1))
                    else rest.result)
  }

  /** The replay from `from` to the finalized tip; `round` batches have been stored before. */
  function ReplayFrom(rpc: Rpc, cfg: Config, contract: Address, t: Tables, from: nat, tip: nat, round: nat): Outcome
    requires ValidConfig(cfg) && cfg.startBlock <= from <= tip
    decreases tip - from
  {
    var to := ToBlock(cfg, from, tip);
    var batch := ReadBatch(rpc, round, contract, cfg.rollbackDepth, from, to);
    if batch.Failure? then Stop(t, [], batch.error)
    else
      var stored := StoreTables(contract, t, batch.value);
      if stored.Failure? then Stop(t, [], StoreFailed(stored.error))
      else
        var r := stored.value.tables;
        if r.checkpoint.None? || r.checkpoint.value.number < cfg.startBlock then Stop(r, [batch.value], InvalidReader)
        else if r.checkpoint.value.number != to then Stop(r, [batch.value], StoreCheckpointMismatch)
        else if to == tip then Outcome(r, [batch.value], Success(Report(Some(tip), 1, r.checkpoint)))
        else if NextFrom(cfg, to) > to then Stop(r, [batch.value], ReplayRangeNotAdvancing)
        else Replayed(batch.value, ReplayFrom(rpc, cfg, contract, r, NextFrom(cfg, to), tip, round + 1))
  }

  /** Why the checkpoint handed to the reader is refused, if it is. */
  function CheckpointFault(cfg: Config, checkpoint: Option<Checkpoint>): Option<ReaderError> {
    if checkpoint.None? then None
    else if checkpoint.value.number > MAX_BIGINT then Some(InvalidCheckpoint)
    else if checkpoint.value.number < cfg.startBlock then Some(InvalidReader)
    else None
  }

  /** A whole call of the reader. */
  function Replay(rpc: Rpc, cfg: Config, contract: Address, t: Tables, checkpoint: Option<Checkpoint>): Outcome {
    if !ValidConfig(cfg) then Stop(t, [], InvalidReader)
    else if rpc.chainId.None? then Stop(t, [], RpcUnavailable)
    else if rpc.chainId.value != cfg.chainId then Stop(t, [], RpcChainIdMismatch)
    else if rpc.head.None? then Stop(t, [], RpcUnavailable)
    else if CheckpointFault(cfg, checkpoint).Some? then Stop(t, [], CheckpointFault(cfg, checkpoint).value)
    else if rpc.head.value < cfg.confirmations + cfg.startBlock then
      Outcome(t, [], Success(Report(None, 0, checkpoint)))
    else
      var tip := rpc.head.value - cfg.confirmations;
      if checkpoint.Some? && checkpoint.value.number > tip then Stop(t, [], CheckpointAheadOfFinalizedTip)
      else
        var from := if checkpoint.Some? then NextFrom(cfg, checkpoint.value.number) else cfg.startBlock;
        ReplayFrom(rpc, cfg, contract, t, from, tip, 0)
  }

  /** Batches stored before joined with those of the rest of the replay. */
  function Prepend(before: seq<Batch>, rest: Outcome): Outcome {
    Outcome(rest.tables, before + rest.stored,
            if rest.result.Success? then Success(rest.result.value.(batches := |before| + rest.result.value.batches))
            else rest.result)
  }

  /**
   The reader on a live index. If the connection never fails it does exactly what `Replay` says;
   if it does, the index has still only seen whole batches.
   */
  method ReplayFinalizedBlocks(rpc: Rpc, index: FinalizedIndex, cfg: Config, checkpoint: Option<Checkpoint>)
    returns (r: Result<Report, ReaderError>, ghost stored: seq<Batch>)
    requires index.Valid()
    modifies index
    ensures index.Valid() && index.State() == Run(index.contract, old(index.State()), stored)
    ensures old(index.statementsLeft).None? ==>
      Outcome(index.State(), stored, r) == Replay(rpc, cfg, index.contract, old(index.State()), checkpoint)
  {
    hide ReadBatch, StoreTables;
    stored := [];
    if !ValidConfig(cfg) {
      return Failure(InvalidReader), [];
    }
    if rpc.chainId.None? {
      return Failure(RpcUnavailable), [];
    }
    if rpc.chainId.value != cfg.chainId {
      return Failure(RpcChainIdMismatch), [];
    }
    if rpc.head.None? {
      return Failure(RpcUnavailable), [];
    }
    var fault := CheckpointFault(cfg, checkpoint);
    if fault.Some? {
      return Failure(fault.value), [];
    }
    if rpc.head.value < cfg.confirmations + cfg.startBlock {
      return Success(Report(None, 0, checkpoint)), [];
    }
    var tip := rpc.head.value - cfg.confirmations;
    if checkpoint.Some? && checkpoint.value.number > tip {
      return Failure(CheckpointAheadOfFinalizedTip), [];
    }
    var nextFrom := if checkpoint.Some? then NextFrom(cfg, checkpoint.value.number) else cfg.startBlock;
    r, stored := ReplayRanges(rpc, index, cfg, nextFrom, tip);
  }

  method ReplayRanges(rpc: Rpc, index: FinalizedIndex, cfg: Config, from: nat, tip: nat)
    returns (r: Result<Report, ReaderError>, ghost stored: seq<Batch>)
    requires index.Valid() && ValidConfig(cfg) && cfg.startBlock <= from <= tip
    modifies index
    ensures index.Valid() && index.State() == Run(index.contract, old(index.State()), stored)
    ensures old(index.statementsLeft).None? ==>
      Outcome(index.State(), stored, r) == ReplayFrom(rpc, cfg, index.contract, old(index.State()), from, tip, 0)
  {
    hide ReadBatch, StoreTables;
    var nextFrom, batches := from, 0;
    stored := [];
    while true
      invariant cfg.startBlock <= nextFrom <= tip && index.Valid()
      invariant batches == |stored|
      invariant index.State() == Run(index.contract, old(index.State()), stored)
      invariant old(index.statementsLeft).None? ==> index.statementsLeft.None?
      invariant old(index.statementsLeft).None? ==>
        ReplayFrom(rpc, cfg, index.contract, old(index.State()), from, tip, 0) ==
        Prepend(stored, ReplayFrom(rpc, cfg, index.contract, index.State(), nextFrom, tip, batches))
      decreases tip - nextFrom
    {
      var toBlock := ToBlock(cfg, nextFrom, tip);
      var batch := ReadCompleteBatch(rpc, batches, index.contract, cfg.rollbackDepth, nextFrom, toBlock);
      if batch.Failure? {
        return Failure(batch.error), stored;
      }
      ghost var before := index.State();
      var receipt := index.StoreFinalizedEvents(batch.value);
      if receipt.Failure? {
        return Failure(StoreFailed(receipt.error)), stored;
      }
      assert index.State() == After(index.contract, before, batch.value);
      assert (stored + [batch.value])[..|stored|] == stored;
      ghost var previous := stored;
      stored := stored + [batch.value];
      batches := batches + 1;
      var current := receipt.value.checkpoint;
      if current.number < cfg.startBlock {
        return Failure(InvalidReader), stored;
      }
      if current.number != toBlock {
        return Failure(StoreCheckpointMismatch), stored;
      }
      if toBlock == tip {
        return Success(Report(Some(tip), batches, Some(current))), stored;
      }
      if NextFrom(cfg, toBlock) > toBlock {
        return Failure(ReplayRangeNotAdvancing), stored;
      }
      ghost var rest := ReplayFrom(rpc, cfg, index.contract, index.State(), NextFrom(cfg, toBlock), tip, batches);
      assert Prepend(previous, Replayed(batch.value, rest)) == Prepend(stored, rest) by {
        assert previous + ([batch.value] + rest.stored) == (previous + [batch.value]) + rest.stored;
      }
      nextFrom := NextFrom(cfg, toBlock);
    }
  }
}

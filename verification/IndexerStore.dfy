/**
 The transaction that stores one finalized batch (server/chain-indexer-store.js). `Tables` is the
 content of the three tables for one chain and contract; `StoreTables` says what a transaction makes
 of it, and `FinalizedIndex` performs the transaction statement by statement.
 */
module IndexerStore {
  import opened Wrappers
  import opened Sorting
  import opened ChainTypes
  import opened IndexerCore

  datatype Checkpoint = Checkpoint(number: nat, hash: Hash)

  /** The primary key of an event within one chain and contract. */
  type EventKey = (Hash, nat)

  datatype Tables = Tables(checkpoint: Option<Checkpoint>, blocks: map<nat, Block>, events: map<EventKey, Log>)

  datatype Batch = Batch(blocks: seq<Block>, logs: seq<Log>, checkpoint: Header, maxRollbackDepth: nat)

  /** A batch that passed every check made before the transaction begins. */
  datatype Prepared = Prepared(blocks: seq<Block>, logs: seq<Log>, tip: Checkpoint, maxDepth: nat)

  datatype StorePlan = StorePlan(replay: seq<Block>, deleteFrom: Option<nat>, depth: nat)

  datatype Stored = Stored(tables: Tables, depth: nat)

  datatype Receipt = Receipt(checkpoint: Checkpoint, rollbackDepth: nat)

  const EMPTY := Tables(None, map[], map[])

  function KeyOf(log: Log): EventKey {
    (log.txHash, log.logIndex)
  }

  // ---------------------------------------------------------------- before the transaction

  predicate BlockInRange(b: Block) {
    b.number <= MAX_BIGINT && b.time <= MAX_DATE_SECONDS
  }

  predicate LowerBlock(a: Block, b: Block) {
    a.number < b.number
  }

  /** The first fault walking up a sorted batch. */
  function BatchFault(s: seq<Block>): Option<Error> {
    if |s| < 2 then None
    else
      var n := |s| - 1;
      var fault := BatchFault(s[..n]);
      if fault.Some? then fault
      else if s[n].number == s[n - 1].number then Some(DuplicateBlockHeight)
      else if s[n].number != s[n - 1].number + 1 then Some(NoncontiguousObservedBlocks)
      else if s[n].parent != s[n - 1].hash then Some(NoncanonicalObservedBlocks)
      else None
  }

  function NormalizedBlocks(blocks: seq<Block>): Result<seq<Block>, Error> {
    if blocks == [] || exists b :: b in blocks && !BlockInRange(b) then Failure(InvalidInput)
    else
      var s := Sort(blocks, LowerBlock);
      var fault := BatchFault(s);
      if fault.Some? then Failure(fault.value) else Success(s)
  }

  predicate Supplied(blocks: seq<Block>, number: nat, hash: Hash) {
    exists b :: b in blocks && b.number == number && b.hash == hash
  }

  /** The first log that is not of this contract or not of a supplied block. */
  function LogFault(contract: Address, blocks: seq<Block>, logs: seq<Log>): Option<Error> {
    if logs == [] then None
    else
      var n := |logs| - 1;
      var fault := LogFault(contract, blocks, logs[..n]);
      if fault.Some? then fault
      else if logs[n].address != contract then Some(InvalidInput)
      else if !Supplied(blocks, logs[n].blockNumber, logs[n].blockHash) then Some(LogNotInSuppliedBlocks)
      else None
  }

  function Prepare(contract: Address, batch: Batch): Result<Prepared, Error> {
    var blocks := NormalizedBlocks(batch.blocks);
    if blocks.Failure? then Failure(blocks.error)
    else if !HeaderInRange(batch.checkpoint) then Failure(InvalidInput)
    else if blocks.value == [] then Failure(InvalidInput)
    else
      var tip := blocks.value[|blocks.value| - 1];
      if tip.number != batch.checkpoint.number || tip.hash != batch.checkpoint.hash then
        Failure(CheckpointNotBatchTip)
      else
        var logs := CanonicalLogs(batch.logs);
        if logs.Failure? then Failure(logs.error)
        else
          var fault := LogFault(contract, blocks.value, logs.value);
          if fault.Some? then Failure(fault.value)
          else Success(Prepared(blocks.value, logs.value, Checkpoint(tip.number, tip.hash), batch.maxRollbackDepth))
  }

  // ---------------------------------------------------------------- the transaction

  /** SELECT of the blocks between two heights, by height. */
  function Rows(blocks: map<nat, Block>, lo: nat, hi: int): seq<Block>
    decreases hi + 1 - lo
  {
    if hi < lo then [] else Rows(blocks, lo, hi - 1) + if hi in blocks then [blocks[hi]] else []
  }

  function Headers(blocks: seq<Block>): (r: seq<Header>)
    ensures |r| == |blocks| && forall i :: 0 <= i < |r| ==> r[i] == blocks[i].ToHeader()
  {
    seq(|blocks|, i requires 0 <= i < |blocks| => blocks[i].ToHeader())
  }

  /** The supplied block with this header's identity. */
  function Find(blocks: seq<Block>, header: Header): Option<Block> {
    if blocks == [] then None
    else
      var last := blocks[|blocks| - 1];
      if last.number == header.number && last.hash == header.hash then Some(last)
      else Find(blocks[..|blocks| - 1], header)
  }

  function Resupply(blocks: seq<Block>, headers: seq<Header>): Result<seq<Block>, Error> {
    if headers == [] then Success([])
    else
      var n := |headers| - 1;
      var front := Resupply(blocks, headers[..n]);
      var found := Find(blocks, headers[n]);
      if front.Failure? then front
      else if found.None? then Failure(ReplayBlockNotSupplied)
      else Success(front.value + [found.value])
  }

  /** The lowest height a batch may reach back to. */
  function LowerBound(current: nat, maxDepth: nat): nat {
    if current < maxDepth then 0 else current - maxDepth
  }

  /** What to delete and insert, given the reorganisation plan. */
  function PlanWrites(blocks: seq<Block>, plan: Plan): Result<StorePlan, Error> {
    var replay := Resupply(blocks, plan.replay);
    if replay.Failure? then Failure(replay.error)
    else Success(StorePlan(replay.value, plan.deleteFrom, plan.rollbackDepth))
  }

  /** The reorganisation plan for the stored tail `rows` under checkpoint `current`. */
  function PlanTail(current: Checkpoint, rows: seq<Block>, p: Prepared): Result<Plan, Error> {
    if rows == [] then Failure(InvalidInput)
    else ReorgPlan(Header(current.number, current.hash, rows[|rows| - 1].parent),
                   Headers(rows), Headers(p.blocks), p.maxDepth)
  }

  /** What the transaction will delete and insert. */
  function PlanStore(t: Tables, p: Prepared): Result<StorePlan, Error> {
    if t.checkpoint.None? then Success(StorePlan(p.blocks, None, 0))
    else
      var current := t.checkpoint.value;
      if p.tip.number < current.number then Failure(StaleCheckpoint)
      else
        var plan := PlanTail(current, Rows(t.blocks, LowerBound(current.number, p.maxDepth), current.number), p);
        if plan.Failure? then Failure(plan.error) else PlanWrites(p.blocks, plan.value)
  }

  function BlocksBelow(blocks: map<nat, Block>, height: Option<nat>): map<nat, Block> {
    map n | n in blocks && (height.None? || n < height.value) :: blocks[n]
  }

  function EventsBelow(events: map<EventKey, Log>, height: Option<nat>): map<EventKey, Log> {
    map k | k in events && (height.None? || events[k].blockNumber < height.value) :: events[k]
  }

  /** INSERT ... ON CONFLICT (height) DO NOTHING, under the unique index on the block hash. */
  function InsertBlock(blocks: map<nat, Block>, b: Block): Option<map<nat, Block>> {
    if b.number in blocks then Some(blocks)
    else if exists n :: n in blocks && blocks[n].hash == b.hash then None
    else Some(blocks[b.number := b])
  }

  function InsertBlocks(blocks: map<nat, Block>, rows: seq<Block>): Option<map<nat, Block>> {
    if rows == [] then Some(blocks)
    else
      var front := InsertBlocks(blocks, rows[..|rows| - 1]);
      if front.None? then None else InsertBlock(front.value, rows[|rows| - 1])
  }

  /** INSERT ... ON CONFLICT (event key) DO NOTHING. */
  function InsertEvent(events: map<EventKey, Log>, log: Log): map<EventKey, Log> {
    if KeyOf(log) in events then events else events[KeyOf(log) := log]
  }

  function InsertEvents(events: map<EventKey, Log>, logs: seq<Log>): map<EventKey, Log> {
    if logs == [] then events
    else InsertEvent(InsertEvents(events, logs[..|logs| - 1]), logs[|logs| - 1])
  }

  function EventsBetween(events: map<EventKey, Log>, lo: nat, hi: nat): set<Log> {
    set k | k in events && lo <= events[k].blockNumber <= hi :: events[k]
  }

  function Elements<T>(s: seq<T>): set<T> {
    set x | x in s
  }

  /** Delete, insert, re-read and compare, move the checkpoint. */
  function Write(t: Tables, p: Prepared, plan: StorePlan): Result<Tables, Error>
    requires p.blocks != []
  {
    var blocks := InsertBlocks(BlocksBelow(t.blocks, plan.deleteFrom), plan.replay);
    if blocks.None? then Failure(UniqueViolation)
    else
      var events := InsertEvents(EventsBelow(t.events, plan.deleteFrom), p.logs);
      if Rows(blocks.value, p.blocks[0].number, p.tip.number) != p.blocks then Failure(StoredBlockMismatch)
      else if EventsBetween(events, p.blocks[0].number, p.tip.number) != Elements(p.logs) then
        Failure(StoredEventMismatch)
      else Success(Tables(Some(p.tip), blocks.value, events))
  }

  function Commit(t: Tables, p: Prepared): Result<Stored, Error>
    requires p.blocks != []
  {
    var plan := PlanStore(t, p);
    if plan.Failure? then Failure(plan.error)
    else
      var written := Write(t, p, plan.value);
      if written.Failure? then Failure(written.error)
      else Success(Stored(written.value, plan.value.depth))
  }

  lemma PreparedIsNotEmpty(contract: Address, batch: Batch)
    ensures Prepare(contract, batch).Success? ==> Prepare(contract, batch).value.blocks != []
  {
  }

  /** What storing a batch makes of the tables, or why it fails. */
  function StoreTables(contract: Address, t: Tables, batch: Batch): Result<Stored, Error> {
    var p := Prepare(contract, batch);
    if p.Failure? then Failure(p.error) else Commit(t, p.value)
  }

  // ---------------------------------------------------------------- loops over values

  method NormalizeBlocks(blocks: seq<Block>) returns (r: Result<seq<Block>, Error>)
    ensures r == NormalizedBlocks(blocks)
  {
    if blocks == [] || exists b :: b in blocks && !BlockInRange(b) {
      return Failure(InvalidInput);
    }
    var s := Sort(blocks, LowerBlock);
    var index := 1;
    while index < |s|
      invariant 1 <= index <= |s|
      invariant BatchFault(s[..index]) == None
    {
      var previous, current := s[index - 1], s[index];
      assert s[..index + 1][..index] == s[..index];
      BatchFaultPersists(s, index + 1);
      if current.number == previous.number {
        return Failure(DuplicateBlockHeight);
      }
      if current.number != previous.number + 1 {
        return Failure(NoncontiguousObservedBlocks);
      }
      if current.parent != previous.hash {
        return Failure(NoncanonicalObservedBlocks);
      }
      index := index + 1;
    }
    assert s[..|s|] == s;
    r := Success(s);
  }

  lemma {:induction false} BatchFaultPersists(s: seq<Block>, k: nat)
    requires k <= |s|
    ensures BatchFault(s[..k]).Some? ==> BatchFault(s) == BatchFault(s[..k])
  {
    if k == |s| {
      assert s[..k] == s;
    } else {
      assert s[..|s| - 1][..k] == s[..k];
      BatchFaultPersists(s[..|s| - 1], k);
    }
  }

  method CheckLogs(contract: Address, blocks: seq<Block>, logs: seq<Log>) returns (fault: Option<Error>)
    ensures fault == LogFault(contract, blocks, logs)
  {
    for i := 0 to |logs|
      invariant LogFault(contract, blocks, logs[..i]) == None
    {
      assert logs[..i + 1][..i] == logs[..i];
      LogFaultPersists(contract, blocks, logs, i + 1);
      if logs[i].address != contract {
        return Some(InvalidInput);
      }
      if !Supplied(blocks, logs[i].blockNumber, logs[i].blockHash) {
        return Some(LogNotInSuppliedBlocks);
      }
    }
    assert logs[..|logs|] == logs;
    fault := None;
  }

  lemma {:induction false} LogFaultPersists(contract: Address, blocks: seq<Block>, logs: seq<Log>, k: nat)
    requires k <= |logs|
    ensures LogFault(contract, blocks, logs[..k]).Some? ==>
      LogFault(contract, blocks, logs) == LogFault(contract, blocks, logs[..k])
  {
    if k == |logs| {
      assert logs[..k] == logs;
    } else {
      assert logs[..|logs| - 1][..k] == logs[..k];
      LogFaultPersists(contract, blocks, logs[..|logs| - 1], k);
    }
  }

  method PrepareBatch(contract: Address, batch: Batch) returns (r: Result<Prepared, Error>)
    ensures r == Prepare(contract, batch)
  {
    var blocks := NormalizeBlocks(batch.blocks);
    if blocks.Failure? {
      return Failure(blocks.error);
    }
    if !HeaderInRange(batch.checkpoint) || blocks.value == [] {
      return Failure(InvalidInput);
    }
    var tip := blocks.value[|blocks.value| - 1];
    if tip.number != batch.checkpoint.number || tip.hash != batch.checkpoint.hash {
      return Failure(CheckpointNotBatchTip);
    }
    var logs := NormalizeAndSortLogs(batch.logs);
    if logs.Failure? {
      return Failure(logs.error);
    }
    var fault := CheckLogs(contract, blocks.value, logs.value);
    if fault.Some? {
      return Failure(fault.value);
    }
    r := Success(Prepared(blocks.value, logs.value, Checkpoint(tip.number, tip.hash), batch.maxRollbackDepth));
  }

  /** Compares the rows read back with the rows supplied, position by position. */
  method AssertSameBlocks(actual: seq<Block>, expected: seq<Block>) returns (same: bool)
    ensures same <==> actual == expected
  {
    if |actual| != |expected| {
      return false;
    }
    for i := 0 to |expected|
      invariant actual[..i] == expected[..i]
    {
      if actual[i] != expected[i] {
        return false;
      }
    }
    assert actual == actual[..|expected|] && expected == expected[..|expected|];
    same := true;
  }

  /** Event ids of one contract compare by transaction hash, then log index. */
  predicate EventIdBefore(a: Log, b: Log) {
    if a.txHash != b.txHash then a.txHash < b.txHash else a.logIndex < b.logIndex
  }

  ghost predicate DistinctKeys(logs: seq<Log>) {
    forall i, j :: 0 <= i < j < |logs| ==> KeyOf(logs[i]) != KeyOf(logs[j])
  }

  lemma SameBySortedLists(actual: seq<Log>, expected: seq<Log>)
    requires DistinctKeys(actual) && DistinctKeys(expected)
    ensures Elements(actual) == Elements(expected) <==> Sort(actual, EventIdBefore) == Sort(expected, EventIdBefore)
  {
    assert WeakOrder(EventIdBefore);
    SortIsStrict(actual, EventIdBefore);
    SortIsStrict(expected, EventIdBefore);
    if Elements(actual) == Elements(expected) {
      forall x
        ensures x in actual <==> x in expected
      {
        assert x in actual <==> x in Elements(actual);
        assert x in expected <==> x in Elements(expected);
      }
      StrictlySortedUnique(Sort(actual, EventIdBefore), Sort(expected, EventIdBefore), EventIdBefore);
    }
  }

  /** Compares the events read back with the events supplied, whatever order the rows came in. */
  method AssertSameLogs(actual: seq<Log>, expected: seq<Log>) returns (same: bool)
    requires DistinctKeys(actual) && DistinctKeys(expected)
    ensures same <==> Elements(actual) == Elements(expected)
  {
    hide Sort, EventIdBefore, DistinctKeys, Elements;
    var a, e := Sort(actual, EventIdBefore), Sort(expected, EventIdBefore);
    SameBySortedLists(actual, expected);
    if |a| != |e| {
      return false;
    }
    for i := 0 to |e|
      invariant a[..i] == e[..i]
    {
      if a[i] != e[i] {
        return false;
      }
    }
    assert a == a[..|e|] && e == e[..|e|];
    same := true;
  }
}

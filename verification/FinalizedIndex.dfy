/**
 The store transaction carried out on the tables in place, one database statement at a time, with a
 connection that may fail before any statement (server/chain-indexer-store.js:140-329).
 */
module FinalizedIndex {
  import opened Wrappers
  import opened Sorting
  import opened ChainTypes
  import opened IndexerCore
  import opened IndexerStore

  /** Every event row sits under its own key. */
  ghost predicate KeyedEvents(events: map<EventKey, Log>) {
    forall k :: k in events ==> KeyOf(events[k]) == k
  }

  lemma KeyedRowsAreOrdered(events: map<EventKey, Log>, lo: nat, hi: nat)
    requires KeyedEvents(events)
    ensures TotalOn(EventsBetween(events, lo, hi), LogBefore)
  {
    LogOrder();
    forall x, y | x in EventsBetween(events, lo, hi) && y in EventsBetween(events, lo, hi)
      ensures x == y || LogBefore(x, y) || LogBefore(y, x)
    {
      assert KeyOf(x) == KeyOf(y) ==> x == y;
    }
  }

  /** SELECT of the events between two heights, in execution order. */
  function EventRows(events: map<EventKey, Log>, lo: nat, hi: nat): (r: seq<Log>)
    requires KeyedEvents(events)
    ensures Elements(r) == EventsBetween(events, lo, hi)
    ensures DistinctKeys(r)
  {
    KeyedRowsAreOrdered(events, lo, hi);
    var r := Ordered(EventsBetween(events, lo, hi), LogBefore);
    assert forall i :: 0 <= i < |r| ==> r[i] in EventsBetween(events, lo, hi);
    assert DistinctKeys(r) by {
      forall i, j | 0 <= i < j < |r|
        ensures KeyOf(r[i]) != KeyOf(r[j])
      {
        assert LogBefore(r[i], r[j]);
      }
    }
    r
  }

  lemma {:induction false} InsertKeepsKeys(events: map<EventKey, Log>, logs: seq<Log>)
    requires KeyedEvents(events)
    ensures KeyedEvents(InsertEvents(events, logs))
  {
    if logs != [] {
      InsertKeepsKeys(events, logs[..|logs| - 1]);
    }
  }

  lemma {:induction false} AllOfContract(contract: Address, blocks: seq<Block>, logs: seq<Log>)
    requires LogFault(contract, blocks, logs).None?
    ensures forall log :: log in logs ==>
      log.address == contract && Supplied(blocks, log.blockNumber, log.blockHash)
  {
    if logs != [] {
      AllOfContract(contract, blocks, logs[..|logs| - 1]);
      assert logs == logs[..|logs| - 1] + [logs[|logs| - 1]];
    }
  }

  /** A prepared batch has at most one log under each key. */
  lemma PreparedKeysAreDistinct(contract: Address, batch: Batch)
    requires Prepare(contract, batch).Success?
    ensures DistinctKeys(Prepare(contract, batch).value.logs)
  {
    var p := Prepare(contract, batch).value;
    CanonicalLogsShape(batch.logs);
    AllOfContract(contract, p.blocks, p.logs);
    forall i, j | 0 <= i < j < |p.logs|
      ensures KeyOf(p.logs[i]) != KeyOf(p.logs[j])
    {
      assert EventId(p.logs[i]) != EventId(p.logs[j]);
      assert p.logs[i] in p.logs && p.logs[j] in p.logs;
    }
  }

  lemma {:induction false} ResupplyPersists(blocks: seq<Block>, headers: seq<Header>, k: nat)
    requires k <= |headers| && Resupply(blocks, headers[..k]).Failure?
    ensures Resupply(blocks, headers) == Resupply(blocks, headers[..k])
  {
    if k == |headers| {
      assert headers[..k] == headers;
    } else {
      assert headers[..|headers| - 1][..k] == headers[..k];
      ResupplyPersists(blocks, headers[..|headers| - 1], k);
    }
  }

  method ResupplyBlocks(blocks: seq<Block>, headers: seq<Header>) returns (r: Result<seq<Block>, Error>)
    ensures r == Resupply(blocks, headers)
  {
    var replay: seq<Block> := [];
    for i := 0 to |headers|
      invariant Resupply(blocks, headers[..i]) == Success(replay)
    {
      assert headers[..i + 1][..i] == headers[..i];
      var found := Find(blocks, headers[i]);
      if found.None? {
        ResupplyPersists(blocks, headers, i + 1);
        return Failure(ReplayBlockNotSupplied);
      }
      replay := replay + [found.value];
    }
    assert headers[..|headers|] == headers;
    r := Success(replay);
  }

  method ResupplyPlan(blocks: seq<Block>, plan: Plan) returns (r: Result<StorePlan, Error>)
    ensures r == PlanWrites(blocks, plan)
  {
    var replay := ResupplyBlocks(blocks, plan.replay);
    if replay.Failure? {
      return Failure(replay.error);
    }
    r := Success(StorePlan(replay.value, plan.deleteFrom, plan.rollbackDepth));
  }

  method PlanAgainstTail(current: Checkpoint, rows: seq<Block>, p: Prepared) returns (r: Result<Plan, Error>)
    ensures r == PlanTail(current, rows, p)
  {
    if rows == [] {
      return Failure(InvalidInput);
    }
    r := PlanReorgRollback(Header(current.number, current.hash, rows[|rows| - 1].parent),
                           Headers(rows), Headers(p.blocks), p.maxDepth);
  }

  lemma {:induction false} UniqueViolationPersists(blocks: map<nat, Block>, rows: seq<Block>, k: nat)
    requires k <= |rows| && InsertBlocks(blocks, rows[..k]).None?
    ensures InsertBlocks(blocks, rows).None?
  {
    if k == |rows| {
      assert rows[..k] == rows;
    } else {
      assert rows[..|rows| - 1][..k] == rows[..k];
      UniqueViolationPersists(blocks, rows[..|rows| - 1], k);
    }
  }

  /** The three tables of one chain and contract, and the connection that reaches them. */
  class FinalizedIndex {
    const contract: Address
    var checkpoint: Option<Checkpoint>
    var blocks: map<nat, Block>
    var events: map<EventKey, Log>
    /** How many more statements the connection carries out; None when it never fails. */
    var statementsLeft: Option<nat>

    function State(): Tables
      reads this
    {
      Tables(checkpoint, blocks, events)
    }

    ghost predicate Valid()
      reads this
    {
      KeyedEvents(events)
    }

    constructor (contract: Address, statementsLeft: Option<nat>)
      ensures Valid() && State() == EMPTY
      ensures this.contract == contract && this.statementsLeft == statementsLeft
    {
      this.contract := contract;
      this.statementsLeft := statementsLeft;
      checkpoint, blocks, events := None, map[], map[];
    }

    method Query() returns (ok: bool)
      modifies this`statementsLeft
      ensures old(statementsLeft).None? ==> ok && statementsLeft.None?
      ensures old(statementsLeft).Some? ==>
        ok == (old(statementsLeft).value > 0) && statementsLeft == Some(if ok then old(statementsLeft).value - 1 else 0)
    {
      match statementsLeft
      case None => ok := true;
      case Some(n) =>
        ok := n > 0;
        statementsLeft := Some(if n > 0 then n - 1 else 0);
    }

    /** Reads the checkpoint and the canonical tail and decides what to delete and replay. */
    method ReadPlan(p: Prepared) returns (r: Result<StorePlan, Error>)
      modifies this`statementsLeft
      ensures r.Success? ==> PlanStore(State(), p) == r
      ensures r.Failure? ==> r.error == DatabaseFault || PlanStore(State(), p) == r
      ensures old(statementsLeft).None? ==> statementsLeft.None? && PlanStore(State(), p) == r
    {
      var ok := Query();
      if !ok {
        return Failure(DatabaseFault);
      }
      if checkpoint.None? {
        return Success(StorePlan(p.blocks, None, 0));
      }
      var current := checkpoint.value;
      if p.tip.number < current.number {
        return Failure(StaleCheckpoint);
      }
      ok := Query();
      if !ok {
        return Failure(DatabaseFault);
      }
      var rows := Rows(blocks, LowerBound(current.number, p.maxDepth), current.number);
      var plan := PlanAgainstTail(current, rows, p);
      if plan.Failure? {
        return Failure(plan.error);
      }
      r := ResupplyPlan(p.blocks, plan.value);
    }

    method DeleteFrom(height: Option<nat>) returns (ok: bool)
      requires Valid()
      modifies this`blocks, this`events, this`statementsLeft
      ensures Valid()
      ensures ok ==> blocks == BlocksBelow(old(blocks), height) && events == EventsBelow(old(events), height)
      ensures old(statementsLeft).None? ==> ok && statementsLeft.None?
    {
      if height.None? {
        assert blocks == BlocksBelow(blocks, height) && events == EventsBelow(events, height);
        return true;
      }
      ok := Query();
      if !ok {
        return;
      }
      events := EventsBelow(events, height);
      ok := Query();
      if !ok {
        return;
      }
      blocks := BlocksBelow(blocks, height);
    }

    method InsertBlockRows(rows: seq<Block>) returns (fault: Option<Error>)
      modifies this`blocks, this`statementsLeft
      ensures fault.None? ==> InsertBlocks(old(blocks), rows) == Some(blocks)
      ensures fault in {None, Some(DatabaseFault), Some(UniqueViolation)}
      ensures fault == Some(UniqueViolation) ==> InsertBlocks(old(blocks), rows).None?
      ensures old(statementsLeft).None? ==> statementsLeft.None? && fault != Some(DatabaseFault)
    {
      for i := 0 to |rows|
        invariant InsertBlocks(old(blocks), rows[..i]) == Some(blocks)
        invariant old(statementsLeft).None? ==> statementsLeft.None?
      {
        var ok := Query();
        if !ok {
          return Some(DatabaseFault);
        }
        assert rows[..i + 1][..i] == rows[..i];
        var inserted := InsertBlock(blocks, rows[i]);
        if inserted.None? {
          UniqueViolationPersists(old(blocks), rows, i + 1);
          return Some(UniqueViolation);
        }
        blocks := inserted.value;
      }
      assert rows[..|rows|] == rows;
      fault := None;
    }

    method InsertEventRows(logs: seq<Log>) returns (ok: bool)
      requires Valid()
      modifies this`events, this`statementsLeft
      ensures Valid()
      ensures ok ==> events == InsertEvents(old(events), logs)
      ensures old(statementsLeft).None? ==> statementsLeft.None? && ok
    {
      for i := 0 to |logs|
        invariant Valid()
        invariant events == InsertEvents(old(events), logs[..i])
        invariant old(statementsLeft).None? ==> statementsLeft.None?
      {
        ok := Query();
        if !ok {
          return;
        }
        assert logs[..i + 1][..i] == logs[..i];
        events := InsertEvent(events, logs[i]);
      }
      assert logs[..|logs|] == logs;
      ok := true;
    }

    /** Deletes, inserts, reads back and moves the checkpoint; may stop half way. */
    method WritePlan(p: Prepared, plan: StorePlan) returns (fault: Option<Error>)
      requires Valid() && p.blocks != [] && DistinctKeys(p.logs)
      modifies this
      ensures Valid()
      ensures fault.None? ==> Write(old(State()), p, plan) == Success(State()) && checkpoint == Some(p.tip)
      ensures fault.Some? ==> fault == Some(DatabaseFault) || Write(old(State()), p, plan) == Failure(fault.value)
      ensures old(statementsLeft).None? ==> statementsLeft.None? && fault != Some(DatabaseFault)
    {
      var ok := DeleteFrom(plan.deleteFrom);
      if !ok {
        return Some(DatabaseFault);
      }
      fault := InsertBlockRows(plan.replay);
      if fault.Some? {
        return;
      }
      ok := InsertEventRows(p.logs);
      if !ok {
        return Some(DatabaseFault);
      }
      var first, tip := p.blocks[0].number, p.tip.number;
      ok := Query();
      if !ok {
        return Some(DatabaseFault);
      }
      ok := AssertSameBlocks(Rows(blocks, first, tip), p.blocks);
      if !ok {
        return Some(StoredBlockMismatch);
      }
      ok := Query();
      if !ok {
        return Some(DatabaseFault);
      }
      ok := AssertSameLogs(EventRows(events, first, tip), p.logs);
      if !ok {
        return Some(StoredEventMismatch);
      }
      ok := Query();
      if !ok {
        return Some(DatabaseFault);
      }
      checkpoint := Some(p.tip);
      ok := Query();
      fault := if ok then None else Some(DatabaseFault);
    }

    /** One transaction: the whole of `StoreTables`, or nothing. */
    method StoreFinalizedEvents(batch: Batch) returns (r: Result<Receipt, Error>)
      requires Valid()
      modifies this
      ensures Valid()
      ensures r.Success? ==>
        && StoreTables(contract, old(State()), batch) == Success(Stored(State(), r.value.rollbackDepth))
        && checkpoint == Some(r.value.checkpoint)
      ensures r.Failure? ==> State() == old(State())
      ensures r.Failure? ==> r.error == DatabaseFault || StoreTables(contract, old(State()), batch) == Failure(r.error)
      ensures old(statementsLeft).None? ==> statementsLeft.None?
      ensures old(statementsLeft).None? && r.Failure? ==> StoreTables(contract, old(State()), batch) == Failure(r.error)
    {
      hide Prepare, PlanStore, Write;
      var prepared := PrepareBatch(contract, batch);
      if prepared.Failure? {
        return Failure(prepared.error);
      }
      var p := prepared.value;
      PreparedKeysAreDistinct(contract, batch);
      PreparedIsNotEmpty(contract, batch);
      var ok := Query();
      if !ok {
        return Failure(DatabaseFault);
      }
      var savedCheckpoint, savedBlocks, savedEvents := checkpoint, blocks, events;
      var plan := ReadPlan(p);
      if plan.Failure? {
        return Failure(plan.error);
      }
      var fault := WritePlan(p, plan.value);
      if fault.Some? {
        checkpoint, blocks, events := savedCheckpoint, savedBlocks, savedEvents;
        return Failure(fault.value);
      }
      r := Success(Receipt(p.tip, plan.value.depth));
    }
  }
}

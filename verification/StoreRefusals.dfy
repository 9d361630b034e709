/**
 Which refusal belongs to which fault of a prepared batch inside the store transaction: on a valid index every
 error the transaction can raise, and exactly when (server/chain-indexer-store.js:191-313).
 */
module StoreRefusals {
  import opened Wrappers
  import opened Sorting
  import opened ChainTypes
  import opened IndexerCore
  import opened IndexerStore
  import opened FinalizedIndex
  import opened IndexerInvariant
  import opened IndexerSuccess

  // ---------------------------------------------------------------- planning

  /** The batch equals, or names as parent, some stored block within reach of the checkpoint. */
  ghost predicate ReachesBack(t: Tables, p: Prepared)
    requires t.checkpoint.Some?
  {
    exists n :: n in t.blocks && t.checkpoint.value.number <= n + p.maxDepth && VouchedFor(t.blocks, p.blocks, n)
  }

  lemma {:induction false} HighestOf(blocks: map<nat, Block>, s: seq<Block>, n: nat, hi: nat) returns (a: nat)
    requires n in blocks && VouchedFor(blocks, s, n) && forall m :: m in blocks ==> m <= hi
    ensures n <= a && HighestVouched(blocks, s, a)
    decreases hi - n
  {
    hide VouchedFor;
    if m :| m in blocks && n < m && VouchedFor(blocks, s, m) {
      a := HighestOf(blocks, s, m, hi);
    } else {
      a := n;
    }
  }

  lemma NoneInReach(contract: Address, t: Tables, lo: nat, p: Prepared)
    requires ValidIndex(contract, t, lo) && t.checkpoint.Some? && PreparedOk(contract, p)
    requires t.checkpoint.value.number <= p.tip.number && !ReachesBack(t, p)
    ensures PlanStore(t, p) == Failure(CommonAncestorNotFound)
  {
    hide ReorgPlan, Holds, Named, EventsInBlocks, KeyedEvents, UniqueHashes, DistinctKeys, Rows, SortedHeaders;
    var current := t.checkpoint.value;
    var lower := LowerBound(current.number, p.maxDepth);
    var rows := Tail(t, p);
    TipOfChain(p.blocks);
    TailIsChain(t.blocks, lower, lo, current.number);
    ChainHeadersAreSorted(rows);
    ChainHeadersAreSorted(p.blocks);
    CheckpointHeld(t.blocks, lower, current);
    forall n: nat, h: Hash
      ensures !(Holds(Headers(rows), n, h) && Named(Headers(p.blocks), n, h))
    {
      HeadersHold(t.blocks, lower, current.number, n, h);
      HeadersNamed(p.blocks, n, h);
    }
    NoAncestorIff(Header(current.number, current.hash, rows[|rows| - 1].parent), Headers(rows), Headers(p.blocks),
                  p.maxDepth);
  }

  /**
   On a valid index planning refuses a batch that ends below the checkpoint as stale, one that reaches no stored
   block for want of an ancestor, and no other.
   */
  lemma StorePlanRefusals(contract: Address, t: Tables, lo: nat, p: Prepared)
    requires ValidIndex(contract, t, lo) && t.checkpoint.Some? && PreparedOk(contract, p)
    ensures var r := PlanStore(t, p); var stale := p.tip.number < t.checkpoint.value.number;
      && (r == Failure(StaleCheckpoint) <==> stale)
      && (r == Failure(CommonAncestorNotFound) <==> !stale && !ReachesBack(t, p))
      && (r.Success? <==> !stale && ReachesBack(t, p))
      && (!stale && ReachesBack(t, p) ==> exists a :: Splices(t, p, a))
  {
    hide PlanTail, PlanWrites, EventsInBlocks, KeyedEvents, UniqueHashes, Rows, Linked, WellNumbered, ChainOf,
      VouchedFor;
    if t.checkpoint.value.number <= p.tip.number {
      if ReachesBack(t, p) {
        var n :| n in t.blocks && t.checkpoint.value.number <= n + p.maxDepth && VouchedFor(t.blocks, p.blocks, n);
        var a := HighestOf(t.blocks, p.blocks, n, t.checkpoint.value.number);
        assert Splices(t, p, a);
        PlanSucceeds(contract, t, lo, p, a);
      } else {
        NoneInReach(contract, t, lo, p);
      }
    }
  }

  lemma {:induction false} NoRows(blocks: map<nat, Block>, lo: nat, hi: int)
    requires forall n :: n in blocks ==> n < lo || hi < n
    ensures Rows(blocks, lo, hi) == []
    decreases hi + 1 - lo
  {
    if lo <= hi {
      NoRows(blocks, lo, hi - 1);
    }
  }

  /** A checkpoint with no stored block in reach below it is refused as invalid, whatever the batch. */
  lemma NoTailIsRefused(t: Tables, p: Prepared)
    requires t.checkpoint.Some? && t.checkpoint.value.number <= p.tip.number
    requires forall n :: n in t.blocks && n <= t.checkpoint.value.number ==> n + p.maxDepth < t.checkpoint.value.number
    ensures PlanStore(t, p) == Failure(InvalidInput)
  {
    hide Rows, ReorgPlan, Headers, PlanWrites;
    var current := t.checkpoint.value.number;
    NoRows(t.blocks, LowerBound(current, p.maxDepth), current);
  }

  /** Headers are resupplied exactly when a block of the batch bears each of them. */
  lemma {:induction false} ResupplyRefusal(blocks: seq<Block>, headers: seq<Header>)
    ensures var r := Resupply(blocks, headers);
      && (r.Success? <==> forall h :: h in headers ==> Supplied(blocks, h.number, h.hash))
      && (r.Failure? ==> r.error == ReplayBlockNotSupplied)
  {
    if headers != [] {
      var n := |headers| - 1;
      ResupplyRefusal(blocks, headers[..n]);
      FindMember(blocks, headers[n]);
      assert headers == headers[..n] + [headers[n]];
    }
  }

  // ---------------------------------------------------------------- writing

  /** A block of the batch above height `a` bears the hash of a block kept below, or of another one above. */
  ghost predicate HashTaken(blocks: map<nat, Block>, s: seq<Block>, a: nat) {
    || (exists n, i :: n in blocks && n <= a && 0 <= i < |s| && s[i].number > a && blocks[n].hash == s[i].hash)
    || (exists i, j :: 0 <= i < j < |s| && s[i].number > a && s[j].number > a && s[i].hash == s[j].hash)
  }

  /** The batch does not begin below the index, and repeats the stored blocks up to height `a`. */
  ghost predicate Repeats(blocks: map<nat, Block>, s: seq<Block>, a: nat)
    requires s != []
  {
    forall n :: s[0].number <= n <= a && n < s[0].number + |s| ==> n in blocks && blocks[n] == s[n - s[0].number]
  }

  lemma FreshIffNotTaken(kept: map<nat, Block>, blocks: map<nat, Block>, s: seq<Block>, a: nat)
    requires s != [] && ChainOf(s) && s[0].number <= a + 1 <= s[0].number + |s|
    requires forall n :: n in kept <==> n in blocks && n <= a
    requires forall n :: n in kept ==> kept[n] == blocks[n]
    ensures FreshRows(kept, s[a + 1 - s[0].number..]) <==> !HashTaken(blocks, s, a)
  {
    TipOfChain(s);
    var k := a + 1 - s[0].number;
    var rows := s[k..];
    assert forall i :: 0 <= i < |rows| ==> rows[i] == s[k + i] && rows[i].number == a + 1 + i;
    if FreshRows(kept, rows) {
      forall n, i | n in blocks && n <= a && 0 <= i < |s| && s[i].number > a
        ensures blocks[n].hash != s[i].hash
      {
        assert rows[i - k] == s[i];
      }
      forall i, j | 0 <= i < j < |s| && s[i].number > a && s[j].number > a
        ensures s[i].hash != s[j].hash
      {
        assert rows[i - k] == s[i] && rows[j - k] == s[j];
      }
    }
    if !HashTaken(blocks, s, a) {
      forall i, j | 0 <= i < j < |rows|
        ensures rows[i].number != rows[j].number && rows[i].hash != rows[j].hash
      {
        assert rows[i] == s[k + i] && rows[j] == s[k + j];
      }
    }
  }

  /** The last row, inserted into `front`, has a height and a hash that none of the others have. */
  lemma LastRowWasFresh(blocks: map<nat, Block>, rows: seq<Block>, front: map<nat, Block>)
    requires rows != [] && FreshRows(blocks, rows[..|rows| - 1])
    requires InsertBlock(front, rows[|rows| - 1]).Some?
    requires rows[|rows| - 1].number !in blocks
    requires forall i :: 0 <= i < |rows| - 1 ==> rows[i].number != rows[|rows| - 1].number
    requires forall n :: n in front ==>
      (n in blocks && front[n] == blocks[n]) || (front[n] in rows[..|rows| - 1] && front[n].number == n)
    requires forall n :: n in blocks ==> n in front && front[n] == blocks[n]
    requires forall i :: 0 <= i < |rows| - 1 ==> rows[i].number in front && front[rows[i].number] == rows[i]
    ensures FreshRows(blocks, rows)
  {
    var m := |rows| - 1;
    assert forall i :: 0 <= i < m ==> rows[..m][i] == rows[i];
    assert rows[m].number !in front;
  }

  /** Rows with new heights are inserted only if their hashes are new, too. */
  lemma {:induction false} InsertedRowsWereFresh(blocks: map<nat, Block>, rows: seq<Block>)
    requires InsertBlocks(blocks, rows).Some?
    requires forall i :: 0 <= i < |rows| ==> rows[i].number !in blocks
    requires forall i, j :: 0 <= i < j < |rows| ==> rows[i].number != rows[j].number
    ensures FreshRows(blocks, rows)
  {
    if rows != [] {
      var m := |rows| - 1;
      hide FreshRows;
      InsertedRowsWereFresh(blocks, rows[..m]);
      FreshRowsInsert(blocks, rows[..m]);
      LastRowWasFresh(blocks, rows, InsertBlocks(blocks, rows[..m]).value);
    }
  }

  /** What inserting the blocks of a batch above `a` on those kept up to `a` comes to, and what is read back. */
  lemma BlockWriteRefusals(kept: map<nat, Block>, blocks: map<nat, Block>, s: seq<Block>, a: nat)
    requires s != [] && ChainOf(s) && s[0].number <= a + 1 <= s[0].number + |s| && WellNumbered(kept)
    requires forall n :: n in kept <==> n in blocks && n <= a
    requires forall n :: n in kept ==> kept[n] == blocks[n]
    ensures var r := InsertBlocks(kept, s[a + 1 - s[0].number..]);
      && (r.None? <==> HashTaken(blocks, s, a))
      && (r.Some? ==> (Rows(r.value, s[0].number, s[|s| - 1].number) == s <==> Repeats(blocks, s, a)))
  {
    hide Rows, InsertBlocks, HashTaken, FreshRows, ChainOf;
    TipOfChain(s);
    var k := a + 1 - s[0].number;
    var rows := s[k..];
    assert forall i :: 0 <= i < |rows| ==> rows[i] == s[k + i] && rows[i].number == a + 1 + i;
    FreshIffNotTaken(kept, blocks, s, a);
    if InsertBlocks(kept, rows).Some? {
      InsertedRowsWereFresh(kept, rows);
    }
    if !HashTaken(blocks, s, a) {
      FreshRowsInsert(kept, rows);
      var r := InsertBlocks(kept, rows).value;
      if Rows(r, s[0].number, s[|s| - 1].number) == s {
        ReadBackRepeats(kept, blocks, s, a, r);
      }
      if Repeats(blocks, s, a) {
        RepeatsReadBack(kept, blocks, s, a, r);
      }
    }
  }

  /** `r` is what was kept and the rows, each at its height. */
  ghost predicate Inserted(kept: map<nat, Block>, rows: seq<Block>, r: map<nat, Block>) {
    && (forall n :: n in r ==> (n in kept && r[n] == kept[n]) || (r[n] in rows && r[n].number == n))
    && (forall n :: n in kept ==> n in r && r[n] == kept[n])
    && (forall i :: 0 <= i < |rows| ==> rows[i].number in r && r[rows[i].number] == rows[i])
  }

  lemma ReadBackRepeats(kept: map<nat, Block>, blocks: map<nat, Block>, s: seq<Block>, a: nat, r: map<nat, Block>)
    requires s != [] && ChainOf(s) && s[0].number <= a + 1 <= s[0].number + |s| && WellNumbered(kept)
    requires forall n :: n in kept <==> n in blocks && n <= a
    requires forall n :: n in kept ==> kept[n] == blocks[n]
    requires Inserted(kept, s[a + 1 - s[0].number..], r)
    requires Rows(r, s[0].number, s[|s| - 1].number) == s
    ensures Repeats(blocks, s, a)
  {
    hide Rows, ChainOf, Inserted;
    TipOfChain(s);
    var first := s[0].number;
    var rows := s[a + 1 - first..];
    WellInserted(kept, rows, r);
    RowsMatch(r, s);
    forall n | first <= n <= a && n < first + |s|
      ensures n in blocks && blocks[n] == s[n - first]
    {
      assert n in r && r[n] == s[n - first];
      KeptBelow(kept, s, a, r, n);
    }
  }

  lemma WellInserted(kept: map<nat, Block>, rows: seq<Block>, r: map<nat, Block>)
    requires Inserted(kept, rows, r) && WellNumbered(kept)
    ensures forall n :: n in r ==> r[n].number == n
  {
  }

  lemma RowsAreAbove(s: seq<Block>, a: nat)
    requires s != [] && ChainOf(s) && s[0].number <= a + 1 <= s[0].number + |s|
    ensures forall b :: b in s[a + 1 - s[0].number..] ==> b.number > a
  {
    TipOfChain(s);
    var k := a + 1 - s[0].number;
    forall b | b in s[k..]
      ensures b.number > a
    {
      var i :| 0 <= i < |s[k..]| && s[k..][i] == b;
      assert s[k..][i] == s[k + i];
    }
  }

  lemma KeptBelow(kept: map<nat, Block>, s: seq<Block>, a: nat, r: map<nat, Block>, n: nat)
    requires s != [] && ChainOf(s) && s[0].number <= a + 1 <= s[0].number + |s|
    requires Inserted(kept, s[a + 1 - s[0].number..], r) && n in r && n <= a
    ensures n in kept && r[n] == kept[n]
  {
    hide ChainOf;
    RowsAreAbove(s, a);
  }

  lemma RepeatsReadBack(kept: map<nat, Block>, blocks: map<nat, Block>, s: seq<Block>, a: nat, r: map<nat, Block>)
    requires s != [] && ChainOf(s) && s[0].number <= a + 1 <= s[0].number + |s| && WellNumbered(kept)
    requires forall n :: n in kept <==> n in blocks && n <= a
    requires forall n :: n in kept ==> kept[n] == blocks[n]
    requires Inserted(kept, s[a + 1 - s[0].number..], r)
    requires Repeats(blocks, s, a)
    ensures Rows(r, s[0].number, s[|s| - 1].number) == s
  {
    hide Rows;
    TipOfChain(s);
    var first, k := s[0].number, a + 1 - s[0].number;
    var rows := s[k..];
    forall i | 0 <= i < |s|
      ensures s[i].number in r && r[s[i].number] == s[i]
    {
      if i < k {
        assert blocks[first + i] == s[i];
      } else {
        assert rows[i - k] == s[i];
      }
    }
    RowsReadBack(r, s);
  }

  /** The events kept and those of the batch read back as the batch's exactly when they fit. */
  lemma EventWriteRefusals(kept: map<EventKey, Log>, logs: seq<Log>, first: nat, tip: nat, a: nat)
    requires KeyedEvents(kept) && DistinctKeys(logs) && a <= tip
    requires forall k :: k in kept ==> kept[k].blockNumber <= a
    requires forall log :: log in logs ==> first <= log.blockNumber <= tip
    ensures EventsBetween(InsertEvents(kept, logs), first, tip) == Elements(logs) <==> EventsFit(kept, logs, first, a)
  {
    var r := InsertEvents(kept, logs);
    InsertEventsMeans(kept, logs);
    if EventsFit(kept, logs, first, a) {
      EventsWriteSucceeds(kept, logs, first, tip, a);
    }
    if EventsBetween(r, first, tip) == Elements(logs) {
      forall k | k in kept
        ensures if first <= kept[k].blockNumber then kept[k] in logs else forall log :: log in logs ==> KeyOf(log) != k
      {
        if first <= kept[k].blockNumber {
          assert kept[k] in EventsBetween(r, first, tip);
          assert kept[k] in Elements(logs);
        } else {
          forall log | log in logs
            ensures KeyOf(log) != k
          {
            assert log in Elements(logs);
            var m :| m in r && first <= r[m].blockNumber <= tip && r[m] == log;
          }
        }
      }
    }
  }

  /**
   A batch that splices onto the block at height `a` of a valid index is refused for a hash that is taken, for
   blocks that do not read back as supplied, or for events that do not, in this order; otherwise it is stored.
   */
  lemma CommitRefusals(contract: Address, t: Tables, lo: nat, p: Prepared, a: nat)
    requires ValidIndex(contract, t, lo) && t.checkpoint.Some? && PreparedOk(contract, p) && Splices(t, p, a)
    ensures var r := Commit(t, p); var taken := HashTaken(t.blocks, p.blocks, a);
      var repeats := Repeats(t.blocks, p.blocks, a); var fit := EventsFit(t.events, p.logs, p.blocks[0].number, a);
      && (r == Failure(UniqueViolation) <==> taken)
      && (r == Failure(StoredBlockMismatch) <==> !taken && !repeats)
      && (r == Failure(StoredEventMismatch) <==> !taken && repeats && !fit)
      && (r.Success? <==> !taken && repeats && fit)
  {
    hide PlanStore, Rows, InsertBlocks, InsertEvents, EventsBetween, EventsInBlocks, DistinctKeys, EventsFit,
      BlocksBelow, EventsBelow, Linked, WellNumbered, UniqueHashes, Splices, HighestVouched, HashTaken, Repeats;
    PlanSucceeds(contract, t, lo, p, a);
    TipOfChain(p.blocks);
    var plan := PlanAt(t.checkpoint.value, p, a);
    var keptBlocks, keptEvents := BlocksBelow(t.blocks, plan.deleteFrom), EventsBelow(t.events, plan.deleteFrom);
    KeptBlocks(t.blocks, plan.deleteFrom, a);
    KeptEvents(contract, t, lo, p.logs, p.blocks[0].number, plan.deleteFrom, a);
    BlockWriteRefusals(keptBlocks, t.blocks, p.blocks, a);
    LogsAreInRange(contract, p);
    EventWriteRefusals(keptEvents, p.logs, p.blocks[0].number, p.tip.number, a);
  }

  lemma KeptEvents(contract: Address, t: Tables, lo: nat, logs: seq<Log>, first: nat, deleteFrom: Option<nat>, a: nat)
    requires ValidIndex(contract, t, lo) && t.checkpoint.Some? && a <= t.checkpoint.value.number
    requires deleteFrom == if a == t.checkpoint.value.number then None else Some(a + 1)
    ensures var kept := EventsBelow(t.events, deleteFrom);
      && KeyedEvents(kept) && (EventsFit(kept, logs, first, a) <==> EventsFit(t.events, logs, first, a))
      && forall k :: k in kept ==> kept[k].blockNumber <= a
  {
    var kept := EventsBelow(t.events, deleteFrom);
    assert forall k :: k in kept <==> k in t.events && t.events[k].blockNumber <= a;
    if EventsFit(kept, logs, first, a) {
      forall k | k in t.events && t.events[k].blockNumber <= a
        ensures if first <= t.events[k].blockNumber then t.events[k] in logs
                else forall log :: log in logs ==> KeyOf(log) != k
      {
        assert k in kept && kept[k] == t.events[k];
      }
    }
    if EventsFit(t.events, logs, first, a) {
      KeptEventsFit(contract, t, lo, logs, first, deleteFrom, a);
    }
  }

  /** The first batch is refused for a hash that is in it twice, and for nothing else. */
  lemma FirstCommitRefusals(contract: Address, p: Prepared)
    requires PreparedOk(contract, p)
    ensures Commit(EMPTY, p) == Failure(UniqueViolation) <==>
      exists i, j :: 0 <= i < j < |p.blocks| && p.blocks[i].hash == p.blocks[j].hash
    ensures Commit(EMPTY, p).Success? || Commit(EMPTY, p) == Failure(UniqueViolation)
  {
    hide Rows, InsertEvents, EventsBetween, DistinctKeys, InsertBlocks, FreshRows;
    FirstCommitSucceedsIff(contract, p);
    assert BlocksBelow(EMPTY.blocks, None) == map[];
    if InsertBlocks(map[], p.blocks).Some? {
      TipOfChain(p.blocks);
      InsertedRowsWereFresh(map[], p.blocks);
      FreshHashes(p.blocks);
    }
  }

  lemma FreshHashes(s: seq<Block>)
    requires FreshRows(map[], s)
    ensures forall i, j :: 0 <= i < j < |s| ==> s[i].hash != s[j].hash
  {
  }
}

/**
 A client following cursors while batches are being stored
 (server/chain-indexer-raid-history.js:150-224, server/chain-indexer-store.js:307-313).
 */
module HistoryRuns {
  import opened Wrappers
  import opened Sorting
  import opened ChainTypes
  import opened IndexerStore
  import opened FinalizedIndex
  import opened IndexerInvariant
  import opened IndexerRefinement
  import opened EventDecoding
  import opened History

  datatype Phase = Reading | Finished | Stopped(error: HistoryError)

  datatype Client = Client(cursor: Option<Cursor>, received: seq<Event>, phase: Phase)

  datatype System = System(tables: Tables, client: Client)

  datatype Step =
    | Store(batch: Batch)
    | Fetch(limit: int)

  const NEW_CLIENT := Client(None, [], Reading)

  /** The client's next request: it keeps the events of a page and its cursor, and stops at an error. */
  function FetchPage(kind: Kind, scope: Scope, wallet: Address, t: Tables, c: Client, limit: int): Client
    requires KeyedEvents(t.events)
  {
    if !c.phase.Reading? then c
    else
      match ReadPage(kind, t, scope, wallet, c.cursor, limit)
      case Failure(e) => c.(phase := Stopped(e))
      case Success(NoStoredReplay) => c.(phase := Finished)
      case Success(StoredEvents(_, events, next)) =>
        Client(next, c.received + events, if next.None? then Finished else Reading)
  }

  lemma ValidIsKeyed(contract: Address, t: Tables, lo: nat)
    requires ValidIndex(contract, t, lo)
    ensures KeyedEvents(t.events) && InRangeEvents(t)
  {
  }

  /** The index is valid from height `lo` and holds a checkpoint. */
  ghost predicate Live(contract: Address, t: Tables, lo: nat) {
    ValidIndex(contract, t, lo) && t.checkpoint.Some?
  }

  /** The index is empty, or valid from some height. */
  ghost predicate Usable(contract: Address, t: Tables) {
    t == EMPTY || exists lo :: Live(contract, t, lo)
  }

  lemma UsableIsKeyed(contract: Address, t: Tables)
    requires Usable(contract, t)
    ensures KeyedEvents(t.events) && InRangeEvents(t)
  {
    if lo :| Live(contract, t, lo) {
      ValidIsKeyed(contract, t, lo);
    }
  }

  lemma StoreKeepsUsable(contract: Address, t: Tables, batch: Batch)
    requires Usable(contract, t)
    ensures Usable(contract, After(contract, t, batch))
  {
    hide After, ValidIndex;
    if t == EMPTY {
      FirstStore(contract, batch);
      var first := After(contract, EMPTY, batch);
      if lo :| ValidIndex(contract, first, lo) && first.checkpoint.Some? {
        assert Live(contract, first, lo);
      }
    } else {
      var lo :| Live(contract, t, lo);
      StoreKeepsValid(contract, t, lo, batch);
      assert Live(contract, After(contract, t, batch), lo);
    }
  }

  /** Any interleaving of store calls and page requests, from an index that may still be empty. */
  ghost function RunSystem(kind: Kind, scope: Scope, wallet: Address, s: System, steps: seq<Step>): (r: System)
    requires Usable(scope.contract, s.tables)
    ensures Usable(scope.contract, r.tables)
  {
    if steps == [] then s
    else
      var front := RunSystem(kind, scope, wallet, s, steps[..|steps| - 1]);
      UsableIsKeyed(scope.contract, front.tables);
      match steps[|steps| - 1]
      case Store(batch) =>
        StoreKeepsUsable(scope.contract, front.tables, batch);
        front.(tables := After(scope.contract, front.tables, batch))
      case Fetch(limit) =>
        front.(client := FetchPage(kind, scope, wallet, front.tables, front.client, limit))
  }

  ghost predicate HonestSteps(w: World, steps: seq<Step>) {
    forall step :: step in steps && step.Store? ==> Honest(w, step.batch)
  }

  /** The tables after the first `j` steps. */
  ghost function Moment(kind: Kind, scope: Scope, wallet: Address, s: System, steps: seq<Step>,
          j: nat): (t: Tables)
    requires Usable(scope.contract, s.tables) && j <= |steps|
    ensures Usable(scope.contract, t) && KeyedEvents(t.events)
  {
    var t := RunSystem(kind, scope, wallet, s, steps[..j]).tables;
    UsableIsKeyed(scope.contract, t);
    t
  }

  /** Once a batch is stored, the index stays valid from the height at which that one began. */
  lemma {:induction false} StartStays(kind: Kind, scope: Scope, wallet: Address, s: System, steps: seq<Step>, j: nat,
          lo: nat)
    requires Usable(scope.contract, s.tables) && j <= |steps|
    requires Live(scope.contract, Moment(kind, scope, wallet, s, steps, j), lo)
    ensures Live(scope.contract, RunSystem(kind, scope, wallet, s, steps).tables, lo)
  {
    hide After, FetchPage, ValidIndex;
    if j == |steps| {
      assert steps[..j] == steps;
    } else {
      var n := |steps| - 1;
      assert steps[..n][..j] == steps[..j];
      StartStays(kind, scope, wallet, s, steps[..n], j, lo);
      var front := RunSystem(kind, scope, wallet, s, steps[..n]);
      if steps[n].Store? {
        StoreKeepsValid(scope.contract, front.tables, lo, steps[n].batch);
      }
    }
  }

  /** An empty index is exact. */
  lemma EmptyIsExact(w: World)
    ensures Exact(w, EMPTY)
  {
  }

  lemma AnyStoreKeepsExact(w: World, contract: Address, t: Tables, batch: Batch)
    requires Usable(contract, t) && Coherent(w) && Exact(w, t) && Honest(w, batch)
    ensures Exact(w, After(contract, t, batch))
  {
    hide Exact, Coherent, Honest, ValidIndex, StoreTables;
    if t == EMPTY {
      if StoreTables(contract, EMPTY, batch).Success? {
        FirstStoreIsExact(w, contract, batch);
      }
    } else {
      var lo :| Live(contract, t, lo);
      StoreKeepsExact(w, contract, t, lo, batch);
    }
  }

  lemma {:induction false} RunStaysExact(w: World, kind: Kind, scope: Scope, wallet: Address, s: System,
          steps: seq<Step>)
    requires Usable(scope.contract, s.tables) && Coherent(w) && Exact(w, s.tables) && HonestSteps(w, steps)
    ensures Exact(w, RunSystem(kind, scope, wallet, s, steps).tables)
  {
    hide Exact, Coherent, Honest, After, FetchPage, Usable;
    if steps != [] {
      var n := |steps| - 1;
      RunStaysExact(w, kind, scope, wallet, s, steps[..n]);
      var front := RunSystem(kind, scope, wallet, s, steps[..n]);
      UsableIsKeyed(scope.contract, front.tables);
      if steps[n].Store? {
        assert steps[n] in steps;
        AnyStoreKeepsExact(w, scope.contract, front.tables, steps[n].batch);
      }
    }
  }

  /** What a client holds is the first `k` rows of the wallet in tables `t`, all of them once it finished. */
  ghost predicate HoldsFirst(kind: Kind, scope: Scope, wallet: Address, t: Tables, c: Client, k: nat)
    requires KeyedEvents(t.events)
  {
    && k <= |AllRows(kind, t, wallet)| && AllJoined(t, AllRows(kind, t, wallet)[..k])
    && DecodeAll(kind, t, wallet, AllRows(kind, t, wallet)[..k]) == Success(c.received)
    && (c.phase.Reading? ==> ResumesAt(kind, t, scope, wallet, c.cursor, k))
    && (c.phase.Finished? ==> k == |AllRows(kind, t, wallet)|)
  }

  lemma RowsJoined(kind: Kind, t: Tables, wallet: Address, k: nat)
    requires KeyedEvents(t.events) && k <= |AllRows(kind, t, wallet)|
    ensures AllJoined(t, AllRows(kind, t, wallet)[..k])
    ensures AllJoined(t, AllRows(kind, t, wallet)[k..])
  {
    var all := AllRows(kind, t, wallet);
    assert forall row :: row in all ==> row in Matching(kind, t, wallet);
    assert forall row :: row in all[..k] || row in all[k..] ==> row in all;
  }

  lemma NewClientHoldsNothing(kind: Kind, scope: Scope, wallet: Address, t: Tables)
    requires KeyedEvents(t.events)
    ensures HoldsFirst(kind, scope, wallet, t, NEW_CLIENT, 0)
  {
    hide Joined, Decode;
    RowsJoined(kind, t, wallet, 0);
    assert AllRows(kind, t, wallet)[..0] == [];
  }

  lemma TakeMore(kind: Kind, t: Tables, wallet: Address, k: nat, more: nat, received: seq<Event>, events: seq<Event>)
    requires KeyedEvents(t.events) && k + more <= |AllRows(kind, t, wallet)|
    requires AllJoined(t, AllRows(kind, t, wallet)[..k])
    requires DecodeAll(kind, t, wallet, AllRows(kind, t, wallet)[..k]) == Success(received)
    requires AllJoined(t, AllRows(kind, t, wallet)[k..][..more])
    requires DecodeAll(kind, t, wallet, AllRows(kind, t, wallet)[k..][..more]) == Success(events)
    ensures AllJoined(t, AllRows(kind, t, wallet)[..k + more])
    ensures DecodeAll(kind, t, wallet, AllRows(kind, t, wallet)[..k + more]) == Success(received + events)
  {
    hide Joined, Decode, DecodeAll, AllJoined, AllRows;
    var all := AllRows(kind, t, wallet);
    DecodeAppend(kind, t, wallet, all[..k], all[k..][..more]);
    assert all[..k] + all[k..][..more] == all[..k + more];
  }

  /** A page that arrives continues the rows already held, and its cursor resumes behind it. */
  lemma PageExtends(kind: Kind, scope: Scope, wallet: Address, t: Tables, c: Client, limit: int,
          k: nat) returns (m: nat)
    requires KeyedEvents(t.events) && InRangeEvents(t) && t.checkpoint.Some?
    requires wallet < ADDRESSES && 1 <= limit <= MAX_PAGE_SIZE
    requires c.phase.Reading? && HoldsFirst(kind, scope, wallet, t, c, k)
    requires ReadPage(kind, t, scope, wallet, c.cursor, limit).Success?
    ensures var page := ReadPage(kind, t, scope, wallet, c.cursor, limit).value;
      && m <= |AllRows(kind, t, wallet)| && AllJoined(t, AllRows(kind, t, wallet)[..m]) && page.StoredEvents?
      && DecodeAll(kind, t, wallet, AllRows(kind, t, wallet)[..m]) == Success(c.received + page.events)
      && (page.next.Some? ==> ResumesAt(kind, t, scope, wallet, page.next, m))
      && (page.next.None? ==> m == |AllRows(kind, t, wallet)|)
  {
    hide PageOf, DecodeAll, AllJoined, AllRows, InRangeEvents, Joined, KeyedEvents, ReadPage;
    var all := AllRows(kind, t, wallet);
    PageResumes(kind, t, scope, wallet, c.cursor, limit, k);
    PageSplits(kind, t, scope, wallet, t.checkpoint.value, all[k..], limit);
    var page := ReadPage(kind, t, scope, wallet, c.cursor, limit).value;
    if page.next.Some? {
      m := k + limit;
      assert all[k..][limit - 1] == all[k + limit - 1];
    } else {
      m := |all|;
      assert all[k..][..|all| - k] == all[k..];
    }
    TakeMore(kind, t, wallet, k, m - k, c.received, page.events);
  }

  /** One request against the tables the client's rows came from. */
  lemma FetchAdvances(kind: Kind, scope: Scope, wallet: Address, t: Tables, c: Client, limit: int,
          k: nat) returns (m: nat)
    requires KeyedEvents(t.events) && InRangeEvents(t) && t.checkpoint.Some?
    requires c.phase.Reading? && HoldsFirst(kind, scope, wallet, t, c, k)
    ensures HoldsFirst(kind, scope, wallet, t, FetchPage(kind, scope, wallet, t, c, limit), m)
  {
    hide PageOf, DecodeAll, AllJoined, AllRows, InRangeEvents, KeyedEvents, ResumesAt, QueryRows;
    m := k;
    if ReadPage(kind, t, scope, wallet, c.cursor, limit).Success? {
      m := PageExtends(kind, scope, wallet, t, c, limit, k);
    }
  }

  lemma OtherCheckpointStops(kind: Kind, scope: Scope, wallet: Address, t: Tables, now: Tables, c: Client, limit: int,
          k: nat)
    requires KeyedEvents(t.events) && KeyedEvents(now.events) && now.checkpoint.Some? && now.checkpoint != t.checkpoint
    requires c.phase.Reading? && c.cursor.Some? && HoldsFirst(kind, scope, wallet, t, c, k)
    ensures var r := FetchPage(kind, scope, wallet, now, c, limit);
      r.phase.Stopped? && r.received == c.received && HoldsFirst(kind, scope, wallet, t, r, k)
  {
    hide DecodeAll, AllJoined, AllRows, Joined, PageOf, QueryRows;
  }

  lemma NoRowsInEmpty(kind: Kind, wallet: Address)
    requires KeyedEvents(EMPTY.events)
    ensures AllRows(kind, EMPTY, wallet) == []
  {
    assert WeakOrder(LaterFirst);
    assert forall log :: log !in Matching(kind, EMPTY, wallet);
    StrictlySortedUnique(AllRows(kind, EMPTY, wallet), [], LaterFirst);
  }

  /** On an empty index a request ends with nothing, whatever it asks. */
  lemma NothingStoredYet(kind: Kind, scope: Scope, wallet: Address, c: Client, limit: int)
    requires KeyedEvents(EMPTY.events) && c.phase.Reading? && HoldsFirst(kind, scope, wallet, EMPTY, c, 0)
    ensures HoldsFirst(kind, scope, wallet, EMPTY, FetchPage(kind, scope, wallet, EMPTY, c, limit), 0)
  {
    hide DecodeAll, AllJoined;
    NoRowsInEmpty(kind, wallet);
  }

  /**
   In any interleaving of page requests with store calls by honest callers, there is one moment of the
   run such that what the client holds is a prefix of the wallet's events in the index at that moment,
   latest first, each once; and all of them once its cursor is null. This is so even if the checkpoint
   moved away and came back between pages. A client stopped by an error has received nothing else.
   */
  lemma {:induction false} ClientSeesOneMoment(w: World, kind: Kind, scope: Scope, wallet: Address, s: System,
          steps: seq<Step>)
    returns (j: nat, k: nat)
    requires Usable(scope.contract, s.tables) && Coherent(w) && Exact(w, s.tables) && HonestSteps(w, steps)
    requires s.client == NEW_CLIENT
    ensures j <= |steps|
    ensures HoldsFirst(kind, scope, wallet, Moment(kind, scope, wallet, s, steps, j),
                       RunSystem(kind, scope, wallet, s, steps).client, k)
  {
    hide HoldsFirst, Exact, Coherent, FetchPage, After, Honest, Usable, KeyedEvents, InRangeEvents;
    if steps == [] {
      assert steps[..0] == steps;
      j, k := 0, 0;
      NewClientHoldsNothing(kind, scope, wallet, Moment(kind, scope, wallet, s, steps, 0));
    } else {
      var n := |steps| - 1;
      assert forall step :: step in steps[..n] ==> step in steps;
      j, k := ClientSeesOneMoment(w, kind, scope, wallet, s, steps[..n]);
      assert steps[..n][..j] == steps[..j] && steps[..n][..n] == steps[..n];
      var front := RunSystem(kind, scope, wallet, s, steps[..n]);
      if steps[n].Fetch? && front.client.phase.Reading? {
        j, k := FetchKeepsMoment(w, kind, scope, wallet, s, steps[..n], steps[n].limit, j, k);
        assert steps[..n][..j] == steps[..j];
      } else {
        StillHolds(kind, scope, wallet, s, steps, j, k);
      }
    }
  }

  lemma StillHolds(kind: Kind, scope: Scope, wallet: Address, s: System, steps: seq<Step>, j: nat, k: nat)
    requires Usable(scope.contract, s.tables) && steps != [] && j < |steps|
    requires var front := RunSystem(kind, scope, wallet, s, steps[..|steps| - 1]).client;
      && (steps[|steps| - 1].Store? || !front.phase.Reading?)
      && HoldsFirst(kind, scope, wallet, Moment(kind, scope, wallet, s, steps, j), front, k)
    ensures HoldsFirst(kind, scope, wallet, Moment(kind, scope, wallet, s, steps, j),
                       RunSystem(kind, scope, wallet, s, steps).client, k)
  {
    hide HoldsFirst, After, ReadPage, Usable;
  }

  lemma FetchKeepsMoment(w: World, kind: Kind, scope: Scope, wallet: Address, s: System, front: seq<Step>,
          limit: int, j0: nat, k0: nat)
    returns (j: nat, k: nat)
    requires Usable(scope.contract, s.tables) && Coherent(w) && Exact(w, s.tables) && HonestSteps(w, front)
    requires j0 <= |front| && RunSystem(kind, scope, wallet, s, front).client.phase.Reading?
    requires HoldsFirst(kind, scope, wallet, Moment(kind, scope, wallet, s, front, j0),
                        RunSystem(kind, scope, wallet, s, front).client, k0)
    ensures j <= |front|
    ensures var now := RunSystem(kind, scope, wallet, s, front);
      && KeyedEvents(now.tables.events)
      && HoldsFirst(kind, scope, wallet, Moment(kind, scope, wallet, s, front, j),
                    FetchPage(kind, scope, wallet, now.tables, now.client, limit), k)
  {
    hide Exact, Coherent, FetchPage, ValidIndex, DecodeAll, AllJoined, AllRows, Joined, RunSystem, Honest, HonestSteps;
    var now := RunSystem(kind, scope, wallet, s, front);
    UsableIsKeyed(scope.contract, now.tables);
    assert front[..|front|] == front;
    assert Moment(kind, scope, wallet, s, front, |front|) == now.tables;
    var past := Moment(kind, scope, wallet, s, front, j0);
    if now.client.cursor.None? {
      // nothing pinned yet: this request pins the present moment
      j := |front|;
      EmptyHanded(kind, scope, wallet, past, now.tables, now.client, k0);
      if now.tables == EMPTY {
        k := 0;
        NothingStoredYet(kind, scope, wallet, now.client, limit);
      } else {
        k := FetchAdvances(kind, scope, wallet, now.tables, now.client, limit, 0);
      }
    } else {
      var lo :| Live(scope.contract, past, lo);
      StartStays(kind, scope, wallet, s, front, j0, lo);
      if now.tables.checkpoint == past.checkpoint {
        j := j0;
        SubrunIsHonest(w, front, j0);
        RunStaysExact(w, kind, scope, wallet, s, front);
        RunStaysExact(w, kind, scope, wallet, s, front[..j0]);
        HistoryLeavesNoTrace(w, scope.contract, past, now.tables, lo);
        k := FetchAdvances(kind, scope, wallet, now.tables, now.client, limit, k0);
      } else {
        j, k := j0, k0;
        OtherCheckpointStops(kind, scope, wallet, past, now.tables, now.client, limit, k0);
      }
    }
  }

  lemma SubrunIsHonest(w: World, steps: seq<Step>, j: nat)
    requires HonestSteps(w, steps) && j <= |steps|
    ensures HonestSteps(w, steps[..j])
  {
  }

  lemma EmptyHanded(kind: Kind, scope: Scope, wallet: Address, t: Tables, now: Tables, c: Client, k: nat)
    requires KeyedEvents(t.events) && KeyedEvents(now.events)
    requires c.phase.Reading? && c.cursor.None? && HoldsFirst(kind, scope, wallet, t, c, k)
    ensures HoldsFirst(kind, scope, wallet, now, c, 0)
  {
    hide Joined, Decode;
    assert AllRows(kind, t, wallet)[..0] == [] && AllRows(kind, now, wallet)[..0] == [];
  }

  // ---------------------------------------------------------------- what a finished client holds

  /** The chain a checkpoint stands for, down to the first stored height. */
  ghost function ChainBelow(w: World, t: Tables, lo: nat): map<nat, Block>
    requires t.checkpoint.Some? && lo <= t.checkpoint.value.number
  {
    Ancestry(w, t.checkpoint.value.number, t.checkpoint.value.hash, lo)
  }

  lemma StartsBelow(contract: Address, t: Tables, lo: nat)
    requires Live(contract, t, lo)
    ensures lo <= t.checkpoint.value.number
  {
  }

  /** The rows of a wallet are exactly the matching logs of the canonical chain. */
  lemma RowsAreTheChain(w: World, kind: Kind, contract: Address, wallet: Address, t: Tables, lo: nat, log: Log)
    requires Live(contract, t, lo) && KeyedEvents(t.events) && Exact(w, t)
    ensures lo <= t.checkpoint.value.number
    ensures log in AllRows(kind, t, wallet) <==> LogOfStored(w, ChainBelow(w, t, lo), log) && Selects(kind, wallet, log)
  {
    hide Selects, TrueBlock, Linked, UniqueHashes, LogOfStored, Ancestry;
    BlocksAreAncestry(w, t.blocks, lo, t.checkpoint.value.number);
    assert log in AllRows(kind, t, wallet) <==> log in Matching(kind, t, wallet);
    assert Recorded(t, log) ==> Joined(t, log);
    assert log in Matching(kind, t, wallet) <==> Recorded(t, log) && Selects(kind, wallet, log);
    assert Recorded(t, log) <==> LogOfStored(w, t.blocks, log);
  }

  /** `log` is a log of the chain and encodes `e` as the wallet sees it. */
  ghost predicate ChainEncodes(w: World, chain: map<nat, Block>, kind: Kind, wallet: Address, log: Log, e: Event) {
    exists n :: n in chain && log in w.logs(chain[n].hash) && EncodesEvent(kind, log, chain[n].time, wallet, e)
  }

  /** `received` are the events these logs of the chain encode, latest first; no log that encodes one is missing. */
  ghost predicate EventsOfChain(w: World, chain: map<nat, Block>, kind: Kind, wallet: Address, logs: seq<Log>,
          received: seq<Event>) {
    && |logs| == |received| && StrictlySorted(logs, LaterFirst)
    && (forall i :: 0 <= i < |logs| ==> ChainEncodes(w, chain, kind, wallet, logs[i], received[i]))
    && (forall log, e :: ChainEncodes(w, chain, kind, wallet, log, e) ==> log in logs)
  }

  /** The client holds all of the wallet's events of the chain under the checkpoint of `t`, valid from `lo`. */
  ghost predicate HoldsTheChain(w: World, kind: Kind, contract: Address, wallet: Address, t: Tables, lo: nat,
          received: seq<Event>) {
    && Live(contract, t, lo) && lo <= t.checkpoint.value.number
    && exists logs :: EventsOfChain(w, ChainBelow(w, t, lo), kind, wallet, logs, received)
  }

  /** A log of a stored block of an exact index is joined with that block, and mined when it was. */
  lemma ChainLogIsJoined(w: World, contract: Address, t: Tables, lo: nat, n: nat, log: Log)
    requires Live(contract, t, lo) && Exact(w, t) && Coherent(w)
    requires n in t.blocks && log in w.logs(t.blocks[n].hash)
    ensures Recorded(t, log) && Joined(t, log) && log.blockNumber == n
  {
    assert LogOfStored(w, t.blocks, log);
    assert OfBlock(t.blocks, t.events[KeyOf(log)]);
    assert TrueBlock(w, t.blocks[n]) && TrueBlock(w, t.blocks[log.blockNumber]);
  }

  /** All rows, decoded, are the events of the chain. */
  lemma DecodedRowsAreTheChain(w: World, kind: Kind, contract: Address, wallet: Address, t: Tables, lo: nat,
          received: seq<Event>)
    requires Live(contract, t, lo) && KeyedEvents(t.events) && Exact(w, t) && Coherent(w)
    requires AllJoined(t, AllRows(kind, t, wallet))
    requires DecodeAll(kind, t, wallet, AllRows(kind, t, wallet)) == Success(received)
    ensures HoldsTheChain(w, kind, contract, wallet, t, lo, received)
  {
    hide DecodeAll, Selects, TrueBlock, Linked, UniqueHashes, Ancestry, EncodesEvent, Coherent, EventsInBlocks,
      Exact, LaterFirst;
    var rows := AllRows(kind, t, wallet);
    StartsBelow(contract, t, lo);
    ChainIsStored(w, contract, t, lo);
    RowsDecodeToTheirEvents(kind, t, wallet, rows);
    forall i | 0 <= i < |rows|
      ensures ChainEncodes(w, t.blocks, kind, wallet, rows[i], received[i])
    {
      assert rows[i] in rows && Joined(t, rows[i]);
      RowsAreTheChain(w, kind, contract, wallet, t, lo, rows[i]);
      var n :| n in t.blocks && rows[i] in w.logs(t.blocks[n].hash);
      ChainLogIsJoined(w, contract, t, lo, n, rows[i]);
    }
    forall log, e | ChainEncodes(w, t.blocks, kind, wallet, log, e)
      ensures log in rows
    {
      var n :| n in t.blocks && log in w.logs(t.blocks[n].hash) && EncodesEvent(kind, log, t.blocks[n].time, wallet, e);
      ChainLogIsJoined(w, contract, t, lo, n, log);
      EncodedEventsAreRows(kind, t, wallet, log, e);
    }
    assert EventsOfChain(w, ChainBelow(w, t, lo), kind, wallet, rows, received);
  }

  lemma ChainIsStored(w: World, contract: Address, t: Tables, lo: nat)
    requires Live(contract, t, lo) && Exact(w, t)
    ensures lo <= t.checkpoint.value.number && ChainBelow(w, t, lo) == t.blocks
  {
    hide TrueBlock, Linked, UniqueHashes, Ancestry;
    BlocksAreAncestry(w, t.blocks, lo, t.checkpoint.value.number);
  }

  /**
   A client that finished holds exactly the wallet's events of one canonical chain, the one under the
   checkpoint of some moment of the run: each once, latest first. If nothing was stored at that moment it
   holds nothing.
   */
  lemma FinishedClientHasTheChain(w: World, kind: Kind, scope: Scope, wallet: Address, s: System, steps: seq<Step>)
    returns (j: nat)
    requires Usable(scope.contract, s.tables) && Coherent(w) && Exact(w, s.tables) && HonestSteps(w, steps)
    requires s.client == NEW_CLIENT && RunSystem(kind, scope, wallet, s, steps).client.phase.Finished?
    ensures j <= |steps|
    ensures var t := Moment(kind, scope, wallet, s, steps, j);
      var received := RunSystem(kind, scope, wallet, s, steps).client.received;
      if t == EMPTY then received == []
      else exists lo :: HoldsTheChain(w, kind, scope.contract, wallet, t, lo, received)
  {
    hide Exact, Coherent, Honest, ValidIndex, DecodeAll, AllJoined, Joined, Selects, RunSystem, HonestSteps, ChainBelow,
      AllRows, HoldsTheChain;
    var k;
    j, k := ClientSeesOneMoment(w, kind, scope, wallet, s, steps);
    var t := Moment(kind, scope, wallet, s, steps, j);
    var received := RunSystem(kind, scope, wallet, s, steps).client.received;
    var rows := AllRows(kind, t, wallet);
    assert rows[..k] == rows;
    if t == EMPTY {
      NoRowsYet(kind, wallet, received);
    } else {
      var lo :| Live(scope.contract, t, lo);
      SubrunIsHonest(w, steps, j);
      RunStaysExact(w, kind, scope, wallet, s, steps[..j]);
      DecodedRowsAreTheChain(w, kind, scope.contract, wallet, t, lo, received);
    }
  }

  lemma NoRowsYet(kind: Kind, wallet: Address, received: seq<Event>)
    requires KeyedEvents(EMPTY.events) && AllJoined(EMPTY, AllRows(kind, EMPTY, wallet))
    requires DecodeAll(kind, EMPTY, wallet, AllRows(kind, EMPTY, wallet)) == Success(received)
    ensures received == []
  {
    NoRowsInEmpty(kind, wallet);
  }

  /**
   So, of a fresh installation and whatever honest calls and requests come in whatever order, with nothing
   assumed about the index: what a client that finished holds.
   */
  lemma FreshClientHasTheChain(w: World, kind: Kind, scope: Scope, wallet: Address, steps: seq<Step>) returns (j: nat)
    requires Coherent(w) && HonestSteps(w, steps)
    requires RunSystem(kind, scope, wallet, System(EMPTY, NEW_CLIENT), steps).client.phase.Finished?
    ensures j <= |steps|
    ensures var s := System(EMPTY, NEW_CLIENT); var t := Moment(kind, scope, wallet, s, steps, j);
      var received := RunSystem(kind, scope, wallet, s, steps).client.received;
      if t == EMPTY then received == []
      else exists lo :: HoldsTheChain(w, kind, scope.contract, wallet, t, lo, received)
  {
    hide Coherent, Exact, HonestSteps, HoldsTheChain, RunSystem;
    EmptyIsExact(w);
    j := FinishedClientHasTheChain(w, kind, scope, wallet, System(EMPTY, NEW_CLIENT), steps);
  }
}

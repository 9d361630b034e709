/**
 Private history paging over the stored tables (server/chain-indexer-raid-history.js:78-235,
 server/chain-indexer-build-history.js:90-234). The two readers differ in the rows they select and in
 how they decode them; `Kind` stands for the difference.
 */
module History {
  import opened Wrappers
  import opened Sorting
  import opened ChainTypes
  import opened IndexerCore
  import opened IndexerStore
  import opened FinalizedIndex
  import opened IndexerInvariant
  import opened EventDecoding

  datatype Kind = Raids | Builds

  datatype Scope = Scope(chainId: nat, contract: Address)

  /** The columns rows are ordered by. */
  datatype RowKey = RowKey(blockNumber: nat, txIndex: nat, logIndex: nat, txHash: Hash)

  datatype Cursor = Cursor(version: nat, scope: Scope, wallet: Address, checkpoint: Checkpoint, key: RowKey)

  datatype Page =
    | NoStoredReplay
    | StoredEvents(checkpoint: Checkpoint, events: seq<Event>, next: Option<Cursor>)

  datatype HistoryError = InvalidWallet | InvalidLimit | InvalidCursor | CheckpointChanged | StoredHistoryCorruption

  const CURSOR_VERSION: nat := 1
  const MAX_PAGE_SIZE: nat := 50

  // ---------------------------------------------------------------- rows

  /** The WHERE clause on the topics. */
  predicate Selects(kind: Kind, wallet: Address, log: Log) {
    match kind
    case Raids =>
      && |log.topics| > 0 && log.topics[0] == RAID_RESOLVED_SELECTOR
      && ((|log.topics| > 1 && log.topics[1] == wallet) || (|log.topics| > 2 && log.topics[2] == wallet))
    case Builds =>
      && |log.topics| > 1 && log.topics[0] in {UPGRADE_STARTED_SELECTOR, BUILDING_UPGRADED_SELECTOR}
      && log.topics[1] == wallet
  }

  /** The JOIN with the canonical block of the event. */
  predicate Joined(t: Tables, log: Log) {
    log.blockNumber in t.blocks && t.blocks[log.blockNumber].hash == log.blockHash
  }

  function RowKeyOf(log: Log): RowKey {
    RowKey(log.blockNumber, log.txIndex, log.logIndex, log.txHash)
  }

  /** Row comparison `row < key` of the keyset condition. */
  predicate Below(log: Log, key: RowKey) {
    if log.blockNumber != key.blockNumber then log.blockNumber < key.blockNumber
    else if log.txIndex != key.txIndex then log.txIndex < key.txIndex
    else if log.logIndex != key.logIndex then log.logIndex < key.logIndex
    else log.txHash < key.txHash
  }

  /** ORDER BY every column, descending. */
  predicate LaterFirst(a: Log, b: Log) {
    LogBefore(b, a)
  }

  function Matching(kind: Kind, t: Tables, wallet: Address): set<Log> {
    set k | k in t.events && Joined(t, t.events[k]) && Selects(kind, wallet, t.events[k]) :: t.events[k]
  }

  lemma MatchingIsOrdered(kind: Kind, t: Tables, wallet: Address, s: set<Log>)
    requires KeyedEvents(t.events) && s <= Matching(kind, t, wallet)
    ensures TotalOn(s, LaterFirst)
  {
    assert WeakOrder(LaterFirst);
    forall x, y | x in s && y in s
      ensures x == y || LaterFirst(x, y) || LaterFirst(y, x)
    {
      assert KeyOf(x) == KeyOf(y) ==> x == y;
    }
  }

  /** All rows of a wallet, latest first. */
  function AllRows(kind: Kind, t: Tables, wallet: Address): (r: seq<Log>)
    requires KeyedEvents(t.events)
    ensures StrictlySorted(r, LaterFirst)
    ensures forall x :: x in r <==> x in Matching(kind, t, wallet)
  {
    MatchingIsOrdered(kind, t, wallet, Matching(kind, t, wallet));
    Ordered(Matching(kind, t, wallet), LaterFirst)
  }

  /** The query: the rows below the cursor's key, latest first, without the LIMIT. */
  function QueryRows(kind: Kind, t: Tables, wallet: Address, after: Option<RowKey>): (r: seq<Log>)
    requires KeyedEvents(t.events)
    ensures StrictlySorted(r, LaterFirst)
    ensures forall x :: x in r <==> x in Matching(kind, t, wallet) && (after.None? || Below(x, after.value))
  {
    var rows := set x | x in Matching(kind, t, wallet) && (after.None? || Below(x, after.value));
    MatchingIsOrdered(kind, t, wallet, rows);
    Ordered(rows, LaterFirst)
  }

  /** Keyset condition and offset agree: below the key of row `k - 1` lie exactly the rows from `k` on. */
  lemma KeysetIsOffset(kind: Kind, t: Tables, wallet: Address, k: nat)
    requires KeyedEvents(t.events) && 0 < k <= |AllRows(kind, t, wallet)|
    ensures QueryRows(kind, t, wallet, Some(RowKeyOf(AllRows(kind, t, wallet)[k - 1]))) == AllRows(kind, t, wallet)[k..]
  {
    var all := AllRows(kind, t, wallet);
    var key := RowKeyOf(all[k - 1]);
    var rest := all[k..];
    forall x
      ensures x in rest <==> x in QueryRows(kind, t, wallet, Some(key))
    {
      if x in rest {
        var i :| k <= i < |all| && all[i] == x;
        assert LaterFirst(all[k - 1], all[i]);
      }
      if x in QueryRows(kind, t, wallet, Some(key)) {
        var i :| 0 <= i < |all| && all[i] == x;
        assert i < k - 1 ==> LaterFirst(all[i], all[k - 1]);
      }
    }
    assert WeakOrder(LaterFirst);
    StrictlySortedUnique(rest, QueryRows(kind, t, wallet, Some(key)), LaterFirst);
  }

  lemma NoCursorIsEverything(kind: Kind, t: Tables, wallet: Address)
    requires KeyedEvents(t.events)
    ensures QueryRows(kind, t, wallet, None) == AllRows(kind, t, wallet)
  {
    assert WeakOrder(LaterFirst);
    StrictlySortedUnique(QueryRows(kind, t, wallet, None), AllRows(kind, t, wallet), LaterFirst);
  }

  /** On a valid index the join with the canonical blocks drops no event of the wallet. */
  lemma JoinDropsNothing(kind: Kind, contract: Address, t: Tables, lo: nat, wallet: Address, log: Log)
    requires ValidIndex(contract, t, lo)
    ensures log in Matching(kind, t, wallet) <==>
      KeyOf(log) in t.events && t.events[KeyOf(log)] == log && Selects(kind, wallet, log)
  {
    if t.checkpoint.Some? && KeyOf(log) in t.events && t.events[KeyOf(log)] == log {
      assert OfBlock(t.blocks, log);
    }
  }

  // ---------------------------------------------------------------- decoding

  function Decode(kind: Kind, t: Tables, wallet: Address, log: Log): Option<Event>
    requires Joined(t, log)
  {
    var time := t.blocks[log.blockNumber].time;
    match kind
    case Raids => DecodeRaid(log, time, wallet)
    case Builds => DecodeBuild(log, time, wallet)
  }

  predicate AllJoined(t: Tables, rows: seq<Log>) {
    forall row :: row in rows ==> Joined(t, row)
  }

  function DecodeAll(kind: Kind, t: Tables, wallet: Address, rows: seq<Log>): (r: Result<seq<Event>, HistoryError>)
    requires AllJoined(t, rows)
    ensures r.Success? ==> |r.value| == |rows|
    ensures r.Failure? ==> r.error == StoredHistoryCorruption
  {
    if rows == [] then Success([])
    else
      var n := |rows| - 1;
      assert rows == rows[..n] + [rows[n]];
      var front := DecodeAll(kind, t, wallet, rows[..n]);
      if front.Failure? then front
      else
        var last := Decode(kind, t, wallet, rows[n]);
        if last.None? then Failure(StoredHistoryCorruption) else Success(front.value + [last.value])
  }

  lemma {:induction false} DecodeAllIff(kind: Kind, t: Tables, wallet: Address, rows: seq<Log>)
    requires AllJoined(t, rows)
    ensures DecodeAll(kind, t, wallet, rows).Success? <==>
      forall row :: row in rows ==> Decode(kind, t, wallet, row).Some?
  {
    hide Decode, Joined;
    if rows != [] {
      var n := |rows| - 1;
      assert rows == rows[..n] + [rows[n]];
      DecodeAllIff(kind, t, wallet, rows[..n]);
    }
  }

  // ---------------------------------------------------------------- the events of a wallet

  /** `log`, mined at `time`, is the ABI encoding of an event of this kind as the wallet sees it. */
  ghost predicate EncodesEvent(kind: Kind, log: Log, time: nat, wallet: Address, e: Event) {
    match kind
    case Raids => EncodesRaid(log, time, wallet, e)
    case Builds => EncodesBuild(log, time, wallet, e)
  }

  /** The row is joined with its block and encodes `e`, which happened when the block was mined. */
  ghost predicate EncodesRow(kind: Kind, t: Tables, wallet: Address, row: Log, e: Event) {
    Joined(t, row) && EncodesEvent(kind, row, t.blocks[row.blockNumber].time, wallet, e)
  }

  /** The row is no event of the wallet, whatever its topics say. */
  ghost predicate EncodesNothing(kind: Kind, t: Tables, wallet: Address, row: Log) {
    forall e :: !EncodesRow(kind, t, wallet, row, e)
  }

  lemma DecodedIsEncoded(kind: Kind, t: Tables, wallet: Address, row: Log, e: Event)
    requires Joined(t, row)
    ensures Decode(kind, t, wallet, row) == Some(e) <==> EncodesRow(kind, t, wallet, row, e)
  {
    hide DecodeRaid, DecodeBuild, EncodesRaid, EncodesBuild;
    RaidDecodingInvertsEncoding(row, t.blocks[row.blockNumber].time, wallet, e);
    BuildDecodingInvertsEncoding(row, t.blocks[row.blockNumber].time, wallet, e);
  }

  /** No stored event of the wallet is missed: whoever it was encoded for, attacker or defender, finds its row. */
  lemma EncodedEventsAreRows(kind: Kind, t: Tables, wallet: Address, log: Log, e: Event)
    requires KeyedEvents(t.events) && KeyOf(log) in t.events && t.events[KeyOf(log)] == log
    requires EncodesRow(kind, t, wallet, log, e)
    ensures log in AllRows(kind, t, wallet)
  {
    hide Encode, AreWords;
  }

  /** A row with the three topics of an event is of that event and names the wallet where an event does. */
  lemma RowsNameTheWallet(kind: Kind, t: Tables, wallet: Address, log: Log)
    requires KeyedEvents(t.events) && log in AllRows(kind, t, wallet) && |log.topics| == 3
    ensures KeyOf(log) in t.events && t.events[KeyOf(log)] == log && Joined(t, log)
    ensures kind == Raids ==>
      log.topics[0] == RAID_RESOLVED_SELECTOR && (log.topics[1] == wallet || log.topics[2] == wallet)
    ensures kind == Builds ==>
      log.topics[0] in {UPGRADE_STARTED_SELECTOR, BUILDING_UPGRADED_SELECTOR} && log.topics[1] == wallet
  {
  }

  /** The rows decode to the events they encode, or one of them, whatever its topics say, encodes none. */
  lemma {:induction false} RowsDecodeToTheirEvents(kind: Kind, t: Tables, wallet: Address, rows: seq<Log>)
    requires AllJoined(t, rows)
    ensures var r := DecodeAll(kind, t, wallet, rows);
      && (r.Success? ==> forall i :: 0 <= i < |rows| ==> EncodesRow(kind, t, wallet, rows[i], r.value[i]))
      && (r.Failure? ==> exists row :: row in rows && EncodesNothing(kind, t, wallet, row))
  {
    hide Decode, Joined, EncodesRow;
    if rows != [] {
      var n := |rows| - 1;
      assert rows == rows[..n] + [rows[n]];
      RowsDecodeToTheirEvents(kind, t, wallet, rows[..n]);
      forall e
        ensures Decode(kind, t, wallet, rows[n]) == Some(e) <==> EncodesRow(kind, t, wallet, rows[n], e)
      {
        DecodedIsEncoded(kind, t, wallet, rows[n], e);
      }
      if DecodeAll(kind, t, wallet, rows[..n]).Failure? {
        var row :| row in rows[..n] && EncodesNothing(kind, t, wallet, row);
        assert row in rows;
      } else if Decode(kind, t, wallet, rows[n]).None? {
        assert rows[n] in rows && EncodesNothing(kind, t, wallet, rows[n]);
      }
    }
  }

  // ---------------------------------------------------------------- one page

  /** Accepts a cursor issued for this scope and wallet; None when there is none. */
  function DecodeCursor(cursor: Option<Cursor>, scope: Scope, wallet: Address): Result<Option<Cursor>, HistoryError> {
    match cursor
    case None => Success(None)
    case Some(c) =>
      if c.version != CURSOR_VERSION || c.scope != scope || c.wallet != wallet
        || c.key.txIndex > MAX_SAFE_INTEGER || c.key.logIndex > MAX_SAFE_INTEGER then Failure(InvalidCursor)
      else Success(cursor)
  }

  function EncodeCursor(scope: Scope, wallet: Address, checkpoint: Checkpoint, row: Log): Cursor {
    Cursor(CURSOR_VERSION, scope, wallet, checkpoint, RowKeyOf(row))
  }

  function Take<T>(s: seq<T>, n: nat): seq<T> {
    if n < |s| then s[..n] else s
  }

  /** The page over the rows the query found. */
  function PageOf(kind: Kind, t: Tables, scope: Scope, wallet: Address, checkpoint: Checkpoint, rows: seq<Log>,
          limit: nat): Result<Page, HistoryError>
    requires AllJoined(t, rows) && limit > 0
  {
    var fetched := Take(rows, limit + 1);
    var decoded := DecodeAll(kind, t, wallet, fetched);
    if decoded.Failure? then Failure(StoredHistoryCorruption)
    else
      var events := Take(decoded.value, limit);
      Success(StoredEvents(checkpoint, events,
        if |fetched| > limit then Some(EncodeCursor(scope, wallet, checkpoint, fetched[limit - 1])) else None))
  }

  lemma QueryIsJoined(kind: Kind, t: Tables, wallet: Address, after: Option<RowKey>)
    requires KeyedEvents(t.events)
    ensures AllJoined(t, QueryRows(kind, t, wallet, after))
  {
  }

  /** One consistent page of one snapshot of the tables. */
  function ReadPage(kind: Kind, t: Tables, scope: Scope, wallet: Address, cursor: Option<Cursor>,
          limit: int): Result<Page, HistoryError>
    requires KeyedEvents(t.events)
  {
    if wallet >= ADDRESSES then Failure(InvalidWallet)
    else if !(1 <= limit <= MAX_PAGE_SIZE) then Failure(InvalidLimit)
    else
      var parsed := DecodeCursor(cursor, scope, wallet);
      if parsed.Failure? then Failure(parsed.error)
      else if t.checkpoint.None? then Success(NoStoredReplay)
      else if parsed.value.Some? && parsed.value.value.checkpoint != t.checkpoint.value then Failure(CheckpointChanged)
      else
        var after := if parsed.value.Some? then Some(parsed.value.value.key) else None;
        QueryIsJoined(kind, t, wallet, after);
        PageOf(kind, t, scope, wallet, t.checkpoint.value, QueryRows(kind, t, wallet, after), limit)
  }

  /** Every cursor a page hands out is one the next call accepts, for the same scope and wallet. */
  lemma IssuedCursorIsAccepted(kind: Kind, contract: Address, t: Tables, lo: nat, scope: Scope, wallet: Address,
          cursor: Option<Cursor>, limit: int)
    requires ValidIndex(contract, t, lo) && KeyedEvents(t.events)
    ensures var r := ReadPage(kind, t, scope, wallet, cursor, limit);
      r.Success? && r.value.StoredEvents? && r.value.next.Some? ==>
        DecodeCursor(r.value.next, scope, wallet) == Success(r.value.next)
  {
    var r := ReadPage(kind, t, scope, wallet, cursor, limit);
    if r.Success? && r.value.StoredEvents? && r.value.next.Some? {
      var after := if cursor.Some? then Some(cursor.value.key) else None;
      var rows := QueryRows(kind, t, wallet, after);
      assert rows[limit - 1] in rows;
    }
  }

  /** A cursor of the first version, for this scope and wallet, whose indices a program can count. */
  predicate CursorStands(c: Cursor, scope: Scope, wallet: Address) {
    && c.version == 1 && c.scope == scope && c.wallet == wallet
    && c.key.txIndex <= 9_007_199_254_740_991 && c.key.logIndex <= 9_007_199_254_740_991
  }

  /** The request names a wallet, asks for one to fifty events, and has no cursor or one that stands. */
  predicate RequestStands(scope: Scope, wallet: Address, cursor: Option<Cursor>, limit: int) {
    wallet < ADDRESSES && 1 <= limit <= 50 && (cursor.None? || CursorStands(cursor.value, scope, wallet))
  }

  /** Row `i` of a page that ends with `limit` and looks at one row more encodes nothing. */
  ghost predicate CorruptWithin(kind: Kind, t: Tables, wallet: Address, rows: seq<Log>, limit: int) {
    exists i :: 0 <= i < |rows| && i <= limit && EncodesNothing(kind, t, wallet, rows[i])
  }

  /**
   Which refusal belongs to which fault of a request: wallet, limit, cursor, a checkpoint that moved, and then a
   row of the page, or the one after it, that is no event. Without a checkpoint there is nothing to refuse.
   */
  lemma PageRefusals(kind: Kind, t: Tables, scope: Scope, wallet: Address, cursor: Option<Cursor>, limit: int)
    requires KeyedEvents(t.events)
    ensures var r := ReadPage(kind, t, scope, wallet, cursor, limit);
      var stands := RequestStands(scope, wallet, cursor, limit);
      var moved := cursor.Some? && t.checkpoint.Some? && cursor.value.checkpoint != t.checkpoint.value;
      var rows := QueryRows(kind, t, wallet, if cursor.Some? then Some(cursor.value.key) else None);
      && (r == Failure(InvalidWallet) <==> wallet >= ADDRESSES)
      && (r == Failure(InvalidLimit) <==> wallet < ADDRESSES && !(1 <= limit <= 50))
      && (r == Failure(InvalidCursor) <==> wallet < ADDRESSES && 1 <= limit <= 50 && !stands)
      && (r == Success(NoStoredReplay) <==> stands && t.checkpoint.None?)
      && (r == Failure(CheckpointChanged) <==> stands && moved)
      && (r == Failure(StoredHistoryCorruption) <==>
            stands && t.checkpoint.Some? && !moved && CorruptWithin(kind, t, wallet, rows, limit))
  {
    hide PageOf, EncodesRow, CorruptWithin, Joined;
    if RequestStands(scope, wallet, cursor, limit) && t.checkpoint.Some? {
      var after := if cursor.Some? then Some(cursor.value.key) else None;
      QueryIsJoined(kind, t, wallet, after);
      PageIsCorruptIff(kind, t, scope, wallet, t.checkpoint.value, QueryRows(kind, t, wallet, after), limit);
    }
  }

  lemma PageIsCorruptIff(kind: Kind, t: Tables, scope: Scope, wallet: Address, checkpoint: Checkpoint, rows: seq<Log>,
          limit: nat)
    requires AllJoined(t, rows) && limit > 0
    ensures var r := PageOf(kind, t, scope, wallet, checkpoint, rows, limit);
      && (r.Failure? <==> CorruptWithin(kind, t, wallet, rows, limit))
      && (r.Failure? ==> r.error == StoredHistoryCorruption) && (r.Success? ==> r.value.StoredEvents?)
  {
    hide EncodesRow, DecodeAll, Joined;
    var fetched := Take(rows, limit + 1);
    assert forall x :: x in fetched ==> x in rows;
    RowsDecodeToTheirEvents(kind, t, wallet, fetched);
    if DecodeAll(kind, t, wallet, fetched).Failure? {
      var row :| row in fetched && EncodesNothing(kind, t, wallet, row);
      var i :| 0 <= i < |fetched| && fetched[i] == row;
      assert rows[i] == row;
    } else {
      forall i | 0 <= i < |rows| && i <= limit
        ensures !EncodesNothing(kind, t, wallet, rows[i])
      {
        assert EncodesRow(kind, t, wallet, fetched[i], DecodeAll(kind, t, wallet, fetched).value[i]);
      }
    }
  }

  // ---------------------------------------------------------------- following the cursor

  /** The events of rows that all decode. */
  function Events(kind: Kind, t: Tables, wallet: Address, rows: seq<Log>): seq<Event>
    requires AllJoined(t, rows) && DecodeAll(kind, t, wallet, rows).Success?
  {
    DecodeAll(kind, t, wallet, rows).value
  }

  lemma DecodeSnoc(kind: Kind, t: Tables, wallet: Address, rows: seq<Log>, row: Log)
    requires AllJoined(t, rows) && Joined(t, row) && DecodeAll(kind, t, wallet, rows).Success?
    ensures AllJoined(t, rows + [row])
    ensures DecodeAll(kind, t, wallet, rows + [row]) ==
      match Decode(kind, t, wallet, row)
      case None => Failure(StoredHistoryCorruption)
      case Some(e) => Success(Events(kind, t, wallet, rows) + [e])
  {
    hide Decode;
    assert (rows + [row])[..|rows|] == rows;
  }

  lemma DecodeUnsnoc(kind: Kind, t: Tables, wallet: Address, rows: seq<Log>)
    requires rows != [] && AllJoined(t, rows) && DecodeAll(kind, t, wallet, rows).Success?
    ensures var front, last := rows[..|rows| - 1], rows[|rows| - 1];
      && AllJoined(t, front) && Joined(t, last)
      && DecodeAll(kind, t, wallet, front).Success? && Decode(kind, t, wallet, last).Some?
      && Events(kind, t, wallet, rows) == Events(kind, t, wallet, front) + [Decode(kind, t, wallet, last).value]
  {
    hide Decode;
  }

  lemma {:induction false} DecodeAppend(kind: Kind, t: Tables, wallet: Address, a: seq<Log>, b: seq<Log>)
    requires AllJoined(t, a) && AllJoined(t, b)
    requires DecodeAll(kind, t, wallet, a).Success? && DecodeAll(kind, t, wallet, b).Success?
    ensures AllJoined(t, a + b)
    ensures DecodeAll(kind, t, wallet, a + b) == Success(Events(kind, t, wallet, a) + Events(kind, t, wallet, b))
    decreases |b|
  {
    hide Decode, Joined;
    if b == [] {
      assert a + b == a;
      assert Events(kind, t, wallet, a) + [] == Events(kind, t, wallet, a);
    } else {
      DecodeAppendLast(kind, t, wallet, a, b);
    }
  }

  lemma {:induction false} DecodeAppendLast(kind: Kind, t: Tables, wallet: Address, a: seq<Log>, b: seq<Log>)
    requires b != [] && AllJoined(t, a) && AllJoined(t, b)
    requires DecodeAll(kind, t, wallet, a).Success? && DecodeAll(kind, t, wallet, b).Success?
    ensures AllJoined(t, a + b)
    ensures DecodeAll(kind, t, wallet, a + b) == Success(Events(kind, t, wallet, a) + Events(kind, t, wallet, b))
    decreases |b|, 0
  {
    hide Decode, Joined, DecodeAll, AllJoined;
    var front, last := b[..|b| - 1], b[|b| - 1];
    DecodeUnsnoc(kind, t, wallet, b);
    DecodeAppend(kind, t, wallet, a, front);
    DecodeSnoc(kind, t, wallet, a + front, last);
    assert (a + front) + [last] == a + b;
    assert Events(kind, t, wallet, a) + Events(kind, t, wallet, b) ==
      (Events(kind, t, wallet, a) + Events(kind, t, wallet, front)) + [Decode(kind, t, wallet, last).value];
  }

  lemma DecodeSplit(kind: Kind, t: Tables, wallet: Address, rows: seq<Log>, k: nat)
    requires AllJoined(t, rows) && k <= |rows|
    ensures AllJoined(t, rows[..k]) && AllJoined(t, rows[k..])
    ensures DecodeAll(kind, t, wallet, rows).Success? <==>
      DecodeAll(kind, t, wallet, rows[..k]).Success? && DecodeAll(kind, t, wallet, rows[k..]).Success?
    ensures DecodeAll(kind, t, wallet, rows).Success? ==>
      Events(kind, t, wallet, rows) == Events(kind, t, wallet, rows[..k]) + Events(kind, t, wallet, rows[k..])
  {
    hide Decode, Joined;
    assert rows[..k] + rows[k..] == rows;
    assert forall x :: x in rows <==> x in rows[..k] || x in rows[k..];
    DecodeAllIff(kind, t, wallet, rows);
    DecodeAllIff(kind, t, wallet, rows[..k]);
    DecodeAllIff(kind, t, wallet, rows[k..]);
    if DecodeAll(kind, t, wallet, rows[..k]).Success? && DecodeAll(kind, t, wallet, rows[k..]).Success? {
      DecodeAppend(kind, t, wallet, rows[..k], rows[k..]);
    }
  }

  /** The first `limit` of the events of one row more are the events of the first `limit` rows. */
  lemma DecodeFetched(kind: Kind, t: Tables, wallet: Address, rows: seq<Log>, limit: nat)
    requires AllJoined(t, rows) && limit < |rows|
    requires DecodeAll(kind, t, wallet, rows[..limit + 1]).Success?
    ensures AllJoined(t, rows[..limit]) && DecodeAll(kind, t, wallet, rows[..limit]).Success?
    ensures Events(kind, t, wallet, rows[..limit + 1])[..limit] == Events(kind, t, wallet, rows[..limit])
  {
    hide Decode, Joined;
    assert forall x :: x in rows[..limit + 1] ==> x in rows;
    DecodeSplit(kind, t, wallet, rows[..limit + 1], limit);
    assert rows[..limit + 1][..limit] == rows[..limit];
  }

  /** The first rows of a page with the rest of the rows: nothing is lost, repeated or let through. */
  lemma PageSplits(kind: Kind, t: Tables, scope: Scope, wallet: Address, checkpoint: Checkpoint, rows: seq<Log>,
          limit: nat)
    requires AllJoined(t, rows) && limit > 0
    ensures var p := PageOf(kind, t, scope, wallet, checkpoint, rows, limit);
      && (p.Failure? ==>
            DecodeAll(kind, t, wallet, rows) == Failure(StoredHistoryCorruption) && p.error == StoredHistoryCorruption)
      && (p.Success? ==> p.value.StoredEvents? && p.value.checkpoint == checkpoint)
      && (p.Success? && p.value.next.None? ==> DecodeAll(kind, t, wallet, rows) == Success(p.value.events))
      && (p.Success? && p.value.next.Some? ==>
            && limit < |rows| && AllJoined(t, rows[limit..]) && AllJoined(t, rows[..limit])
            && p.value.next == Some(EncodeCursor(scope, wallet, checkpoint, rows[limit - 1]))
            && DecodeAll(kind, t, wallet, rows[..limit]) == Success(p.value.events)
            && (DecodeAll(kind, t, wallet, rows).Success? <==> DecodeAll(kind, t, wallet, rows[limit..]).Success?)
            && (DecodeAll(kind, t, wallet, rows).Success? ==>
                  Events(kind, t, wallet, rows) == p.value.events + Events(kind, t, wallet, rows[limit..])))
  {
    hide Decode, Joined;
    var fetched := Take(rows, limit + 1);
    var decoded := DecodeAll(kind, t, wallet, fetched);
    if decoded.Failure? {
      assert forall x :: x in fetched ==> x in rows;
      DecodeAllIff(kind, t, wallet, fetched);
      DecodeAllIff(kind, t, wallet, rows);
    } else if limit < |rows| {
      assert fetched == rows[..limit + 1];
      DecodeFetched(kind, t, wallet, rows, limit);
      DecodeSplit(kind, t, wallet, rows, limit);
    } else {
      assert fetched == rows;
    }
  }

  /** Page limits, possibly a different one for every page. */
  ghost predicate ValidLimits(limits: nat -> int) {
    forall i: nat :: 1 <= limits(i) <= MAX_PAGE_SIZE
  }

  /** Row `k` is where this cursor resumes. */
  ghost predicate ResumesAt(kind: Kind, t: Tables, scope: Scope, wallet: Address, cursor: Option<Cursor>, k: nat)
    requires KeyedEvents(t.events)
  {
    if cursor.None? then k == 0
    else
      && t.checkpoint.Some? && 0 < k <= |AllRows(kind, t, wallet)|
      && cursor.value == EncodeCursor(scope, wallet, t.checkpoint.value, AllRows(kind, t, wallet)[k - 1])
  }

  lemma ResumedRows(kind: Kind, t: Tables, scope: Scope, wallet: Address, cursor: Option<Cursor>, k: nat)
    requires KeyedEvents(t.events) && ResumesAt(kind, t, scope, wallet, cursor, k)
    ensures k <= |AllRows(kind, t, wallet)|
    ensures QueryRows(kind, t, wallet, if cursor.Some? then Some(cursor.value.key) else None)
      == AllRows(kind, t, wallet)[k..]
  {
    if cursor.None? {
      NoCursorIsEverything(kind, t, wallet);
      assert AllRows(kind, t, wallet)[0..] == AllRows(kind, t, wallet);
    } else {
      KeysetIsOffset(kind, t, wallet, k);
    }
  }

  /** Rows that come from a valid index have small indices, so that their cursors are accepted. */
  ghost predicate InRangeEvents(t: Tables) {
    forall k :: k in t.events ==> InRange(t.events[k])
  }

  /** The page at a resumption point. */
  lemma PageResumes(kind: Kind, t: Tables, scope: Scope, wallet: Address, cursor: Option<Cursor>, limit: int, k: nat)
    requires KeyedEvents(t.events) && InRangeEvents(t) && t.checkpoint.Some? && wallet < ADDRESSES
    requires 1 <= limit <= MAX_PAGE_SIZE && ResumesAt(kind, t, scope, wallet, cursor, k)
    ensures k <= |AllRows(kind, t, wallet)| && AllJoined(t, AllRows(kind, t, wallet)[k..])
    ensures ReadPage(kind, t, scope, wallet, cursor, limit) ==
      PageOf(kind, t, scope, wallet, t.checkpoint.value, AllRows(kind, t, wallet)[k..], limit)
  {
    ResumedRows(kind, t, scope, wallet, cursor, k);
    var all := AllRows(kind, t, wallet);
    if cursor.Some? {
      assert all[k - 1] in Matching(kind, t, wallet);
    }
    var after := if cursor.Some? then Some(cursor.value.key) else None;
    QueryIsJoined(kind, t, wallet, after);
  }

  /** A client that follows `nextCursor` until it is null, with one limit per page. */
  ghost function Chase(kind: Kind, t: Tables, scope: Scope, wallet: Address, cursor: Option<Cursor>,
          limits: nat -> int, round: nat, k: nat): Result<seq<Event>, HistoryError>
    requires KeyedEvents(t.events) && InRangeEvents(t) && t.checkpoint.Some? && wallet < ADDRESSES
    requires ValidLimits(limits) && ResumesAt(kind, t, scope, wallet, cursor, k)
    decreases |AllRows(kind, t, wallet)| - k
  {
    var page := ReadPage(kind, t, scope, wallet, cursor, limits(round));
    PageResumes(kind, t, scope, wallet, cursor, limits(round), k);
    PageSplits(kind, t, scope, wallet, t.checkpoint.value, AllRows(kind, t, wallet)[k..], limits(round));
    if page.Failure? then Failure(page.error)
    else if page.value.next.None? then Success(page.value.events)
    else
      var rest := Chase(kind, t, scope, wallet, page.value.next, limits, round + 1, k + limits(round));
      if rest.Failure? then rest else Success(page.value.events + rest.value)
  }

  /**
   For fixed tables and any limits, following the cursor yields the full descending list from where it
   starts, each row once; and it does so exactly when every row still to come decodes.
   */
  lemma {:induction false} ChaseIsComplete(kind: Kind, t: Tables, scope: Scope, wallet: Address,
          cursor: Option<Cursor>, limits: nat -> int, round: nat, k: nat)
    requires KeyedEvents(t.events) && InRangeEvents(t) && t.checkpoint.Some? && wallet < ADDRESSES
    requires ValidLimits(limits) && ResumesAt(kind, t, scope, wallet, cursor, k)
    ensures k <= |AllRows(kind, t, wallet)| && AllJoined(t, AllRows(kind, t, wallet)[k..])
    ensures Chase(kind, t, scope, wallet, cursor, limits, round, k)
      == DecodeAll(kind, t, wallet, AllRows(kind, t, wallet)[k..])
    decreases |AllRows(kind, t, wallet)| - k
  {
    hide ReadPage, PageOf, DecodeAll, AllRows, AllJoined, KeyedEvents, InRangeEvents;
    var all, limit := AllRows(kind, t, wallet), limits(round);
    PageResumes(kind, t, scope, wallet, cursor, limit, k);
    PageSplits(kind, t, scope, wallet, t.checkpoint.value, all[k..], limit);
    var page := ReadPage(kind, t, scope, wallet, cursor, limit);
    if page.Success? && page.value.next.Some? {
      assert all[k..][limit..] == all[k + limit..] && all[k..][limit - 1] == all[k + limit - 1];
      ChaseIsComplete(kind, t, scope, wallet, page.value.next, limits, round + 1, k + limit);
    }
  }
}

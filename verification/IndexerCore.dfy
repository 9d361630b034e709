/**
 The order of logs and the plan of a reorganisation, both computed from values alone
 (server/chain-indexer-core.js).
 */
module IndexerCore {
  import opened Wrappers
  import opened Sorting
  import opened ChainTypes

  // ---------------------------------------------------------------- logs

  /** The database key of a log, within one chain. */
  function EventId(log: Log): (Address, Hash, nat) {
    (log.address, log.txHash, log.logIndex)
  }

  predicate InRange(log: Log) {
    log.blockNumber <= MAX_BIGINT && log.txIndex <= MAX_INTEGER && log.logIndex <= MAX_INTEGER
  }

  function SortKey(log: Log): (nat, nat, nat, Hash) {
    (log.blockNumber, log.txIndex, log.logIndex, log.txHash)
  }

  /** Canonical execution order. The contract address takes no part in it. */
  predicate LogBefore(a: Log, b: Log) {
    if a.blockNumber != b.blockNumber then a.blockNumber < b.blockNumber
    else if a.txIndex != b.txIndex then a.txIndex < b.txIndex
    else if a.logIndex != b.logIndex then a.logIndex < b.logIndex
    else a.txHash < b.txHash
  }

  /** Two different logs under one event id. */
  predicate Conflicting(logs: seq<Log>) {
    exists a, b :: a in logs && b in logs && EventId(a) == EventId(b) && a != b
  }

  /** First occurrences, in order. */
  function Distinct(logs: seq<Log>): seq<Log> {
    if logs == [] then []
    else
      var front := Distinct(logs[..|logs| - 1]);
      var last := logs[|logs| - 1];
      if last in front then front else front + [last]
  }

  function CanonicalLogs(logs: seq<Log>): Result<seq<Log>, Error> {
    if exists log :: log in logs && !InRange(log) then Failure(InvalidInput)
    else if Conflicting(logs) then Failure(ConflictingDuplicateEvent)
    else Success(Distinct(Sort(logs, LogBefore)))
  }

  lemma LogOrder()
    ensures WeakOrder(LogBefore)
  {
  }

  lemma {:induction false} DistinctElements(logs: seq<Log>)
    ensures forall x :: x in Distinct(logs) <==> x in logs
    ensures forall i, j :: 0 <= i < j < |Distinct(logs)| ==> Distinct(logs)[i] != Distinct(logs)[j]
  {
    if logs != [] {
      var n := |logs| - 1;
      DistinctElements(logs[..n]);
      assert logs == logs[..n] + [logs[n]];
    }
  }

  lemma {:induction false} DistinctKeepsOrder(logs: seq<Log>)
    requires Sorted(logs, LogBefore)
    ensures Sorted(Distinct(logs), LogBefore)
  {
    if logs != [] {
      var n := |logs| - 1;
      DistinctKeepsOrder(logs[..n]);
      DistinctElements(logs[..n]);
      forall x | x in Distinct(logs[..n])
        ensures !LogBefore(logs[n], x)
      {
        assert x in logs[..n];
      }
    }
  }

  /** The loop over sorted logs: keeps the first log of each event and stops at a different second one. */
  method UniqueLogs(sorted: seq<Log>) returns (r: Option<seq<Log>>)
    ensures r == if Conflicting(sorted) then None else Some(Distinct(sorted))
  {
    var unique: seq<Log> := [];
    var seen: map<(Address, Hash, nat), Log> := map[];
    for i := 0 to |sorted|
      invariant unique == Distinct(sorted[..i])
      invariant forall id :: id in seen ==> seen[id] in sorted[..i] && EventId(seen[id]) == id
      invariant forall log :: log in sorted[..i] ==> EventId(log) in seen && seen[EventId(log)] == log
    {
      var log := sorted[i];
      var id := EventId(log);
      DistinctElements(sorted[..i]);
      assert sorted[..i + 1] == sorted[..i] + [log] && sorted[..i + 1][..i] == sorted[..i];
      if id !in seen {
        seen := seen[id := log];
        unique := unique + [log];
      } else if seen[id] != log {
        assert seen[id] in sorted && log in sorted;
        return None;
      }
    }
    assert sorted[..|sorted|] == sorted;
    r := Some(unique);
  }

  method NormalizeAndSortLogs(logs: seq<Log>) returns (r: Result<seq<Log>, Error>)
    ensures r == CanonicalLogs(logs)
  {
    hide LogBefore, Sort, Distinct;
    if exists log :: log in logs && !InRange(log) {
      return Failure(InvalidInput);
    }
    var sorted := Sort(logs, LogBefore);
    SameElements(logs, sorted);
    var unique := UniqueLogs(sorted);
    assert Conflicting(logs) <==> Conflicting(sorted);
    r := if unique.None? then Failure(ConflictingDuplicateEvent) else Success(unique.value);
  }

  /** What a successful normalization returns: exactly the logs, in order, each event once. */
  lemma CanonicalLogsShape(logs: seq<Log>)
    requires CanonicalLogs(logs).Success?
    ensures var r := CanonicalLogs(logs).value;
      && (forall x :: x in r <==> x in logs)
      && Sorted(r, LogBefore)
      && (forall i, j :: 0 <= i < j < |r| ==> EventId(r[i]) != EventId(r[j]))
  {
    var s := Sort(logs, LogBefore);
    LogOrder();
    SortSorts(logs, LogBefore);
    DistinctElements(s);
    DistinctKeepsOrder(s);
    var r := Distinct(s);
    forall i, j | 0 <= i < j < |r|
      ensures EventId(r[i]) != EventId(r[j])
    {
      assert r[i] in logs && r[j] in logs;
    }
  }

  /** Logs that compare equal belong to one contract; true of the logs of a single contract. */
  ghost predicate KeyNamesContract(logs: seq<Log>) {
    forall a, b :: a in logs && b in logs && SortKey(a) == SortKey(b) ==> a.address == b.address
  }

  lemma CanonicalLogsStrict(logs: seq<Log>)
    requires CanonicalLogs(logs).Success? && KeyNamesContract(logs)
    ensures StrictlySorted(CanonicalLogs(logs).value, LogBefore)
  {
    CanonicalLogsShape(logs);
    var r := CanonicalLogs(logs).value;
    forall i, j | 0 <= i < j < |r|
      ensures LogBefore(r[i], r[j])
    {
      assert r[i] in logs && r[j] in logs;
      assert EventId(r[i]) != EventId(r[j]);
    }
  }

  ghost predicate SameLogs(logs: seq<Log>, other: seq<Log>) {
    forall x :: x in logs <==> x in other
  }

  /** The result, success or error, depends on the set of logs alone: not on order, not on multiplicity. */
  lemma NormalizationDependsOnTheSet(logs: seq<Log>, other: seq<Log>)
    requires SameLogs(logs, other)
    requires KeyNamesContract(logs)
    ensures CanonicalLogs(logs) == CanonicalLogs(other)
  {
    assert Conflicting(logs) <==> Conflicting(other);
    if CanonicalLogs(logs).Success? {
      LogOrder();
      CanonicalLogsShape(logs);
      CanonicalLogsShape(other);
      CanonicalLogsStrict(logs);
      CanonicalLogsStrict(other);
      StrictlySortedUnique(CanonicalLogs(logs).value, CanonicalLogs(other).value, LogBefore);
    }
  }

  lemma {:induction false} DistinctFixed(logs: seq<Log>)
    requires forall i, j :: 0 <= i < j < |logs| ==> logs[i] != logs[j]
    ensures Distinct(logs) == logs
  {
    if logs != [] {
      var n := |logs| - 1;
      DistinctFixed(logs[..n]);
      assert logs == logs[..n] + [logs[n]];
    }
  }

  lemma {:induction false} SortedFixed(logs: seq<Log>)
    requires Sorted(logs, LogBefore)
    ensures Sort(logs, LogBefore) == logs
  {
    if logs != [] {
      var n := |logs| - 1;
      SortedFixed(logs[..n]);
      SortFixesAppend(logs, LogBefore);
    }
  }

  /** Normalizing what has been normalized changes nothing, for any logs. */
  lemma NormalizationIsIdempotent(logs: seq<Log>)
    requires CanonicalLogs(logs).Success?
    ensures CanonicalLogs(CanonicalLogs(logs).value) == CanonicalLogs(logs)
  {
    CanonicalLogsShape(logs);
    var r := CanonicalLogs(logs).value;
    SortedFixed(r);
    DistinctFixed(r);
    assert Conflicting(r) <==> Conflicting(logs);
  }

  // The converse: stability of the sort is what decides between logs that compare equal.

  function WithKey(logs: seq<Log>, key: (nat, nat, nat, Hash)): seq<Log> {
    if logs == [] then []
    else
      var front := WithKey(logs[..|logs| - 1], key);
      var last := logs[|logs| - 1];
      if SortKey(last) == key then front + [last] else front
  }

  lemma {:induction false} WithKeyAppend(s: seq<Log>, x: Log, key: (nat, nat, nat, Hash))
    ensures WithKey(s + [x], key) == WithKey(s, key) + if SortKey(x) == key then [x] else []
  {
    assert (s + [x])[..|s|] == s;
  }

  lemma {:induction false} InsertIsStable(s: seq<Log>, x: Log, key: (nat, nat, nat, Hash))
    ensures WithKey(Insert(s, x, LogBefore), key) == WithKey(s + [x], key)
  {
    if s != [] && LogBefore(x, s[|s| - 1]) {
      var n := |s| - 1;
      InsertIsStable(s[..n], x, key);
      WithKeyAppend(Insert(s[..n], x, LogBefore), s[n], key);
      WithKeyAppend(s, x, key);
      WithKeyAppend(s[..n], x, key);
    }
  }

  /** Logs that compare equal leave the sort in the order they came in. */
  lemma {:induction false} SortIsStable(s: seq<Log>, key: (nat, nat, nat, Hash))
    ensures WithKey(Sort(s, LogBefore), key) == WithKey(s, key)
  {
    if s != [] {
      var n := |s| - 1;
      SortIsStable(s[..n], key);
      InsertIsStable(Sort(s[..n], LogBefore), s[n], key);
      WithKeyAppend(Sort(s[..n], LogBefore), s[n], key);
    }
  }

  lemma {:induction false} WithKeyElements(s: seq<Log>, key: (nat, nat, nat, Hash))
    ensures forall x :: x in WithKey(s, key) <==> x in s && SortKey(x) == key
  {
    if s != [] {
      var n := |s| - 1;
      WithKeyElements(s[..n], key);
      assert s == s[..n] + [s[n]];
    }
  }

  lemma {:induction false} DistinctCommutes(s: seq<Log>, key: (nat, nat, nat, Hash))
    ensures WithKey(Distinct(s), key) == Distinct(WithKey(s, key))
  {
    if s != [] {
      var n := |s| - 1;
      DistinctCommutes(s[..n], key);
      DistinctElements(s[..n]);
      DistinctElements(WithKey(s[..n], key));
      WithKeyElements(s[..n], key);
      WithKeyAppend(Distinct(s[..n]), s[n], key);
      if SortKey(s[n]) == key {
        assert (WithKey(s[..n], key) + [s[n]])[..|WithKey(s[..n], key)|] == WithKey(s[..n], key);
      }
    }
  }

  lemma {:induction false} DistinctStart(s: seq<Log>)
    requires s != []
    ensures Distinct(s) != [] && Distinct(s)[0] == s[0]
  {
    if |s| > 1 {
      DistinctStart(s[..|s| - 1]);
    } else {
      assert Distinct(s[..0]) == [];
    }
  }

  lemma {:induction false} WithKeyStart(s: seq<Log>, key: (nat, nat, nat, Hash))
    requires s != [] && SortKey(s[0]) == key
    ensures WithKey(s, key) != [] && WithKey(s, key)[0] == s[0]
  {
    if |s| > 1 {
      WithKeyStart(s[..|s| - 1], key);
    } else {
      assert WithKey(s[..0], key) == [];
    }
  }

  /** Of the logs that compare equal, the one read first comes out first. */
  lemma FirstReadComesFirst(logs: seq<Log>)
    requires logs != [] && CanonicalLogs(logs).Success?
    ensures var kept := WithKey(CanonicalLogs(logs).value, SortKey(logs[0]));
      kept != [] && kept[0] == logs[0]
  {
    hide Distinct, WithKey, Sort, LogBefore;
    var key := SortKey(logs[0]);
    SortIsStable(logs, key);
    DistinctCommutes(Sort(logs, LogBefore), key);
    WithKeyStart(logs, key);
    DistinctStart(WithKey(logs, key));
  }

  /** Two contracts under one sort key: reading either log first gives two results. */
  lemma ReadingOrderShows(logs: seq<Log>, a: Log, b: Log)
    requires CanonicalLogs(logs).Success?
    requires a in logs && b in logs && SortKey(a) == SortKey(b) && a != b
    ensures SameLogs(logs, [a] + logs) && SameLogs(logs, [b] + logs)
    ensures CanonicalLogs([a] + logs) != CanonicalLogs([b] + logs)
  {
    var p, q := [a] + logs, [b] + logs;
    assert SameLogs(logs, p) && SameLogs(logs, q);
    assert !Conflicting(p) && !Conflicting(q);
    FirstReadComesFirst(p);
    FirstReadComesFirst(q);
  }

  /** Every reading order, with any repetitions, gives one result. */
  ghost predicate OrderFree(logs: seq<Log>) {
    forall other: seq<Log> :: SameLogs(logs, other) ==> CanonicalLogs(other) == CanonicalLogs(logs)
  }

  lemma OrderFreeNamesContract(logs: seq<Log>, a: Log, b: Log)
    requires CanonicalLogs(logs).Success? && OrderFree(logs)
    requires a in logs && b in logs && SortKey(a) == SortKey(b)
    ensures a == b
  {
    hide CanonicalLogs;
    if a != b {
      ReadingOrderShows(logs, a, b);
    }
  }

  /**
   The exact condition under which reading order cannot show: no two logs of different contracts
   compare equal. It holds whenever all logs come from one contract, as the store requires.
   */
  lemma NormalizationIsOrderFreeIff(logs: seq<Log>)
    requires CanonicalLogs(logs).Success?
    ensures KeyNamesContract(logs) <==> OrderFree(logs)
  {
    if KeyNamesContract(logs) {
      forall other: seq<Log> | SameLogs(logs, other)
        ensures CanonicalLogs(other) == CanonicalLogs(logs)
      {
        NormalizationDependsOnTheSet(logs, other);
      }
    }
    if OrderFree(logs) {
      forall a, b | a in logs && b in logs && SortKey(a) == SortKey(b)
        ensures a.address == b.address
      {
        OrderFreeNamesContract(logs, a, b);
      }
    }
  }

  // ---------------------------------------------------------------- headers

  predicate HeaderInRange(h: Header) {
    h.number <= MAX_BIGINT
  }

  predicate HeaderBefore(a: Header, b: Header) {
    a.number < b.number
  }

  /** The first fault `sortedBlocks` finds walking up a sorted list of headers. */
  function HeaderFault(s: seq<Header>): Option<Error> {
    if |s| < 2 then None
    else
      var n := |s| - 1;
      var fault := HeaderFault(s[..n]);
      if fault.Some? then fault
      else if s[n].number == s[n - 1].number then Some(DuplicateBlockHeight)
      else if s[n].number == s[n - 1].number + 1 && s[n].parent != s[n - 1].hash then
        Some(NoncanonicalObservedBlocks)
      else None
  }

  function SortedHeaders(headers: seq<Header>): Result<seq<Header>, Error> {
    if exists h :: h in headers && !HeaderInRange(h) then Failure(InvalidInput)
    else
      var s := Sort(headers, HeaderBefore);
      if HeaderFault(s).Some? then Failure(HeaderFault(s).value) else Success(s)
  }

  method SortedBlocks(headers: seq<Header>) returns (r: Result<seq<Header>, Error>)
    ensures r == SortedHeaders(headers)
  {
    if exists h :: h in headers && !HeaderInRange(h) {
      return Failure(InvalidInput);
    }
    var s := Sort(headers, HeaderBefore);
    var index := 1;
    while index < |s|
      invariant 1 <= index
      invariant index <= |s| ==> HeaderFault(s[..index]) == None
      invariant |s| < index ==> HeaderFault(s) == None
    {
      var previous, current := s[index - 1], s[index];
      assert s[..index + 1][..index] == s[..index];
      if current.number == previous.number {
        FaultPersists(s, index + 1);
        return Failure(DuplicateBlockHeight);
      }
      if current.number == previous.number + 1 && current.parent != previous.hash {
        FaultPersists(s, index + 1);
        return Failure(NoncanonicalObservedBlocks);
      }
      index := index + 1;
    }
    assert s[..|s|] == s;
    r := Success(s);
  }

  lemma {:induction false} FaultPersists(s: seq<Header>, k: nat)
    requires k <= |s| && HeaderFault(s[..k]).Some?
    ensures HeaderFault(s) == HeaderFault(s[..k])
  {
    if k == |s| {
      assert s[..k] == s;
    } else {
      assert s[..|s| - 1][..k] == s[..k];
      FaultPersists(s[..|s| - 1], k);
    }
  }

  /** No fault: strictly rising heights, and neighbours that follow each other are linked. */
  lemma {:induction false} NoHeaderFault(s: seq<Header>)
    requires HeaderFault(s).None? && Sorted(s, HeaderBefore)
    ensures StrictlySorted(s, HeaderBefore)
    ensures forall i :: 0 < i < |s| && s[i].number == s[i - 1].number + 1 ==> s[i].parent == s[i - 1].hash
  {
    if |s| >= 2 {
      var n := |s| - 1;
      NoHeaderFault(s[..n]);
      assert HeaderBefore(s[n - 1], s[n]);
      forall i | 0 <= i < n
        ensures HeaderBefore(s[i], s[n])
      {
        assert i == n - 1 || HeaderBefore(s[..n][i], s[..n][n - 1]);
      }
    }
  }

  lemma SortedHeadersShape(headers: seq<Header>)
    requires SortedHeaders(headers).Success?
    ensures var s := SortedHeaders(headers).value;
      && (forall h :: h in s <==> h in headers)
      && StrictlySorted(s, HeaderBefore)
      && (forall i :: 0 < i < |s| && s[i].number == s[i - 1].number + 1 ==> s[i].parent == s[i - 1].hash)
  {
    assert WeakOrder(HeaderBefore);
    SortSorts(headers, HeaderBefore);
    NoHeaderFault(Sort(headers, HeaderBefore));
  }

  // ---------------------------------------------------------------- reorganisations

  datatype Plan = Plan(
    ancestor: Header, rollbackDepth: nat, deleteFrom: Option<nat>, replayFrom: nat, replay: seq<Header>)

  function ByHeight(s: seq<Header>): map<nat, Header> {
    if s == [] then map[] else ByHeight(s[..|s| - 1])[s[|s| - 1].number := s[|s| - 1]]
  }

  lemma {:induction false} ByHeightLooksUp(s: seq<Header>)
    requires StrictlySorted(s, HeaderBefore)
    ensures forall h :: h in s ==> h.number in ByHeight(s) && ByHeight(s)[h.number] == h
    ensures forall k :: k in ByHeight(s) ==> ByHeight(s)[k] in s && ByHeight(s)[k].number == k
  {
    if s != [] {
      var n := |s| - 1;
      ByHeightLooksUp(s[..n]);
      assert s == s[..n] + [s[n]];
      assert forall h :: h in s[..n] ==> HeaderBefore(h, s[n]);
    }
  }

  /** The stored blocks one observed block vouches for: itself, and its parent. */
  function Vouched(byHeight: map<nat, Header>, o: Header): seq<Header> {
    (if o.number in byHeight && byHeight[o.number].hash == o.hash then [o] else []) +
    (if o.number > 0 && o.number - 1 in byHeight && byHeight[o.number - 1].hash == o.parent
     then [byHeight[o.number - 1]] else [])
  }

  function Ancestors(byHeight: map<nat, Header>, observed: seq<Header>): seq<Header> {
    if observed == [] then []
    else Ancestors(byHeight, observed[..|observed| - 1]) + Vouched(byHeight, observed[|observed| - 1])
  }

  function Above(s: seq<Header>, height: nat): seq<Header> {
    if s == [] then []
    else
      var last := s[|s| - 1];
      Above(s[..|s| - 1], height) + if last.number > height then [last] else []
  }

  function ReplayFault(ancestor: Header, replay: seq<Header>): Option<Error> {
    if replay == [] then None
    else
      var n := |replay| - 1;
      var fault := ReplayFault(ancestor, replay[..n]);
      var previous := if n == 0 then ancestor else replay[n - 1];
      if fault.Some? then fault
      else if replay[n].number != previous.number + 1 then Some(NoncontiguousReplayBlocks)
      else if replay[n].parent != previous.hash then Some(NoncanonicalObservedBlocks)
      else None
  }

  predicate HigherFirst(a: Header, b: Header) {
    a.number > b.number
  }

  /** The ancestor the program takes: the first after sorting from high to low. */
  function CommonAncestor(stored: seq<Header>, observed: seq<Header>): Option<Header> {
    var ancestors := Sort(Ancestors(ByHeight(stored), observed), HigherFirst);
    if ancestors == [] then None else Some(ancestors[0])
  }

  function PlanFrom(checkpoint: Header, ancestor: Header, observed: seq<Header>, maxDepth: nat): Result<Plan, Error> {
    if ancestor.number > checkpoint.number then Failure(ObservedChainAhead)
    else
      var depth := checkpoint.number - ancestor.number;
      var replay := Above(observed, ancestor.number);
      if depth > maxDepth then Failure(ReorgDepthExceeded)
      else
        var fault := ReplayFault(ancestor, replay);
        if fault.Some? then Failure(fault.value)
        else Success(Plan(ancestor, depth, if depth == 0 then None else Some(ancestor.number + 1),
                          ancestor.number + 1, replay))
  }

  /** The plan once both lists of headers are in order. */
  function PlanOn(checkpoint: Header, stored: seq<Header>, observed: seq<Header>, maxDepth: nat): Result<Plan, Error> {
    var byHeight := ByHeight(stored);
    if !(checkpoint.number in byHeight && byHeight[checkpoint.number].hash == checkpoint.hash) then
      Failure(CheckpointNotInCanonicalBlocks)
    else
      var ancestor := CommonAncestor(stored, observed);
      if ancestor.None? then Failure(CommonAncestorNotFound)
      else PlanFrom(checkpoint, ancestor.value, observed, maxDepth)
  }

  function ReorgPlan(checkpoint: Header, canonical: seq<Header>, observed: seq<Header>, maxDepth: nat): Result<Plan,
          Error> {
    if !HeaderInRange(checkpoint) then Failure(InvalidInput)
    else
      var stored := SortedHeaders(canonical);
      if stored.Failure? then Failure(stored.error)
      else
        var seen := SortedHeaders(observed);
        if seen.Failure? then Failure(seen.error)
        else PlanOn(checkpoint, stored.value, seen.value, maxDepth)
  }

  lemma {:induction false} ReplayFaultPersists(ancestor: Header, s: seq<Header>, k: nat)
    requires k <= |s| && ReplayFault(ancestor, s[..k]).Some?
    ensures ReplayFault(ancestor, s) == ReplayFault(ancestor, s[..k])
  {
    if k == |s| {
      assert s[..k] == s;
    } else {
      assert s[..|s| - 1][..k] == s[..k];
      ReplayFaultPersists(ancestor, s[..|s| - 1], k);
    }
  }

  method FindAncestor(stored: seq<Header>, observed: seq<Header>) returns (byHeight: map<nat, Header>,
          ancestor: Option<Header>)
    ensures byHeight == ByHeight(stored)
    ensures ancestor == CommonAncestor(stored, observed)
  {
    byHeight := map[];
    for i := 0 to |stored|
      invariant byHeight == ByHeight(stored[..i])
    {
      assert stored[..i + 1][..i] == stored[..i];
      byHeight := byHeight[stored[i].number := stored[i]];
    }
    assert stored[..|stored|] == stored;
    var ancestors: seq<Header> := [];
    for i := 0 to |observed|
      invariant ancestors == Ancestors(byHeight, observed[..i])
    {
      assert observed[..i + 1][..i] == observed[..i];
      ancestors := ancestors + Vouched(byHeight, observed[i]);
    }
    assert observed[..|observed|] == observed;
    ancestors := Sort(ancestors, HigherFirst);
    ancestor := if ancestors == [] then None else Some(ancestors[0]);
  }

  method CheckReplay(ancestor: Header, replay: seq<Header>) returns (fault: Option<Error>)
    ensures fault == ReplayFault(ancestor, replay)
  {
    var previous := ancestor;
    for i := 0 to |replay|
      invariant ReplayFault(ancestor, replay[..i]) == None
      invariant previous == if i == 0 then ancestor else replay[i - 1]
    {
      var block := replay[i];
      assert replay[..i + 1][..i] == replay[..i];
      if block.number != previous.number + 1 {
        ReplayFaultPersists(ancestor, replay, i + 1);
        return Some(NoncontiguousReplayBlocks);
      }
      if block.parent != previous.hash {
        ReplayFaultPersists(ancestor, replay, i + 1);
        return Some(NoncanonicalObservedBlocks);
      }
      previous := block;
    }
    assert replay[..|replay|] == replay;
    fault := None;
  }

  method PlanReplay(checkpoint: Header, ancestor: Header, observed: seq<Header>,
          maxDepth: nat) returns (r: Result<Plan, Error>)
    ensures r == PlanFrom(checkpoint, ancestor, observed, maxDepth)
  {
    if ancestor.number > checkpoint.number {
      return Failure(ObservedChainAhead);
    }
    var depth := checkpoint.number - ancestor.number;
    if depth > maxDepth {
      return Failure(ReorgDepthExceeded);
    }
    var replay := Above(observed, ancestor.number);
    var fault := CheckReplay(ancestor, replay);
    if fault.Some? {
      return Failure(fault.value);
    }
    r := Success(Plan(ancestor, depth, if depth == 0 then None else Some(ancestor.number + 1),
                      ancestor.number + 1, replay));
  }

  method PlanReorgRollback(checkpoint: Header, canonical: seq<Header>, observed: seq<Header>, maxDepth: nat)
    returns (r: Result<Plan, Error>)
    ensures r == ReorgPlan(checkpoint, canonical, observed, maxDepth)
  {
    if !HeaderInRange(checkpoint) {
      return Failure(InvalidInput);
    }
    var stored := SortedBlocks(canonical);
    if stored.Failure? {
      return Failure(stored.error);
    }
    var seen := SortedBlocks(observed);
    if seen.Failure? {
      return Failure(seen.error);
    }
    var byHeight, ancestor := FindAncestor(stored.value, seen.value);
    if !(checkpoint.number in byHeight && byHeight[checkpoint.number].hash == checkpoint.hash) {
      return Failure(CheckpointNotInCanonicalBlocks);
    }
    if ancestor.None? {
      return Failure(CommonAncestorNotFound);
    }
    r := PlanReplay(checkpoint, ancestor.value, seen.value, maxDepth);
  }

  /** Some block of the list has this height and hash. */
  ghost predicate Holds(s: seq<Header>, number: nat, hash: Hash) {
    exists h :: h in s && h.number == number && h.hash == hash
  }

  /** Observed block `o` is the block of this height and hash, or names it as its parent. */
  predicate Names(o: Header, number: nat, hash: Hash) {
    || (o.number == number && o.hash == hash)
    || (o.number == number + 1 && o.parent == hash)
  }

  ghost predicate Named(observed: seq<Header>, number: nat, hash: Hash) {
    exists o :: o in observed && Names(o, number, hash)
  }

  lemma {:induction false} NamedAppend(observed: seq<Header>, o: Header, number: nat, hash: Hash)
    ensures Named(observed + [o], number, hash) <==> Named(observed, number, hash) || Names(o, number, hash)
  {
    assert o in observed + [o];
    if Named(observed, number, hash) {
      var x :| x in observed && Names(x, number, hash);
      assert x in observed + [o];
    }
  }

  lemma {:induction false} AncestorsAreNamed(byHeight: map<nat, Header>, observed: seq<Header>, number: nat, hash: Hash)
    requires forall k :: k in byHeight ==> byHeight[k].number == k
    ensures Holds(Ancestors(byHeight, observed), number, hash) <==>
      number in byHeight && byHeight[number].hash == hash && Named(observed, number, hash)
  {
    if observed != [] {
      var n := |observed| - 1;
      assert observed == observed[..n] + [observed[n]];
      AncestorsAreNamed(byHeight, observed[..n], number, hash);
      NamedAppend(observed[..n], observed[n], number, hash);
      var front, own := Ancestors(byHeight, observed[..n]), Vouched(byHeight, observed[n]);
      assert Holds(front + own, number, hash) <==> Holds(front, number, hash) || Holds(own, number, hash) by {
        assert forall h :: h in front + own <==> h in front || h in own;
      }
      VouchedAreNamed(byHeight, observed[n], number, hash);
    }
  }

  lemma VouchedAreNamed(byHeight: map<nat, Header>, o: Header, number: nat, hash: Hash)
    requires forall k :: k in byHeight ==> byHeight[k].number == k
    ensures Holds(Vouched(byHeight, o), number, hash) <==>
      number in byHeight && byHeight[number].hash == hash && Names(o, number, hash)
  {
    var own := Vouched(byHeight, o);
    if number in byHeight && byHeight[number].hash == hash && Names(o, number, hash) {
      assert (if o.number == number then o else byHeight[number]) in own;
    }
  }

  lemma {:induction false} AboveFilters(s: seq<Header>, height: nat)
    requires StrictlySorted(s, HeaderBefore)
    ensures StrictlySorted(Above(s, height), HeaderBefore)
    ensures forall h :: h in Above(s, height) <==> h in s && h.number > height
  {
    if s != [] {
      var n := |s| - 1;
      AboveFilters(s[..n], height);
      assert s == s[..n] + [s[n]];
      assert forall h :: h in s[..n] ==> HeaderBefore(h, s[n]);
    }
  }

  /** `s` continues the chain from `ancestor`: no gap, no broken link. */
  ghost predicate Continues(ancestor: Header, s: seq<Header>) {
    forall i :: 0 <= i < |s| ==> LinkedAt(ancestor, s, i)
  }

  ghost predicate LinkedAt(ancestor: Header, s: seq<Header>, i: nat)
    requires i < |s|
  {
    && s[i].number == ancestor.number + 1 + i
    && s[i].parent == if i == 0 then ancestor.hash else s[i - 1].hash
  }

  lemma {:induction false} ReplayFaultIff(ancestor: Header, s: seq<Header>)
    ensures ReplayFault(ancestor, s).None? <==> Continues(ancestor, s)
    ensures ReplayFault(ancestor, s) in {None, Some(NoncontiguousReplayBlocks), Some(NoncanonicalObservedBlocks)}
  {
    if s != [] {
      var n := |s| - 1;
      ReplayFaultIff(ancestor, s[..n]);
      assert forall i :: 0 <= i < n ==> (LinkedAt(ancestor, s, i) <==> LinkedAt(ancestor, s[..n], i));
      if Continues(ancestor, s) {
        assert LinkedAt(ancestor, s, n);
        assert n > 0 ==> LinkedAt(ancestor, s, n - 1);
      } else if Continues(ancestor, s[..n]) {
        assert n > 0 ==> LinkedAt(ancestor, s, n - 1);
      }
    }
  }

  /** The first of the ancestors, sorted high to low, is the highest of them. */
  lemma HighestFirst(ancestors: seq<Header>)
    ensures var found := Sort(ancestors, HigherFirst);
      && (found == [] <==> ancestors == [])
      && (found != [] ==> found[0] in ancestors && forall a :: a in ancestors ==> a.number <= found[0].number)
  {
    assert WeakOrder(HigherFirst);
    SortSorts(ancestors, HigherFirst);
    var found := Sort(ancestors, HigherFirst);
    forall a | a in ancestors
      ensures found != [] && a.number <= found[0].number
    {
      assert a in found;
    }
    if found != [] {
      assert found[0] in found;
    }
  }

  /** `number`/`hash` is a stored block that an observed block vouches for, and no higher one is. */
  ghost predicate IsHighestAncestor(canonical: seq<Header>, observed: seq<Header>, number: nat, hash: Hash) {
    && Holds(canonical, number, hash) && Named(observed, number, hash)
    && forall n: nat, h: Hash :: Holds(canonical, n, h) && Named(observed, n, h) ==> n <= number
  }

  lemma HighestAncestor(stored: seq<Header>, observed: seq<Header>)
    requires StrictlySorted(stored, HeaderBefore)
    ensures var a := CommonAncestor(stored, observed);
      && (a.None? <==> forall n: nat, h: Hash :: !(Holds(stored, n, h) && Named(observed, n, h)))
      && (a.Some? ==> IsHighestAncestor(stored, observed, a.value.number, a.value.hash))
  {
    ByHeightLooksUp(stored);
    var byHeight := ByHeight(stored);
    var all := Ancestors(byHeight, observed);
    HighestFirst(all);
    var a := CommonAncestor(stored, observed);
    forall n: nat, h: Hash
      ensures Holds(all, n, h) <==> Holds(stored, n, h) && Named(observed, n, h)
    {
      AncestorsAreNamed(byHeight, observed, n, h);
      if n in byHeight {
        assert byHeight[n] in stored;
      }
    }
    if a.Some? {
      assert Holds(all, a.value.number, a.value.hash);
    }
  }

  lemma SameHeaders(s: seq<Header>, t: seq<Header>)
    requires forall h :: h in s <==> h in t
    ensures forall n: nat, h: Hash :: Holds(s, n, h) <==> Holds(t, n, h)
    ensures forall n: nat, h: Hash :: Named(s, n, h) <==> Named(t, n, h)
  {
  }

  /** What a plan promises the store. */
  ghost predicate PlanSplices(p: Plan, checkpoint: Header, canonical: seq<Header>, observed: seq<Header>,
          maxDepth: nat) {
    && IsHighestAncestor(canonical, observed, p.ancestor.number, p.ancestor.hash)
    && checkpoint.number == p.ancestor.number + p.rollbackDepth && p.rollbackDepth <= maxDepth
    && p.replayFrom == p.ancestor.number + 1
    && p.deleteFrom == (if p.rollbackDepth == 0 then None else Some(p.replayFrom))
    && (forall o :: o in p.replay <==> o in observed && o.number > p.ancestor.number)
    && Continues(p.ancestor, p.replay)
  }

  /**
   A plan is minimal and splices. The ancestor is the highest stored block that an observed block
   equals or names as parent; no more than `maxDepth` blocks are rolled back; the replay is every
   observed block above the ancestor, and continues it without a gap or a broken link. For ordered
   inputs that hold the checkpoint these are also the only reasons for which planning can fail.
   */
  lemma PlanIsMinimalAndSplices(checkpoint: Header, canonical: seq<Header>, observed: seq<Header>, maxDepth: nat)
    ensures var r := ReorgPlan(checkpoint, canonical, observed, maxDepth);
      r.Success? ==> Holds(canonical, checkpoint.number, checkpoint.hash) &&
                     PlanSplices(r.value, checkpoint, canonical, observed, maxDepth)
  {
    var r := ReorgPlan(checkpoint, canonical, observed, maxDepth);
    if r.Success? {
      SortedHeadersShape(canonical);
      SortedHeadersShape(observed);
      var stored, seen := SortedHeaders(canonical).value, SortedHeaders(observed).value;
      SameHeaders(stored, canonical);
      SameHeaders(seen, observed);
      PlanOnSplices(checkpoint, stored, seen, maxDepth);
    }
  }

  lemma CheckpointIsStored(checkpoint: Header, stored: seq<Header>)
    requires StrictlySorted(stored, HeaderBefore)
    ensures Holds(stored, checkpoint.number, checkpoint.hash) <==>
      checkpoint.number in ByHeight(stored) && ByHeight(stored)[checkpoint.number].hash == checkpoint.hash
  {
    ByHeightLooksUp(stored);
    if checkpoint.number in ByHeight(stored) {
      assert ByHeight(stored)[checkpoint.number] in stored;
    }
  }

  lemma PlanFromSplices(checkpoint: Header, ancestor: Header, stored: seq<Header>, seen: seq<Header>, maxDepth: nat)
    requires StrictlySorted(seen, HeaderBefore)
    requires PlanFrom(checkpoint, ancestor, seen, maxDepth).Success?
    requires IsHighestAncestor(stored, seen, ancestor.number, ancestor.hash)
    ensures PlanSplices(PlanFrom(checkpoint, ancestor, seen, maxDepth).value, checkpoint, stored, seen, maxDepth)
  {
    hide IsHighestAncestor, Above, ReplayFault, Continues;
    AboveFilters(seen, ancestor.number);
    ReplayFaultIff(ancestor, Above(seen, ancestor.number));
  }

  lemma PlanOnSplices(checkpoint: Header, stored: seq<Header>, seen: seq<Header>, maxDepth: nat)
    requires StrictlySorted(stored, HeaderBefore) && StrictlySorted(seen, HeaderBefore)
    requires PlanOn(checkpoint, stored, seen, maxDepth).Success?
    ensures Holds(stored, checkpoint.number, checkpoint.hash)
    ensures PlanSplices(PlanOn(checkpoint, stored, seen, maxDepth).value, checkpoint, stored, seen, maxDepth)
  {
    HighestAncestor(stored, seen);
    PlanFromSplices(checkpoint, CommonAncestor(stored, seen).value, stored, seen, maxDepth);
    CheckpointIsStored(checkpoint, stored);
  }

  lemma PlanFromFailures(checkpoint: Header, ancestor: Header, seen: seq<Header>, maxDepth: nat)
    ensures PlanFrom(checkpoint, ancestor, seen, maxDepth) != Failure(CommonAncestorNotFound)
  {
    ReplayFaultIff(ancestor, Above(seen, ancestor.number));
  }

  /** Ordered inputs holding the checkpoint lack an ancestor exactly when no observed block vouches for a stored one. */
  lemma NoAncestorIff(checkpoint: Header, canonical: seq<Header>, observed: seq<Header>, maxDepth: nat)
    requires HeaderInRange(checkpoint) && SortedHeaders(canonical).Success? && SortedHeaders(observed).Success?
    requires Holds(canonical, checkpoint.number, checkpoint.hash)
    ensures ReorgPlan(checkpoint, canonical, observed, maxDepth) == Failure(CommonAncestorNotFound) <==>
      forall n: nat, h: Hash :: !(Holds(canonical, n, h) && Named(observed, n, h))
  {
    SortedHeadersShape(canonical);
    SortedHeadersShape(observed);
    var stored, seen := SortedHeaders(canonical).value, SortedHeaders(observed).value;
    SameHeaders(stored, canonical);
    SameHeaders(seen, observed);
    HighestAncestor(stored, seen);
    CheckpointIsStored(checkpoint, stored);
    if CommonAncestor(stored, seen).Some? {
      PlanFromFailures(checkpoint, CommonAncestor(stored, seen).value, seen, maxDepth);
    }
  }

  /** A continuation of `ancestor` is strictly sorted, and determined by its elements. */
  lemma ContinuationIsUnique(ancestor: Header, s: seq<Header>, t: seq<Header>)
    requires Continues(ancestor, s) && StrictlySorted(t, HeaderBefore) && forall h :: h in s <==> h in t
    ensures s == t
  {
    assert WeakOrder(HeaderBefore);
    forall i, j | 0 <= i < j < |s|
      ensures HeaderBefore(s[i], s[j])
    {
      assert LinkedAt(ancestor, s, i) && LinkedAt(ancestor, s, j);
    }
    StrictlySortedUnique(s, t, HeaderBefore);
  }

  lemma OneHashPerHeight(s: seq<Header>, number: nat, h: Hash, k: Hash)
    requires StrictlySorted(s, HeaderBefore) && Holds(s, number, h) && Holds(s, number, k)
    ensures h == k
  {
    ByHeightLooksUp(s);
  }

  lemma SplicingPlanIsFound(p: Plan, checkpoint: Header, stored: seq<Header>, seen: seq<Header>, maxDepth: nat)
    requires StrictlySorted(stored, HeaderBefore) && StrictlySorted(seen, HeaderBefore)
    requires Holds(stored, checkpoint.number, checkpoint.hash) && PlanSplices(p, checkpoint, stored, seen, maxDepth)
    ensures var r := PlanOn(checkpoint, stored, seen, maxDepth); r.Success? && p == r.value.(ancestor := p.ancestor)
  {
    hide Holds, Named, ByHeight, CommonAncestor, Above, ReplayFault;
    CheckpointIsStored(checkpoint, stored);
    HighestAncestor(stored, seen);
    assert Holds(stored, p.ancestor.number, p.ancestor.hash) && Named(seen, p.ancestor.number, p.ancestor.hash);
    var ancestor := CommonAncestor(stored, seen).value;
    OneHashPerHeight(stored, ancestor.number, ancestor.hash, p.ancestor.hash);
    AboveFilters(seen, ancestor.number);
    ContinuationIsUnique(p.ancestor, p.replay, Above(seen, ancestor.number));
    assert forall i :: 0 <= i < |p.replay| ==> LinkedAt(p.ancestor, p.replay, i) ==> LinkedAt(ancestor, p.replay, i);
    ReplayFaultIff(ancestor, p.replay);
  }

  /**
   For inputs in order, a plan is found exactly when the checkpoint is among the stored blocks and some
   plan is minimal and splices; and then it is that plan.
   */
  lemma PlanSucceedsIff(checkpoint: Header, canonical: seq<Header>, observed: seq<Header>, maxDepth: nat)
    requires HeaderInRange(checkpoint) && SortedHeaders(canonical).Success? && SortedHeaders(observed).Success?
    ensures var r := ReorgPlan(checkpoint, canonical, observed, maxDepth);
      && (r.Success? <==> Holds(canonical, checkpoint.number, checkpoint.hash) &&
                          exists p :: PlanSplices(p, checkpoint, canonical, observed, maxDepth))
      && (r.Success? ==> forall p :: PlanSplices(p, checkpoint, canonical, observed, maxDepth) ==>
                           p == r.value.(ancestor := p.ancestor))
  {
    hide PlanOn, Holds, SortedHeaders;
    PlanIsMinimalAndSplices(checkpoint, canonical, observed, maxDepth);
    SortedHeadersShape(canonical);
    SortedHeadersShape(observed);
    var stored, seen := SortedHeaders(canonical).value, SortedHeaders(observed).value;
    SameHeaders(stored, canonical);
    SameHeaders(seen, observed);
    if Holds(canonical, checkpoint.number, checkpoint.hash) {
      forall p | PlanSplices(p, checkpoint, canonical, observed, maxDepth)
        ensures var r := PlanOn(checkpoint, stored, seen, maxDepth); r.Success? && p == r.value.(ancestor := p.ancestor)
      {
        SplicingPlanIsFound(p, checkpoint, stored, seen, maxDepth);
      }
    }
  }
}

/**
 Which refusal belongs to which fault: for every error of the log order, the reorganisation plan and the store
 transaction, exactly when it is raised (server/chain-indexer-core.js:110-233, server/chain-indexer-store.js:47-313).
 */
module IndexerRefusals {
  import opened Wrappers
  import opened Sorting
  import opened ChainTypes
  import opened IndexerCore
  import opened IndexerStore
  import opened FinalizedIndex
  import opened IndexerInvariant
  import opened IndexerSuccess

  // ---------------------------------------------------------------- logs

  /** Every number of the log fits its column. */
  predicate LogFitsColumns(log: Log) {
    log.blockNumber <= 9_223_372_036_854_775_807 && log.txIndex <= 2_147_483_647 && log.logIndex <= 2_147_483_647
  }

  /** Two different logs of one contract, transaction and place. */
  ghost predicate Contradicting(logs: seq<Log>) {
    exists a, b :: a in logs && b in logs && a != b
      && a.address == b.address && a.txHash == b.txHash && a.logIndex == b.logIndex
  }

  /** A number out of range is found before a contradiction; nothing else is refused. */
  lemma LogRefusals(logs: seq<Log>)
    ensures var r := CanonicalLogs(logs); var fit := forall log :: log in logs ==> LogFitsColumns(log);
      && (r == Failure(InvalidInput) <==> !fit)
      && (r == Failure(ConflictingDuplicateEvent) <==> fit && Contradicting(logs))
      && (r.Success? <==> fit && !Contradicting(logs))
  {
    assert Conflicting(logs) <==> Contradicting(logs);
  }

  // ---------------------------------------------------------------- headers in order

  /** The first `i` headers rise and are linked where they are neighbours. */
  ghost predicate HeadersRise(s: seq<Header>, i: int)
    requires i <= |s|
  {
    forall j, k :: 0 <= j < i && 0 < k < i && k == j + 1 ==>
      s[j].number < s[k].number && (s[k].number == s[j].number + 1 ==> s[k].parent == s[j].hash)
  }

  /** Header `i` is the first that does not follow; it repeats the height of the one before or is not linked to it. */
  ghost predicate FirstHeaderFault(s: seq<Header>, i: int, repeats: bool) {
    && 1 <= i < |s| && HeadersRise(s, i)
    && if repeats then s[i].number == s[i - 1].number
       else s[i].number == s[i - 1].number + 1 && s[i].parent != s[i - 1].hash
  }

  lemma {:induction false} RisenHeadersHaveNoFault(s: seq<Header>)
    requires HeadersRise(s, |s|)
    ensures HeaderFault(s).None?
  {
    if |s| >= 2 {
      assert HeadersRise(s[..|s| - 1], |s| - 1);
      RisenHeadersHaveNoFault(s[..|s| - 1]);
    }
  }

  lemma FirstFaultDecides(s: seq<Header>, i: int, repeats: bool)
    requires FirstHeaderFault(s, i, repeats)
    ensures HeaderFault(s) == Some(if repeats then DuplicateBlockHeight else NoncanonicalObservedBlocks)
  {
    assert HeadersRise(s[..i], i);
    RisenHeadersHaveNoFault(s[..i]);
    assert s[..i + 1][..i] == s[..i];
    FaultPersists(s, i + 1);
  }

  lemma RisePrefix(s: seq<Header>, n: nat, i: int)
    requires n <= |s| && i <= n
    ensures HeadersRise(s[..n], i) <==> HeadersRise(s, i)
  {
    assert forall j :: 0 <= j < n ==> s[..n][j] == s[j];
  }

  lemma RiseStep(s: seq<Header>, n: nat)
    requires 1 <= n < |s| && HeadersRise(s, n) && s[n - 1].number < s[n].number
    requires s[n].number == s[n - 1].number + 1 ==> s[n].parent == s[n - 1].hash
    ensures HeadersRise(s, n + 1)
  {
  }

  lemma {:induction false} SomeFaultIsFirst(s: seq<Header>) returns (i: int)
    requires Sorted(s, HeaderBefore)
    ensures HeaderFault(s).None? ==> HeadersRise(s, |s|)
    ensures HeaderFault(s).Some? ==>
      || (HeaderFault(s) == Some(DuplicateBlockHeight) && FirstHeaderFault(s, i, true))
      || (HeaderFault(s) == Some(NoncanonicalObservedBlocks) && FirstHeaderFault(s, i, false))
  {
    i := 0;
    if |s| >= 2 {
      hide HeadersRise;
      var n := |s| - 1;
      i := SomeFaultIsFirst(s[..n]);
      assert !HeaderBefore(s[n], s[n - 1]);
      RisePrefix(s, n, n);
      if HeaderFault(s[..n]).None? {
        i := n;
        if HeaderFault(s).None? {
          RiseStep(s, n);
        }
      } else {
        RisePrefix(s, n, i);
      }
    }
  }

  predicate HeaderFits(h: Header) {
    h.number <= 9_223_372_036_854_775_807
  }

  /** Some header of the list is the first that does not follow. */
  ghost predicate Faulty(s: seq<Header>, repeats: bool) {
    exists i :: FirstHeaderFault(s, i, repeats)
  }

  lemma FaultsAreFirst(s: seq<Header>)
    requires Sorted(s, HeaderBefore)
    ensures HeaderFault(s) == Some(DuplicateBlockHeight) <==> Faulty(s, true)
    ensures HeaderFault(s) == Some(NoncanonicalObservedBlocks) <==> Faulty(s, false)
    ensures HeaderFault(s) in {None, Some(DuplicateBlockHeight), Some(NoncanonicalObservedBlocks)}
    ensures HeaderFault(s).None? <==> HeadersRise(s, |s|)
  {
    hide FirstHeaderFault, HeadersRise, HeaderFault;
    var i := SomeFaultIsFirst(s);
    if HeadersRise(s, |s|) {
      RisenHeadersHaveNoFault(s);
    }
    if k :| FirstHeaderFault(s, k, true) {
      FirstFaultDecides(s, k, true);
    }
    if k :| FirstHeaderFault(s, k, false) {
      FirstFaultDecides(s, k, false);
    }
  }

  /** Headers by height, equal heights as they were given: the first one that does not follow decides. */
  lemma HeaderRefusals(headers: seq<Header>, s: seq<Header>)
    requires s == Sort(headers, HeaderBefore)
    ensures var r := SortedHeaders(headers); var fit := forall h :: h in headers ==> HeaderFits(h);
      && (r == Failure(InvalidInput) <==> !fit)
      && (r == Failure(DuplicateBlockHeight) <==> fit && Faulty(s, true))
      && (r == Failure(NoncanonicalObservedBlocks) <==> fit && Faulty(s, false))
      && (r.Success? <==> fit && HeadersRise(s, |s|))
  {
    hide Faulty, HeadersRise, HeaderFault;
    assert WeakOrder(HeaderBefore);
    SortSorts(headers, HeaderBefore);
    FaultsAreFirst(s);
  }

  // ---------------------------------------------------------------- the reorganisation plan

  /** Header `i` is the first of a replay that does not continue it: it leaves a gap, or is not linked. */
  ghost predicate FirstReplayFault(ancestor: Header, s: seq<Header>, i: int, gap: bool) {
    && 0 <= i < |s| && Continues(ancestor, s[..i])
    && var previous := if i == 0 then ancestor else s[i - 1];
       if gap then s[i].number != previous.number + 1
       else s[i].number == previous.number + 1 && s[i].parent != previous.hash
  }

  ghost predicate BrokenReplay(ancestor: Header, s: seq<Header>, gap: bool) {
    exists i :: FirstReplayFault(ancestor, s, i, gap)
  }

  lemma ReplayFaultDecides(ancestor: Header, s: seq<Header>, i: int, gap: bool)
    requires FirstReplayFault(ancestor, s, i, gap)
    ensures ReplayFault(ancestor, s) == Some(if gap then NoncontiguousReplayBlocks else NoncanonicalObservedBlocks)
  {
    hide Continues;
    ReplayFaultIff(ancestor, s[..i]);
    assert s[..i + 1][..i] == s[..i];
    ReplayFaultPersists(ancestor, s, i + 1);
  }

  lemma {:induction false} SomeReplayFaultIsFirst(ancestor: Header, s: seq<Header>) returns (i: int)
    ensures ReplayFault(ancestor, s).Some? ==>
      || (ReplayFault(ancestor, s) == Some(NoncontiguousReplayBlocks) && FirstReplayFault(ancestor, s, i, true))
      || (ReplayFault(ancestor, s) == Some(NoncanonicalObservedBlocks) && FirstReplayFault(ancestor, s, i, false))
  {
    hide Continues;
    i := 0;
    if s != [] {
      var n := |s| - 1;
      i := SomeReplayFaultIsFirst(ancestor, s[..n]);
      if ReplayFault(ancestor, s[..n]).None? {
        ReplayFaultIff(ancestor, s[..n]);
        i := n;
      } else {
        assert s[..n][..i] == s[..i];
      }
    }
  }

  /** A replay is sound, or its first fault decides. */
  lemma ReplayRefusal(ancestor: Header, s: seq<Header>)
    ensures ReplayFault(ancestor, s) == Some(NoncontiguousReplayBlocks) <==> BrokenReplay(ancestor, s, true)
    ensures ReplayFault(ancestor, s) == Some(NoncanonicalObservedBlocks) <==> BrokenReplay(ancestor, s, false)
    ensures ReplayFault(ancestor, s).None? <==> Continues(ancestor, s)
    ensures ReplayFault(ancestor, s) in {None, Some(NoncontiguousReplayBlocks), Some(NoncanonicalObservedBlocks)}
  {
    hide FirstReplayFault, Continues, ReplayFault;
    ReplayFaultIff(ancestor, s);
    var i := SomeReplayFaultIsFirst(ancestor, s);
    if k :| FirstReplayFault(ancestor, s, k, true) {
      ReplayFaultDecides(ancestor, s, k, true);
    }
    if k :| FirstReplayFault(ancestor, s, k, false) {
      ReplayFaultDecides(ancestor, s, k, false);
    }
  }

  /** Faults of the inputs come first: the checkpoint's range, then the stored headers, then the observed ones. */
  lemma PlanInputRefusals(checkpoint: Header, canonical: seq<Header>, observed: seq<Header>, maxDepth: nat)
    ensures var r := ReorgPlan(checkpoint, canonical, observed, maxDepth);
      var stored, seen := SortedHeaders(canonical), SortedHeaders(observed);
      && (!HeaderFits(checkpoint) ==> r == Failure(InvalidInput))
      && (HeaderFits(checkpoint) && stored.Failure? ==> r == Failure(stored.error))
      && (HeaderFits(checkpoint) && stored.Success? && seen.Failure? ==> r == Failure(seen.error))
      && (HeaderFits(checkpoint) && stored.Success? && seen.Success? ==>
            (r == Failure(CheckpointNotInCanonicalBlocks) <==> !Holds(canonical, checkpoint.number, checkpoint.hash)))
  {
    hide SortedHeaders, CommonAncestor, PlanFrom;
    if SortedHeaders(canonical).Success? {
      SortedHeadersShape(canonical);
      SameHeaders(SortedHeaders(canonical).value, canonical);
      CheckpointIsStored(checkpoint, SortedHeaders(canonical).value);
    }
    if SortedHeaders(canonical).Success? && SortedHeaders(observed).Success? {
      var stored, seen := SortedHeaders(canonical).value, SortedHeaders(observed).value;
      if CommonAncestor(stored, seen).Some? {
        PlanFromRefusals(checkpoint, CommonAncestor(stored, seen).value, seen, maxDepth);
      }
    }
  }

  lemma PlanFromRefusals(checkpoint: Header, ancestor: Header, seen: seq<Header>, maxDepth: nat)
    ensures var r := PlanFrom(checkpoint, ancestor, seen, maxDepth); var replay := Above(seen, ancestor.number);
      var within := ancestor.number <= checkpoint.number <= ancestor.number + maxDepth;
      && (r == Failure(ObservedChainAhead) <==> ancestor.number > checkpoint.number)
      && (r == Failure(ReorgDepthExceeded) <==> checkpoint.number > ancestor.number + maxDepth)
      && (r == Failure(NoncontiguousReplayBlocks) <==> within && BrokenReplay(ancestor, replay, true))
      && (r == Failure(NoncanonicalObservedBlocks) <==> within && BrokenReplay(ancestor, replay, false))
      && (r.Success? <==> within && Continues(ancestor, replay))
      && (r.Failure? ==> r.error in {ObservedChainAhead, ReorgDepthExceeded, NoncontiguousReplayBlocks,
                                     NoncanonicalObservedBlocks})
  {
    hide BrokenReplay, Continues, ReplayFault, Above;
    ReplayRefusal(ancestor, Above(seen, ancestor.number));
  }

  /**
   For inputs in order that hold the checkpoint and have a common ancestor, the highest of them decides: the
   observed chain is ahead, the reorganisation is too deep, or the replay above it has a first fault, in this order.
   */
  lemma PlanRefusals(checkpoint: Header, canonical: seq<Header>, observed: seq<Header>, maxDepth: nat, a: nat,
          hash: Hash, replay: seq<Header>)
    requires HeaderFits(checkpoint) && SortedHeaders(canonical).Success? && SortedHeaders(observed).Success?
    requires Holds(canonical, checkpoint.number, checkpoint.hash) && IsHighestAncestor(canonical, observed, a, hash)
    requires StrictlySorted(replay, HeaderBefore) && forall h :: h in replay <==> h in observed && h.number > a
    ensures var r := ReorgPlan(checkpoint, canonical, observed, maxDepth); var ancestor := Header(a, hash, 0);
      var within := a <= checkpoint.number <= a + maxDepth;
      && (r == Failure(ObservedChainAhead) <==> a > checkpoint.number)
      && (r == Failure(ReorgDepthExceeded) <==> checkpoint.number > a + maxDepth)
      && (r == Failure(NoncontiguousReplayBlocks) <==> within && BrokenReplay(ancestor, replay, true))
      && (r == Failure(NoncanonicalObservedBlocks) <==> within && BrokenReplay(ancestor, replay, false))
      && (r.Success? <==> within && Continues(ancestor, replay))
  {
    hide SortedHeaders, CommonAncestor, PlanFrom, Above, Holds, Named, BrokenReplay, Continues, HeaderBefore;
    SortedHeadersShape(canonical);
    SortedHeadersShape(observed);
    var stored, seen := SortedHeaders(canonical).value, SortedHeaders(observed).value;
    SameHeaders(stored, canonical);
    SameHeaders(seen, observed);
    CheckpointIsStored(checkpoint, stored);
    HighestAncestor(stored, seen);
    assert Holds(stored, a, hash) && Named(seen, a, hash);
    var found := CommonAncestor(stored, seen).value;
    OneHashPerHeight(stored, a, hash, found.hash);
    AboveIsReplay(seen, a, replay);
    PlanFromRefusals(checkpoint, found, seen, maxDepth);
    ParentDoesNotMatter(found, Header(a, hash, 0), replay);
  }

  lemma AboveIsReplay(seen: seq<Header>, a: nat, replay: seq<Header>)
    requires StrictlySorted(seen, HeaderBefore) && StrictlySorted(replay, HeaderBefore)
    requires forall h :: h in replay <==> h in seen && h.number > a
    ensures Above(seen, a) == replay
  {
    AboveFilters(seen, a);
    assert WeakOrder(HeaderBefore);
    StrictlySortedUnique(Above(seen, a), replay, HeaderBefore);
  }

  lemma ParentDoesNotMatter(x: Header, y: Header, s: seq<Header>)
    requires x.number == y.number && x.hash == y.hash
    ensures Continues(x, s) <==> Continues(y, s)
    ensures BrokenReplay(x, s, true) <==> BrokenReplay(y, s, true)
    ensures BrokenReplay(x, s, false) <==> BrokenReplay(y, s, false)
  {
    hide Continues;
    SameContinuation(x, y, s);
    forall i, gap | 0 <= i < |s|
      ensures FirstReplayFault(x, s, i, gap) <==> FirstReplayFault(y, s, i, gap)
    {
      SameContinuation(x, y, s[..i]);
    }
  }

  lemma SameContinuation(x: Header, y: Header, s: seq<Header>)
    requires x.number == y.number && x.hash == y.hash
    ensures Continues(x, s) <==> Continues(y, s)
  {
    forall i | 0 <= i < |s|
      ensures LinkedAt(x, s, i) <==> LinkedAt(y, s, i)
    {
    }
  }

  // ---------------------------------------------------------------- before the transaction

  datatype Slip = Repeats | Gap | Unlinked

  /** Block `i` is the first of a batch in height order that does not continue it, and this is how. */
  ghost predicate FirstSlip(s: seq<Block>, i: int, slip: Slip) {
    && 1 <= i < |s| && ChainOf(s[..i])
    && match slip
       case Repeats => s[i].number == s[i - 1].number
       case Gap => s[i].number != s[i - 1].number && s[i].number != s[i - 1].number + 1
       case Unlinked => s[i].number == s[i - 1].number + 1 && s[i].parent != s[i - 1].hash
  }

  ghost predicate Slips(s: seq<Block>, slip: Slip) {
    exists i :: FirstSlip(s, i, slip)
  }

  function SlipError(slip: Slip): Error {
    match slip
    case Repeats => DuplicateBlockHeight
    case Gap => NoncontiguousObservedBlocks
    case Unlinked => NoncanonicalObservedBlocks
  }

  lemma FirstSlipDecides(s: seq<Block>, i: int, slip: Slip)
    requires FirstSlip(s, i, slip)
    ensures BatchFault(s) == Some(SlipError(slip))
  {
    hide ChainOf;
    NoBatchFault(s[..i]);
    assert s[..i + 1][..i] == s[..i];
    BatchFaultPersists(s, i + 1);
  }

  lemma {:induction false} SomeSlipIsFirst(s: seq<Block>) returns (i: int, slip: Slip)
    ensures BatchFault(s).Some? ==> FirstSlip(s, i, slip) && BatchFault(s) == Some(SlipError(slip))
  {
    hide ChainOf;
    i, slip := 0, Gap;
    if |s| >= 2 {
      var n := |s| - 1;
      i, slip := SomeSlipIsFirst(s[..n]);
      if BatchFault(s[..n]).None? {
        NoBatchFault(s[..n]);
        i := n;
        slip := if s[n].number == s[n - 1].number then Repeats
                else if s[n].number != s[n - 1].number + 1 then Gap else Unlinked;
      } else {
        assert s[..n][..i] == s[..i];
      }
    }
  }

  lemma SlipsDecide(s: seq<Block>)
    ensures forall slip: Slip :: BatchFault(s) == Some(SlipError(slip)) <==> Slips(s, slip)
    ensures BatchFault(s).None? <==> ChainOf(s)
    ensures BatchFault(s).Some? ==> exists slip: Slip :: BatchFault(s) == Some(SlipError(slip))
  {
    hide ChainOf, BatchFault, FirstSlip;
    NoBatchFault(s);
    var i, found := SomeSlipIsFirst(s);
    forall slip: Slip
      ensures BatchFault(s) == Some(SlipError(slip)) <==> Slips(s, slip)
    {
      if k :| FirstSlip(s, k, slip) {
        FirstSlipDecides(s, k, slip);
      }
    }
  }

  /** Log `i` is the first, in execution order, that is of another contract, or else of no supplied block. */
  ghost predicate FirstStray(contract: Address, blocks: seq<Block>, logs: seq<Log>, i: int, foreign: bool) {
    && 0 <= i < |logs|
    && (forall j :: 0 <= j < i ==>
          logs[j].address == contract && Supplied(blocks, logs[j].blockNumber, logs[j].blockHash))
    && if foreign then logs[i].address != contract
       else logs[i].address == contract && !Supplied(blocks, logs[i].blockNumber, logs[i].blockHash)
  }

  ghost predicate Strays(contract: Address, blocks: seq<Block>, logs: seq<Log>, foreign: bool) {
    exists i :: FirstStray(contract, blocks, logs, i, foreign)
  }

  lemma {:induction false} StraysDecide(contract: Address, blocks: seq<Block>, logs: seq<Log>)
    ensures LogFault(contract, blocks, logs) == Some(InvalidInput) <==> Strays(contract, blocks, logs, true)
    ensures LogFault(contract, blocks, logs) == Some(LogNotInSuppliedBlocks) <==> Strays(contract, blocks, logs, false)
    ensures LogFault(contract, blocks, logs) in {None, Some(InvalidInput), Some(LogNotInSuppliedBlocks)}
  {
    if logs != [] {
      var n := |logs| - 1;
      StraysDecide(contract, blocks, logs[..n]);
      StrayOrLast(contract, blocks, logs, true);
      StrayOrLast(contract, blocks, logs, false);
      if LogFault(contract, blocks, logs[..n]).None? {
        AllOfContract(contract, blocks, logs[..n]);
        assert forall j :: 0 <= j < n ==> logs[..n][j] == logs[j] && logs[j] in logs[..n];
      }
      if i :| FirstStray(contract, blocks, logs[..n], i, true) {
        assert !FirstStray(contract, blocks, logs, n, true) && !FirstStray(contract, blocks, logs, n, false);
      }
      if i :| FirstStray(contract, blocks, logs[..n], i, false) {
        assert !FirstStray(contract, blocks, logs, n, true) && !FirstStray(contract, blocks, logs, n, false);
      }
    }
  }

  lemma StrayOrLast(contract: Address, blocks: seq<Block>, logs: seq<Log>, foreign: bool)
    requires logs != []
    ensures var n := |logs| - 1;
      Strays(contract, blocks, logs, foreign) <==>
        Strays(contract, blocks, logs[..n], foreign) || FirstStray(contract, blocks, logs, n, foreign)
  {
    var n := |logs| - 1;
    forall i | 0 <= i < n
      ensures FirstStray(contract, blocks, logs, i, foreign) <==> FirstStray(contract, blocks, logs[..n], i, foreign)
    {
      assert forall j :: 0 <= j <= i ==> logs[..n][j] == logs[j];
    }
    if i :| FirstStray(contract, blocks, logs[..n], i, foreign) {
      assert FirstStray(contract, blocks, logs, i, foreign);
    }
    if i :| FirstStray(contract, blocks, logs, i, foreign) && i < n {
      assert FirstStray(contract, blocks, logs[..n], i, foreign);
    }
  }

  /** There are blocks, and the numbers of each of them fit. */
  predicate BlocksFitColumns(blocks: seq<Block>) {
    blocks != [] && forall b :: b in blocks ==> b.number <= 9_223_372_036_854_775_807 && b.time <= 8_640_000_000_000
  }

  /** The checkpoint fits its column and is the last of the blocks. */
  predicate EndsAt(s: seq<Block>, checkpoint: Header) {
    && HeaderFits(checkpoint) && s != []
    && s[|s| - 1].number == checkpoint.number && s[|s| - 1].hash == checkpoint.hash
  }

  lemma BlockRefusals(blocks: seq<Block>, s: seq<Block>)
    requires s == Sort(blocks, LowerBlock)
    ensures var r := NormalizedBlocks(blocks); var fit := BlocksFitColumns(blocks);
      && (!fit ==> r == Failure(InvalidInput))
      && (fit && ChainOf(s) ==> r == Success(s))
      && (fit && !ChainOf(s) ==> r.Failure? && r.error != InvalidInput)
      && (fit ==> forall slip: Slip :: r == Failure(SlipError(slip)) <==> Slips(s, slip))
      && (fit && !ChainOf(s) ==> exists slip: Slip :: r == Failure(SlipError(slip)))
    ensures ChainOf(s) ==> forall slip: Slip :: !Slips(s, slip)
    ensures BlocksFitColumns(blocks) ==> s != []
  {
    hide ChainOf, Slips, BatchFault;
    SlipsDecide(s);
    assert BlocksFitColumns(blocks) <==> !(blocks == [] || exists b :: b in blocks && !BlockInRange(b));
  }

  /** The batch is one chain that ends at its checkpoint. */
  ghost predicate OneChain(batch: Batch, s: seq<Block>) {
    BlocksFitColumns(batch.blocks) && ChainOf(s) && EndsAt(s, batch.checkpoint)
  }

  lemma PrepareStages(contract: Address, batch: Batch, s: seq<Block>)
    ensures NormalizedBlocks(batch.blocks).Failure? ==>
      Prepare(contract, batch) == Failure(NormalizedBlocks(batch.blocks).error)
    ensures NormalizedBlocks(batch.blocks) == Success(s) && s != [] ==>
      var r := Prepare(contract, batch);
      if !HeaderFits(batch.checkpoint) then r == Failure(InvalidInput)
      else if !EndsAt(s, batch.checkpoint) then r == Failure(CheckpointNotBatchTip)
      else r.Success? || r.error in {InvalidInput, ConflictingDuplicateEvent, LogNotInSuppliedBlocks}
  {
    hide NormalizedBlocks, LogFault, CanonicalLogs;
    LogStage(contract, s, batch.logs);
  }

  /** Ranges of the blocks, their order, and then the checkpoint. */
  lemma ChainRefusals(contract: Address, batch: Batch, s: seq<Block>)
    requires s == Sort(batch.blocks, LowerBlock)
    ensures var r := Prepare(contract, batch); var fit := BlocksFitColumns(batch.blocks);
      && (r == Failure(CheckpointNotBatchTip) <==>
            fit && ChainOf(s) && HeaderFits(batch.checkpoint) && !EndsAt(s, batch.checkpoint))
      && (!fit || (ChainOf(s) && !HeaderFits(batch.checkpoint)) ==> r == Failure(InvalidInput))
      && (r.Success? || r == Failure(ConflictingDuplicateEvent) || r == Failure(LogNotInSuppliedBlocks) ==>
            OneChain(batch, s))
  {
    hide ChainOf, Slips, NormalizedBlocks, Prepare, BlocksFitColumns, EndsAt;
    BlockRefusals(batch.blocks, s);
    PrepareStages(contract, batch, s);
  }

  /** A height twice, a gap or a broken link is raised exactly for the first block, by height, that has it. */
  lemma OrderRefusals(contract: Address, batch: Batch, s: seq<Block>, slip: Slip)
    requires s == Sort(batch.blocks, LowerBlock)
    ensures Prepare(contract, batch) == Failure(SlipError(slip)) <==>
      BlocksFitColumns(batch.blocks) && Slips(s, slip)
  {
    hide ChainOf, Slips, NormalizedBlocks, Prepare, BlocksFitColumns, EndsAt;
    BlockRefusals(batch.blocks, s);
    PrepareStages(contract, batch, s);
  }

  lemma LogStage(contract: Address, s: seq<Block>, logs: seq<Log>)
    ensures CanonicalLogs(logs).Failure? ==> CanonicalLogs(logs).error in {InvalidInput, ConflictingDuplicateEvent}
    ensures CanonicalLogs(logs).Success? && LogFault(contract, s, CanonicalLogs(logs).value).Some? ==>
      LogFault(contract, s, CanonicalLogs(logs).value).value in {InvalidInput, LogNotInSuppliedBlocks}
  {
    hide LogFault, CanonicalLogs, Strays;
    LogRefusals(logs);
    if CanonicalLogs(logs).Success? {
      StraysDecide(contract, s, CanonicalLogs(logs).value);
    }
  }

  /** Once the blocks are one chain that ends at the checkpoint: ranges of the logs, contradictions, stray logs. */
  lemma BatchLogRefusals(contract: Address, batch: Batch, s: seq<Block>)
    requires s == Sort(batch.blocks, LowerBlock) && OneChain(batch, s)
    ensures var r, logs := Prepare(contract, batch), CanonicalLogs(batch.logs);
      && (logs.Failure? ==> r == Failure(logs.error))
      && (logs.Success? ==>
            && (r == Failure(InvalidInput) <==> Strays(contract, s, logs.value, true))
            && (r == Failure(LogNotInSuppliedBlocks) <==> Strays(contract, s, logs.value, false))
            && (r.Success? <==> !Strays(contract, s, logs.value, true) && !Strays(contract, s, logs.value, false)))
      && (r.Success? ==>
            r.value == Prepared(s, logs.value, Checkpoint(batch.checkpoint.number, batch.checkpoint.hash),
                                batch.maxRollbackDepth))
  {
    hide ChainOf, Slips, NormalizedBlocks, LogFault, CanonicalLogs, BlocksFitColumns, Strays;
    BlockRefusals(batch.blocks, s);
    if CanonicalLogs(batch.logs).Success? {
      StraysDecide(contract, s, CanonicalLogs(batch.logs).value);
    }
  }
}

/**
 The pending-transaction protocol of the wallet adapter (src/world-game/adapter.js:41-115, 132-249 and
 342-353). An `await` ends a step: what happens next is the next event, and calls may come in between.
 */
module WalletAdapter {
  import opened Wrappers

  type Action = string
  type OpHash = nat

  /** What session storage holds for one wallet and contract. */
  datatype Record = Record(action: Action, hash: OpHash)

  /** Where the action in flight is suspended. */
  datatype Phase =
    | Checking
    | Sending
    | Polling(hash: OpHash)
    | ReadingState
    | Settled

  datatype Flight = Flight(action: Action, phase: Phase)

  datatype Adapter = Adapter(pendingHash: Option<OpHash>, pendingAction: Option<Action>, inFlight: Option<Flight>)

  /** A request at the wallet: open, or accepted as a user operation whose answer is on its way to the page. */
  datatype Prompt = Open | Taken(hash: OpHash)

  /**
   The wallet's side, which no code of the page reads: the request the page waits for, the number of open
   requests that no page waits for any more, and the accepted user operations that are not final yet.
   */
  datatype Wallet = Wallet(prompt: Option<Prompt>, orphans: nat, outstanding: set<OpHash>)

  datatype World = World(adapter: Adapter, storage: Option<Record>, wallet: Wallet)

  /**
   `Disowned`: the adapter turns down an operation the wallet accepted, as for another account. `Abandoned`: the
   send call throws although the wallet's request stays open.
   */
  datatype WalletAnswer =
    | Confirmed(hash: OpHash)
    | Disowned(hash: OpHash)
    | Rejected
    | Abandoned

  datatype Poll =
    | TimedOut
    | TransactionFailed
    | OtherError
    | Receipt(success: bool)

  /** `stored` says whether session storage took the write; `readable` whether it could be read. */
  datatype Event =
    | Execute(action: Action)
    | ResumePending
    | ChecksEnd(ok: bool)
    | WalletAccepts(hash: OpHash)
    | WalletAnswers(answer: WalletAnswer, stored: bool)
    | PollEnds(poll: Poll, stored: bool)
    | StateRead(ok: bool)
    | FlightEnds
    | Reload(readable: bool)
    | OldRequestEnds(accepted: Option<OpHash>)
    | Settles(settled: OpHash)

  datatype Output =
    | Nothing
    | Started
    | Sent
    | Joined
    | TransactionPending
    | Thrown
    | StillPending(hash: OpHash)
    | Completed

  const IDLE := Adapter(None, None, None)
  const START := World(IDLE, None, Wallet(None, 0, {}))

  function Persisted(storage: Option<Record>, a: Adapter, stored: bool): Option<Record> {
    if !stored then storage
    else if a.pendingAction.None? || a.pendingHash.None? then None
    else Some(Record(a.pendingAction.value, a.pendingHash.value))
  }

  /** The public call: one action at a time; a call while one is in flight joins it or is refused. */
  function ExecuteStep(a: Adapter, action: Action): (Adapter, Output) {
    match a.inFlight
    case Some(flight) =>
      if a.pendingAction != Some(action) && flight.action != action then (a, TransactionPending) else (a, Joined)
    case None =>
      if a.pendingHash.Some? && a.pendingAction != Some(action) then
        (a.(inFlight := Some(Flight(action, Settled))), TransactionPending)
      else if a.pendingHash.Some? then
        (a.(inFlight := Some(Flight(action, Polling(a.pendingHash.value)))), Started)
      else
        (a.(inFlight := Some(Flight(action, Checking))), Started)
  }

  function Suspend(a: Adapter, phase: Phase): Adapter {
    match a.inFlight
    case None => a
    case Some(flight) => a.(inFlight := Some(Flight(flight.action, phase)))
  }

  predicate InPhase(a: Adapter, phase: Phase) {
    a.inFlight.Some? && a.inFlight.value.phase == phase
  }

  function Cleared(a: Adapter): Adapter {
    a.(pendingHash := None, pendingAction := None)
  }

  /** The receipt settles the user operation, one way or the other. */
  predicate Final(poll: Poll) {
    poll.TransactionFailed? || poll.Receipt?
  }

  /** An answer says what the wallet did with the request of this page. */
  predicate Truthful(wallet: Wallet, answer: WalletAnswer) {
    match answer
    case Confirmed(hash) => wallet.prompt == Some(Taken(hash))
    case Disowned(hash) => wallet.prompt == Some(Taken(hash))
    case Rejected => wallet.prompt == Some(Open)
    case Abandoned => wallet.prompt == Some(Open)
  }

  /** The page, or the send call, is gone, and with it the way an answer could reach it; an open request stays open. */
  function CallerGone(wallet: Wallet): Wallet {
    wallet.(prompt := None, orphans := wallet.orphans + if wallet.prompt == Some(Open) then 1 else 0)
  }

  function Step(w: World, e: Event): (World, Output) {
    var a := w.adapter;
    match e
    case Execute(action) =>
      var (b, out) := ExecuteStep(a, action);
      (w.(adapter := b), out)
    case ResumePending =>
      if a.pendingHash.Some? && a.pendingAction.Some? then
        var (b, out) := ExecuteStep(a, a.pendingAction.value);
        (w.(adapter := b), out)
      else (w, Nothing)
    case ChecksEnd(ok) =>
      if !InPhase(a, Checking) then (w, Nothing)
      else if ok then (w.(adapter := Suspend(a, Sending), wallet := w.wallet.(prompt := Some(Open))), Sent)
      else (w.(adapter := Suspend(a, Settled)), Thrown)
    case WalletAccepts(hash) =>
      if w.wallet.prompt != Some(Open) then (w, Nothing)
      else
        var accepted := w.wallet.(prompt := Some(Taken(hash)), outstanding := w.wallet.outstanding + {hash});
        (w.(wallet := accepted), Nothing)
    case WalletAnswers(answer, stored) =>
      if !InPhase(a, Sending) || !Truthful(w.wallet, answer) then (w, Nothing)
      else
        var answered := if answer.Abandoned? then CallerGone(w.wallet) else w.wallet.(prompt := None);
        if !answer.Confirmed? then (w.(adapter := Suspend(a, Settled), wallet := answered), Thrown)
        else
          var pending := a.(pendingHash := Some(answer.hash), pendingAction := Some(a.inFlight.value.action));
          var b := Suspend(pending, Polling(answer.hash));
          (World(b, Persisted(w.storage, b, stored), answered), Started)
    case PollEnds(poll, stored) =>
      if !(a.inFlight.Some? && a.inFlight.value.phase.Polling?) then (w, Nothing)
      else
        var hash := a.inFlight.value.phase.hash;
        if poll.TimedOut? then (w.(adapter := Suspend(a, ReadingState)), StillPending(hash))
        else if poll.OtherError? then (w.(adapter := Suspend(a, Settled)), Thrown)
        else
          var success := poll.Receipt? && poll.success;
          var b := Cleared(Suspend(a, if success then ReadingState else Settled));
          (World(b, Persisted(w.storage, b, stored), w.wallet.(outstanding := w.wallet.outstanding - {hash})),
           if success then Completed else Thrown)
    case StateRead(ok) =>
      if !InPhase(a, ReadingState) then (w, Nothing)
      else (w.(adapter := Suspend(a, Settled)), if ok then Nothing else Thrown)
    case FlightEnds =>
      if !InPhase(a, Settled) then (w, Nothing) else (w.(adapter := a.(inFlight := None)), Nothing)
    case Reload(readable) =>
      (w.(adapter := Restored(w.storage, readable), wallet := CallerGone(w.wallet)), Nothing)
    case OldRequestEnds(accepted) =>
      if w.wallet.orphans == 0 then (w, Nothing)
      else
        var added := if accepted.Some? then {accepted.value} else {};
        (w.(wallet := w.wallet.(orphans := w.wallet.orphans - 1, outstanding := w.wallet.outstanding + added)), Nothing)
    case Settles(hash) =>
      (w.(wallet := w.wallet.(outstanding := w.wallet.outstanding - {hash})), Nothing)
  }

  /** A new page restores the pending pair from session storage. */
  function Restored(storage: Option<Record>, readable: bool): Adapter {
    if readable && storage.Some? then Adapter(Some(storage.value.hash), Some(storage.value.action), None) else IDLE
  }

  // ---------------------------------------------------------------- the adapter as an object

  class SessionStorage {
    var record: Option<Record>

    constructor ()
      ensures record == None
    {
      record := None;
    }
  }

  class WorldGameAdapter {
    const storage: SessionStorage
    var pendingUserOpHash: Option<OpHash>
    var pendingAction: Option<Action>
    var actionInFlight: Option<Flight>
    /** The wallet's side, for the specification only. */
    ghost var wallet: Wallet

    ghost function State(): World
      reads this, storage
    {
      World(Adapter(pendingUserOpHash, pendingAction, actionInFlight), storage.record, wallet)
    }

    /** A page load, after the page that left the wallet with `wallet`. */
    constructor (storage: SessionStorage, readable: bool, ghost wallet: Wallet)
      ensures this.storage == storage
      ensures forall a: Adapter :: State() == Step(World(a, storage.record, wallet), Reload(readable)).0
    {
      this.storage := storage;
      this.wallet := CallerGone(wallet);
      actionInFlight := None;
      if readable && storage.record.Some? {
        pendingUserOpHash, pendingAction := Some(storage.record.value.hash), Some(storage.record.value.action);
      } else {
        pendingUserOpHash, pendingAction := None, None;
      }
    }

    method Persist(stored: bool)
      modifies storage
      ensures storage.record == Persisted(old(storage.record), State().adapter, stored)
    {
      if stored {
        storage.record := if pendingAction.None? || pendingUserOpHash.None? then None
                          else Some(Record(pendingAction.value, pendingUserOpHash.value));
      }
    }

    method ClearPending(stored: bool)
      modifies this`pendingUserOpHash, this`pendingAction, storage
      ensures pendingUserOpHash == None && pendingAction == None
      ensures storage.record == Persisted(old(storage.record), Cleared(old(State()).adapter), stored)
    {
      pendingUserOpHash, pendingAction := None, None;
      Persist(stored);
    }

    method Call(action: Action) returns (out: Output)
      modifies this`actionInFlight
      ensures (State(), out) == Step(old(State()), Execute(action))
    {
      if actionInFlight.Some? {
        if pendingAction != Some(action) && actionInFlight.value.action != action {
          return TransactionPending;
        }
        return Joined;
      }
      if pendingUserOpHash.Some? && pendingAction != Some(action) {
        actionInFlight := Some(Flight(action, Settled));
        return TransactionPending;
      }
      var phase := if pendingUserOpHash.Some? then Polling(pendingUserOpHash.value) else Checking;
      actionInFlight := Some(Flight(action, phase));
      out := Started;
    }

    method Resume() returns (out: Output)
      modifies this`actionInFlight
      ensures (State(), out) == Step(old(State()), ResumePending)
    {
      if pendingUserOpHash.Some? && pendingAction.Some? {
        out := Call(pendingAction.value);
      } else {
        out := Nothing;
      }
    }

    method AfterChecks(ok: bool) returns (out: Output)
      modifies this`actionInFlight, this`wallet
      ensures (State(), out) == Step(old(State()), ChecksEnd(ok))
    {
      if actionInFlight.None? || actionInFlight.value.phase != Checking {
        return Nothing;
      }
      actionInFlight := Some(Flight(actionInFlight.value.action, if ok then Sending else Settled));
      if ok {
        wallet := wallet.(prompt := Some(Open));
      }
      out := if ok then Sent else Thrown;
    }

    method AfterWallet(answer: WalletAnswer, stored: bool) returns (out: Output)
      requires Truthful(wallet, answer)
      modifies this, storage
      ensures (State(), out) == Step(old(State()), WalletAnswers(answer, stored))
    {
      if actionInFlight.None? || actionInFlight.value.phase != Sending {
        return Nothing;
      }
      var action := actionInFlight.value.action;
      wallet := if answer.Abandoned? then CallerGone(wallet) else wallet.(prompt := None);
      if !answer.Confirmed? {
        actionInFlight := Some(Flight(action, Settled));
        return Thrown;
      }
      pendingUserOpHash, pendingAction := Some(answer.hash), Some(action);
      actionInFlight := Some(Flight(action, Polling(answer.hash)));
      Persist(stored);
      out := Started;
    }

    method AfterPoll(poll: Poll, stored: bool) returns (out: Output)
      modifies this, storage
      ensures (State(), out) == Step(old(State()), PollEnds(poll, stored))
    {
      if actionInFlight.None? || !actionInFlight.value.phase.Polling? {
        return Nothing;
      }
      var action, hash := actionInFlight.value.action, actionInFlight.value.phase.hash;
      if poll.TimedOut? {
        actionInFlight := Some(Flight(action, ReadingState));
        return StillPending(hash);
      }
      if poll.OtherError? {
        actionInFlight := Some(Flight(action, Settled));
        return Thrown;
      }
      var success := poll.Receipt? && poll.success;
      actionInFlight := Some(Flight(action, if success then ReadingState else Settled));
      ClearPending(stored);
      wallet := wallet.(outstanding := wallet.outstanding - {hash});
      out := if success then Completed else Thrown;
    }

    method AfterRead(ok: bool) returns (out: Output)
      modifies this`actionInFlight
      ensures (State(), out) == Step(old(State()), StateRead(ok))
    {
      if actionInFlight.None? || actionInFlight.value.phase != ReadingState {
        return Nothing;
      }
      actionInFlight := Some(Flight(actionInFlight.value.action, Settled));
      out := if ok then Nothing else Thrown;
    }

    method Finally() returns (out: Output)
      modifies this`actionInFlight
      ensures (State(), out) == Step(old(State()), FlightEnds)
    {
      if actionInFlight.Some? && actionInFlight.value.phase == Settled {
        actionInFlight := None;
      }
      out := Nothing;
    }
  }

  // ---------------------------------------------------------------- safety

  /** The pending pair is whole, and the action in flight is where that pair and the wallet put it. */
  ghost predicate Coherent(w: World) {
    var a := w.adapter;
    && (a.pendingHash.Some? <==> a.pendingAction.Some?)
    && (w.wallet.prompt.Some? <==> InPhase(a, Sending))
    && match a.inFlight
       case None => true
       case Some(Flight(action, phase)) =>
         match phase
         case Checking => a.pendingHash.None?
         case Sending => a.pendingHash.None?
         case Polling(hash) => a.pendingHash == Some(hash) && a.pendingAction == Some(action)
         case _ => true
  }

  /** The page holds this operation as pending, or its answer is on the way to the page. */
  predicate Tracked(w: World, h: OpHash) {
    w.adapter.pendingHash == Some(h) || w.wallet.prompt == Some(Taken(h))
  }

  /** Nothing the wallet accepted, or may still accept, is beyond the page's knowledge. */
  ghost predicate Safe(w: World) {
    Coherent(w) && w.wallet.orphans == 0 && forall h :: h in w.wallet.outstanding ==> Tracked(w, h)
  }

  /** Session storage holds the pending pair. */
  ghost predicate Synced(w: World) {
    w.storage == if w.adapter.pendingHash.None? || w.adapter.pendingAction.None? then None
                 else Some(Record(w.adapter.pendingAction.value, w.adapter.pendingHash.value))
  }

  /** While safe, a transaction goes to the wallet only when nothing accepted is outstanding. */
  lemma SafeSend(w: World, e: Event)
    requires Safe(w) && Step(w, e).1 == Sent
    ensures w.wallet.outstanding == {} && w.adapter.pendingHash.None? && e == ChecksEnd(true)
  {
    assert InPhase(w.adapter, Checking);
    assert forall h :: h !in w.wallet.outstanding;
  }

  /**
   The page loses track of an operation: by an answer it turns down although the wallet accepted, by a send
   call that throws or a page load while the wallet's request is open, or by a page load while an outstanding
   operation is not the one that session storage has on record.
   */
  ghost predicate LosesTrack(w: World, e: Event) {
    match e
    case WalletAnswers(Disowned(hash), _) => w.wallet.prompt == Some(Taken(hash)) && hash in w.wallet.outstanding
    case WalletAnswers(Abandoned, _) => w.wallet.prompt == Some(Open)
    case Reload(readable) =>
      || w.wallet.prompt == Some(Open)
      || exists h :: h in w.wallet.outstanding && !(readable && w.storage.Some? && w.storage.value.hash == h)
    case _ => false
  }

  /** Those are the only steps that end safety, whatever becomes of session storage otherwise. */
  lemma StepKeepsSafeIff(w: World, e: Event)
    requires Safe(w)
    ensures Safe(Step(w, e).0) <==> !LosesTrack(w, e)
  {
    if e.Reload? {
      var a := Restored(w.storage, e.readable);
      assert forall h :: h in w.wallet.outstanding ==>
        (a.pendingHash == Some(h) <==> e.readable && w.storage.Some? && w.storage.value.hash == h);
    }
  }

  /** While one action is pending another is refused: it neither sends nor polls nor changes what is pending. */
  lemma OtherActionIsRefused(w: World, action: Action)
    requires Safe(w) && w.wallet.outstanding != {} && w.adapter.pendingAction != Some(action)
    ensures var (r, out) := Step(w, Execute(action));
      && out in {TransactionPending, Joined}
      && (out == Joined ==> r == w && w.adapter.inFlight.Some? && w.adapter.inFlight.value.action == action &&
                            !w.adapter.inFlight.value.phase.Polling?)
      && r.adapter.pendingHash == w.adapter.pendingHash && r.adapter.pendingAction == w.adapter.pendingAction
      && r.storage == w.storage && r.wallet == w.wallet
  {
    var h :| h in w.wallet.outstanding;
    assert Tracked(w, h);
  }

  /** The pending action itself is resumed by polling, never by sending again. */
  lemma SameActionIsPolled(w: World, action: Action)
    requires Safe(w) && w.adapter.pendingAction == Some(action)
    ensures var (r, out) := Step(w, Execute(action));
      out in {Started, Joined} && r.adapter.inFlight.Some? &&
      (out == Started ==> r.adapter.inFlight.value.phase == Polling(w.adapter.pendingHash.value))
  {
  }

  /** Short of a reload, a pending hash is dropped if and only if its own poll ends finally; it is then settled. */
  lemma HashDroppedIffFinal(w: World, e: Event, h: OpHash)
    requires Safe(w) && w.adapter.pendingHash == Some(h) && !e.Reload?
    ensures Step(w, e).0.adapter.pendingHash != Some(h) <==>
      e.PollEnds? && Final(e.poll) && InPhase(w.adapter, Polling(h))
    ensures Step(w, e).0.adapter.pendingHash != Some(h) ==> h !in Step(w, e).0.wallet.outstanding
  {
  }

  /**
   A poll that ends finally settles the operation: the pair is gone, and the record with it if storage took the
   write; the caller hears of completion exactly for a successful receipt.
   */
  lemma FinalPollSettles(w: World, h: OpHash, poll: Poll, stored: bool)
    requires InPhase(w.adapter, Polling(h)) && (poll.TransactionFailed? || poll.Receipt?)
    ensures var (r, out) := Step(w, PollEnds(poll, stored));
      && r.adapter.pendingHash.None? && r.adapter.pendingAction.None? && h !in r.wallet.outstanding
      && r.storage == (if stored then None else w.storage)
      && (out == Completed <==> poll == Receipt(true)) && (out != Completed ==> out == Thrown)
      && r.adapter.inFlight.value.action == w.adapter.inFlight.value.action
      && r.adapter.inFlight.value.phase == (if poll == Receipt(true) then ReadingState else Settled)
  {
  }

  /** A poll that does not end finally keeps the pair, its record and the operation; a timeout is told as pending. */
  lemma OpenPollKeeps(w: World, h: OpHash, poll: Poll, stored: bool)
    requires InPhase(w.adapter, Polling(h)) && !(poll.TransactionFailed? || poll.Receipt?)
    ensures var (r, out) := Step(w, PollEnds(poll, stored));
      && r.adapter.pendingHash == w.adapter.pendingHash && r.adapter.pendingAction == w.adapter.pendingAction
      && r.storage == w.storage && r.wallet == w.wallet
      && (poll == TimedOut ==> out == StillPending(h) && InPhase(r.adapter, ReadingState))
      && (poll == OtherError ==> out == Thrown && InPhase(r.adapter, Settled))
  {
  }

  /** After that, once the state is read and the flight ends, any action called next starts at its checks. */
  lemma NextActionStarts(w: World, h: OpHash, poll: Poll, stored: bool, ok: bool, next: Action)
    requires InPhase(w.adapter, Polling(h)) && (poll.TransactionFailed? || poll.Receipt?)
    ensures var ended := Step(Step(Step(w, PollEnds(poll, stored)).0, StateRead(ok)).0, FlightEnds).0;
      && ended.adapter == IDLE
      && Step(ended, Execute(next)) == (ended.(adapter := IDLE.(inFlight := Some(Flight(next, Checking)))), Started)
  {
  }

  /** Some phase of the action in flight, or the wallet, ends in an error. */
  predicate Fails(w: World, e: Event) {
    match e
    case ChecksEnd(ok) => InPhase(w.adapter, Checking) && !ok
    case WalletAnswers(answer, _) => InPhase(w.adapter, Sending) && Truthful(w.wallet, answer) && !answer.Confirmed?
    case PollEnds(poll, _) =>
      w.adapter.inFlight.Some? && w.adapter.inFlight.value.phase.Polling?
      && poll in {TransactionFailed, OtherError, Receipt(false)}
    case StateRead(ok) => InPhase(w.adapter, ReadingState) && !ok
    case _ => false
  }

  /** The caller sees an error exactly then; the flight is over, and once it has ended the page takes calls again. */
  lemma ErrorsReachTheCaller(w: World, e: Event)
    ensures Step(w, e).1 == Thrown <==> Fails(w, e)
    ensures Fails(w, e) ==>
      InPhase(Step(w, e).0.adapter, Settled) && Step(Step(w, e).0, FlightEnds).0.adapter.inFlight.None?
  {
  }

  /** A page that resumes polls the pending hash under its action; with nothing pending it does nothing. */
  lemma ResumePollsThePair(w: World)
    requires w.adapter.inFlight.None?
    ensures w.adapter.pendingHash.Some? && w.adapter.pendingAction.Some? ==>
      Step(w, ResumePending).1 == Started
      && Step(w, ResumePending).0 == w.(adapter := w.adapter.(inFlight :=
           Some(Flight(w.adapter.pendingAction.value, Polling(w.adapter.pendingHash.value)))))
    ensures w.adapter.pendingHash.None? || w.adapter.pendingAction.None? ==> Step(w, ResumePending) == (w, Nothing)
  {
  }

  /** A call refused because another action is pending holds the page until it has ended, and leaves nothing behind. */
  lemma RefusedCallPasses(w: World, action: Action)
    requires w.adapter.inFlight.None? && w.adapter.pendingHash.Some? && w.adapter.pendingAction != Some(action)
    ensures var (r, out) := Step(w, Execute(action));
      && out == TransactionPending && r.adapter.inFlight.Some? && r.adapter.inFlight.value.action == action
      && Step(r, Execute(action)) == (r, Joined)
      && Step(r, FlightEnds).0 == w
  {
  }

  predicate StorageWorks(e: Event) {
    match e
    case WalletAnswers(_, stored) => stored
    case PollEnds(_, stored) => stored
    case Reload(readable) => readable
    case _ => true
  }

  /** With working storage the record equals the pair in memory after every step, page loads included. */
  lemma WorkingStorageKeepsSync(w: World, e: Event)
    requires Coherent(w) && Synced(w) && StorageWorks(e)
    ensures Coherent(Step(w, e).0) && Synced(Step(w, e).0)
  {
  }

  // ---------------------------------------------------------------- runs

  function RunFrom(w: World, events: seq<Event>): World {
    if events == [] then w else Step(RunFrom(w, events[..|events| - 1]), events[|events| - 1]).0
  }

  /** From `w` on, nothing is sent while an accepted operation is outstanding. */
  ghost predicate NeverSendsTwice(w: World, events: seq<Event>) {
    forall i :: 0 <= i < |events| && Step(RunFrom(w, events[..i]), events[i]).1 == Sent ==>
      RunFrom(w, events[..i]).wallet.outstanding == {}
  }

  /** No step of the run loses track of an operation. */
  ghost predicate KeepsTrack(w: World, events: seq<Event>) {
    forall i :: 0 <= i < |events| ==> !LosesTrack(RunFrom(w, events[..i]), events[i])
  }

  lemma RunExtends(w: World, events: seq<Event>, i: nat)
    requires i < |events|
    ensures RunFrom(w, events[..i + 1]) == Step(RunFrom(w, events[..i]), events[i]).0
  {
    assert events[..i + 1][..i] == events[..i];
  }

  lemma {:induction false} TrackedRunIsSafe(w: World, events: seq<Event>, n: nat)
    requires Safe(w) && KeepsTrack(w, events) && n <= |events|
    ensures Safe(RunFrom(w, events[..n]))
  {
    hide Safe, LosesTrack, Step;
    if n > 0 {
      TrackedRunIsSafe(w, events, n - 1);
      RunExtends(w, events, n - 1);
      StepKeepsSafeIff(RunFrom(w, events[..n - 1]), events[n - 1]);
    }
  }

  /** A run that never loses track never sends twice. */
  lemma TrackedRunNeverSendsTwice(w: World, events: seq<Event>)
    requires Safe(w) && KeepsTrack(w, events)
    ensures NeverSendsTwice(w, events)
  {
    hide Safe, Step;
    forall i | 0 <= i < |events| && Step(RunFrom(w, events[..i]), events[i]).1 == Sent
      ensures RunFrom(w, events[..i]).wallet.outstanding == {}
    {
      TrackedRunIsSafe(w, events, i);
      SafeSend(RunFrom(w, events[..i]), events[i]);
    }
  }

  /** What each step of a run tells the caller. */
  function Outputs(w: World, events: seq<Event>): seq<Output> {
    if events == [] then []
    else
      var front := events[..|events| - 1];
      Outputs(w, front) + [Step(RunFrom(w, front), events[|events| - 1]).1]
  }

  /** An action that goes well, from its call to the end of its flight. */
  function WholeAction(action: Action, h: OpHash): seq<Event> {
    [Execute(action), ChecksEnd(true), WalletAccepts(h), WalletAnswers(Confirmed(h), true),
     PollEnds(Receipt(true), true), StateRead(true), FlightEnds]
  }

  lemma OutputsExtend(w: World, events: seq<Event>, i: nat)
    requires i < |events|
    ensures RunFrom(w, events[..i + 1]) == Step(RunFrom(w, events[..i]), events[i]).0
    ensures Outputs(w, events[..i + 1]) == Outputs(w, events[..i]) + [Step(RunFrom(w, events[..i]), events[i]).1]
  {
    assert events[..i + 1][..i] == events[..i];
  }

  /** An idle page takes an action from its call to its receipt, tells so at every step, and is idle again. */
  lemma WholeActionEnds(action: Action, h: OpHash)
    ensures RunFrom(START, WholeAction(action, h)) == START
    ensures Outputs(START, WholeAction(action, h)) == [Started, Sent, Nothing, Started, Completed, Nothing, Nothing]
  {
    var w, e := START, WholeAction(action, h);
    var w1, w2 := Step(w, e[0]).0, Step(Step(w, e[0]).0, e[1]).0;
    var w4 := Step(Step(w2, e[2]).0, e[3]).0;
    assert w2.adapter == Adapter(None, None, Some(Flight(action, Sending))) && w2.wallet.prompt == Some(Open);
    assert w4 == World(Adapter(Some(h), Some(action), Some(Flight(action, Polling(h)))), Some(Record(action, h)),
                       Wallet(None, 0, {h}));
    var w6 := Step(Step(w4, e[4]).0, e[5]).0;
    assert w6 == w.(adapter := IDLE.(inFlight := Some(Flight(action, Settled))));
    WholeActionUnrolls(w, e);
  }

  lemma WholeActionUnrolls(w: World, e: seq<Event>)
    requires |e| == 7
    ensures var w1 := Step(w, e[0]); var w2 := Step(w1.0, e[1]); var w3 := Step(w2.0, e[2]); var w4 := Step(w3.0, e[3]);
      var w5 := Step(w4.0, e[4]); var w6 := Step(w5.0, e[5]); var w7 := Step(w6.0, e[6]);
      RunFrom(w, e) == w7.0 && Outputs(w, e) == [w1.1, w2.1, w3.1, w4.1, w5.1, w6.1, w7.1]
  {
    hide Step;
    assert e[..0] == [] && e[..7] == e;
    OutputsExtend(w, e, 0);
    OutputsExtend(w, e, 1);
    OutputsExtend(w, e, 2);
    OutputsExtend(w, e, 3);
    OutputsExtend(w, e, 4);
    OutputsExtend(w, e, 5);
    OutputsExtend(w, e, 6);
  }

  lemma Unroll6(w: World, e: seq<Event>)
    requires |e| == 6
    ensures RunFrom(w, e[..5])
      == Step(Step(Step(Step(Step(w, e[0]).0, e[1]).0, e[2]).0, e[3]).0, e[4]).0
  {
    hide Step;
    assert e[..0] == [];
    RunExtends(w, e, 0);
    RunExtends(w, e, 1);
    RunExtends(w, e, 2);
    RunExtends(w, e, 3);
    RunExtends(w, e, 4);
  }

  /** After losing track: the old request ends, what is on record fails, the action is called again. */
  function Aftermath(action: Action, hash: OpHash): seq<Event> {
    [OldRequestEnds(Some(hash)), Execute(action), PollEnds(TransactionFailed, true), FlightEnds, Execute(action),
     ChecksEnd(true)]
  }

  /** An outstanding operation that the page neither holds nor waits for survives the aftermath up to the next send. */
  lemma AftermathForgets(w: World, action: Action, h: OpHash)
    requires Coherent(w) && h in w.wallet.outstanding && w.adapter.pendingHash != Some(h)
    requires w.adapter.inFlight.None? || (InPhase(w.adapter, Settled) && w.adapter.pendingHash.None?)
    requires w.adapter.pendingAction.Some? ==> w.adapter.pendingAction == Some(action)
    ensures var ready := Step(Step(Step(Step(w, Execute(action)).0, PollEnds(TransactionFailed, true)).0, FlightEnds).0,
                              Execute(action)).0;
      h in ready.wallet.outstanding && InPhase(ready.adapter, Checking)
  {
    var called := Step(w, Execute(action)).0;
    var polled := Step(called, PollEnds(TransactionFailed, true)).0;
    assert h in polled.wallet.outstanding;
  }

  lemma AftermathSendsTwice(w: World, e: Event) returns (action: Action, hash: OpHash)
    requires Safe(w) && LosesTrack(w, e)
    ensures var lost := Step(w, e).0; var more := Aftermath(action, hash);
      Step(RunFrom(lost, more[..5]), more[5]).1 == Sent && RunFrom(lost, more[..5]).wallet.outstanding != {}
  {
    var lost := Step(w, e).0;
    action := if lost.adapter.pendingAction.Some? then lost.adapter.pendingAction.value else "";
    hash := if lost.adapter.pendingHash == Some(0) then 1 else 0;
    var more := Aftermath(action, hash);
    Unroll6(lost, more);
    var ended := Step(lost, more[0]).0;
    var h := hash;
    if lost.wallet.orphans == 0 {
      h :| h in w.wallet.outstanding && lost.adapter.pendingHash != Some(h);
    }
    assert h in ended.wallet.outstanding;
    AftermathForgets(ended, action, h);
  }

  lemma AftermathKeepsTrack(w: World, action: Action, hash: OpHash)
    ensures KeepsTrack(w, Aftermath(action, hash))
  {
    hide Step, RunFrom;
  }

  /**
   From a safe state, losing track is exactly what makes a second send possible without any further loss:
   after a step that keeps track no run that keeps track sends twice, and after one that does not some does.
   */
  lemma LossDecides(w: World, e: Event)
    requires Safe(w)
    ensures LosesTrack(w, e) <==>
      exists more :: KeepsTrack(Step(w, e).0, more) && !NeverSendsTwice(Step(w, e).0, more)
  {
    hide Safe, Step, RunFrom, KeepsTrack, LosesTrack;
    if LosesTrack(w, e) {
      var action, hash := AftermathSendsTwice(w, e);
      var more := Aftermath(action, hash);
      AftermathKeepsTrack(Step(w, e).0, action, hash);
      assert Step(RunFrom(Step(w, e).0, more[..5]), more[5]).1 == Sent;
      assert !NeverSendsTwice(Step(w, e).0, more);
    } else {
      StepKeepsSafeIff(w, e);
      forall more | KeepsTrack(Step(w, e).0, more)
        ensures NeverSendsTwice(Step(w, e).0, more)
      {
        TrackedRunNeverSendsTwice(Step(w, e).0, more);
      }
    }
  }

  // ---------------------------------------------------------------- environments

  /**
   What a page must reckon with: failing session storage, page loads, page loads during a send, answers that
   disown an accepted operation, send calls that abandon an open request.
   */
  datatype Environment = Environment(
    storageFails: bool, reloads: bool, reloadsWhileSending: bool, disowns: bool, abandons: bool)

  predicate Allowed(env: Environment, w: World, e: Event) {
    && (StorageWorks(e) || env.storageFails)
    && (e.Reload? ==> env.reloads && (env.reloadsWhileSending || !InPhase(w.adapter, Sending)))
    && (e.WalletAnswers? && e.answer.Disowned? ==> env.disowns)
    && (e.WalletAnswers? && e.answer.Abandoned? ==> env.abandons)
  }

  /** A run from a first page load that the environment allows. */
  ghost predicate AllowedRun(env: Environment, events: seq<Event>) {
    forall i :: 0 <= i < |events| ==> Allowed(env, RunFrom(START, events[..i]), events[i])
  }

  /**
   Every request is waited for and every accepted one recorded, and either no page is loaded again, or only with
   working storage and not during a send.
   */
  predicate Harmless(env: Environment) {
    !env.disowns && !env.abandons && (!env.reloads || (!env.storageFails && !env.reloadsWhileSending))
  }

  lemma AllowedStepKeepsTrack(env: Environment, w: World, e: Event)
    requires Safe(w) && Harmless(env) && Allowed(env, w, e) && (env.reloads ==> Synced(w))
    ensures !LosesTrack(w, e) && Safe(Step(w, e).0) && (env.reloads ==> Synced(Step(w, e).0))
  {
    hide Step;
    assert !LosesTrack(w, e) by {
      if e.Reload? {
        assert forall h :: h in w.wallet.outstanding ==> Tracked(w, h);
      }
    }
    StepKeepsSafeIff(w, e);
    if env.reloads {
      WorkingStorageKeepsSync(w, e);
    }
  }

  lemma {:induction false} AllowedRunIsSafe(env: Environment, events: seq<Event>, n: nat)
    requires Harmless(env) && AllowedRun(env, events) && n <= |events|
    ensures Safe(RunFrom(START, events[..n])) && (env.reloads ==> Synced(RunFrom(START, events[..n])))
  {
    hide Step, Allowed, Safe, Synced;
    if n > 0 {
      AllowedRunIsSafe(env, events, n - 1);
      RunExtends(START, events, n - 1);
      AllowedStepKeepsTrack(env, RunFrom(START, events[..n - 1]), events[n - 1]);
    } else {
      StartIsSafe();
    }
  }

  lemma StartIsSafe()
    ensures Safe(START) && Synced(START)
  {
  }

  lemma HarmlessNeverSendsTwice(env: Environment, events: seq<Event>)
    requires Harmless(env) && AllowedRun(env, events)
    ensures NeverSendsTwice(START, events)
  {
    hide Step, Allowed, Safe, Synced, LosesTrack;
    forall i | 0 <= i < |events|
      ensures !LosesTrack(RunFrom(START, events[..i]), events[i])
    {
      AllowedRunIsSafe(env, events, i);
      AllowedStepKeepsTrack(env, RunFrom(START, events[..i]), events[i]);
    }
    StartIsSafe();
    TrackedRunNeverSendsTwice(START, events);
  }

  /** The runs that show what goes wrong, one for each kind of harm. */
  function LostRecordRun(action: Action, hash: OpHash): seq<Event> {
    [Execute(action), ChecksEnd(true), WalletAccepts(hash), WalletAnswers(Confirmed(hash), false), Reload(true),
     Execute(action), ChecksEnd(true)]
  }

  function OpenRequestRun(action: Action, hash: OpHash): seq<Event> {
    [Execute(action), ChecksEnd(true), Reload(true), OldRequestEnds(Some(hash)), ResumePending, Execute(action),
     ChecksEnd(true)]
  }

  function DisownedRun(action: Action, hash: OpHash): seq<Event> {
    [Execute(action), ChecksEnd(true), WalletAccepts(hash), WalletAnswers(Disowned(hash), true), FlightEnds,
     Execute(action), ChecksEnd(true)]
  }

  function AbandonedRun(action: Action, hash: OpHash): seq<Event> {
    [Execute(action), ChecksEnd(true), WalletAnswers(Abandoned, true), OldRequestEnds(Some(hash)), FlightEnds,
     Execute(action), ChecksEnd(true)]
  }

  /** A page load after session storage lost the record: the action is sent again while the first is outstanding. */
  lemma LostRecordSendsTwice(action: Action, hash: OpHash)
    ensures !NeverSendsTwice(START, LostRecordRun(action, hash))
    ensures AllowedRun(Environment(true, true, false, false, false), LostRecordRun(action, hash))
  {
    var env, events := Environment(true, true, false, false, false), LostRecordRun(action, hash);
    WitnessRun(env, events, hash);
  }

  /** A page load while the wallet's request is open, and the wallet accepts it afterwards; storage works throughout. */
  lemma OpenRequestSendsTwice(action: Action, hash: OpHash)
    ensures !NeverSendsTwice(START, OpenRequestRun(action, hash))
    ensures AllowedRun(Environment(false, true, true, false, false), OpenRequestRun(action, hash))
  {
    WitnessRun(Environment(false, true, true, false, false), OpenRequestRun(action, hash), hash);
  }

  /** The wallet reports success for another account: the page throws before it records anything, and sends again. */
  lemma DisownedSendsTwice(action: Action, hash: OpHash)
    ensures !NeverSendsTwice(START, DisownedRun(action, hash))
    ensures AllowedRun(Environment(false, false, false, true, false), DisownedRun(action, hash))
  {
    WitnessRun(Environment(false, false, false, true, false), DisownedRun(action, hash), hash);
  }

  /** The send call throws while the wallet's request is open, and the wallet accepts it afterwards. */
  lemma AbandonedSendsTwice(action: Action, hash: OpHash)
    ensures !NeverSendsTwice(START, AbandonedRun(action, hash))
    ensures AllowedRun(Environment(false, false, false, false, true), AbandonedRun(action, hash))
  {
    WitnessRun(Environment(false, false, false, false, true), AbandonedRun(action, hash), hash);
  }

  lemma WitnessRun(env: Environment, e: seq<Event>, hash: OpHash)
    requires |e| == 7
    requires var w1 := Step(START, e[0]).0;
      var w2 := Step(w1, e[1]).0;
      var w3 := Step(w2, e[2]).0;
      var w4 := Step(w3, e[3]).0;
      var w5 := Step(w4, e[4]).0;
      var w6 := Step(w5, e[5]).0;
      && Allowed(env, START, e[0]) && Allowed(env, w1, e[1]) && Allowed(env, w2, e[2]) && Allowed(env, w3, e[3])
      && Allowed(env, w4, e[4]) && Allowed(env, w5, e[5]) && Allowed(env, w6, e[6])
      && hash in w6.wallet.outstanding && Step(w6, e[6]).1 == Sent
    ensures !NeverSendsTwice(START, e) && AllowedRun(env, e)
  {
    hide Step, Allowed;
    assert e[..0] == [];
    RunExtends(START, e, 0);
    RunExtends(START, e, 1);
    RunExtends(START, e, 2);
    RunExtends(START, e, 3);
    RunExtends(START, e, 4);
    RunExtends(START, e, 5);
    assert RunFrom(START, e[..6]).wallet.outstanding != {};
    forall i | 0 <= i < |e|
      ensures Allowed(env, RunFrom(START, e[..i]), e[i])
    {
      assert i == 0 || i == 1 || i == 2 || i == 3 || i == 4 || i == 5 || i == 6;
    }
  }

  lemma {:induction false} MoreIsAllowed(less: Environment, env: Environment, events: seq<Event>)
    requires AllowedRun(less, events)
    requires less.storageFails ==> env.storageFails
    requires less.reloads ==> env.reloads
    requires less.reloadsWhileSending ==> env.reloadsWhileSending
    requires less.disowns ==> env.disowns
    requires less.abandons ==> env.abandons
    ensures AllowedRun(env, events)
  {
    hide RunFrom, StorageWorks;
  }

  /**
   Over any interleaving of calls, wallet answers, receipts and page loads, nothing is sent while an accepted
   operation is outstanding, if and only if no send call throws on an open request, every answer to an accepted
   one is recorded, and either the page is never loaded again or session storage works and no page load falls
   into a send.
   */
  lemma RunsNeverSendTwiceIff(env: Environment)
    ensures Harmless(env) <==> forall events :: AllowedRun(env, events) ==> NeverSendsTwice(START, events)
  {
    hide AllowedRun, NeverSendsTwice;
    if Harmless(env) {
      forall events | AllowedRun(env, events)
        ensures NeverSendsTwice(START, events)
      {
        HarmlessNeverSendsTwice(env, events);
      }
    } else if env.disowns {
      DisownedSendsTwice("", 0);
      MoreIsAllowed(Environment(false, false, false, true, false), env, DisownedRun("", 0));
    } else if env.abandons {
      AbandonedSendsTwice("", 0);
      MoreIsAllowed(Environment(false, false, false, false, true), env, AbandonedRun("", 0));
    } else if env.storageFails {
      LostRecordSendsTwice("", 0);
      MoreIsAllowed(Environment(true, true, false, false, false), env, LostRecordRun("", 0));
    } else {
      OpenRequestSendsTwice("", 0);
      MoreIsAllowed(Environment(false, true, true, false, false), env, OpenRequestRun("", 0));
    }
  }
}

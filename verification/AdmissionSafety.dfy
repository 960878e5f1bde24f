/** Admission under interleaving and crashes: any number of attempts, overlapping in any way and
    stopped before any write, among any completions, cancellations and other writes. */
module AdmissionSafety {
  import opened Wrappers
  import opened Admission

  // ----- the stores

  /** What the unique index is for. */
  ghost predicate OneActivePerSession(store: Store) {
    forall q, r ::
      (q in store.requests && r in store.requests && q != r
       && store.requests[q].status.Active() && store.requests[r].status.Active()) ==>
        store.requests[q].sessionId != store.requests[r].sessionId
  }

  ghost predicate SessionsExist(store: Store) {
    forall r :: r in store.requests ==> store.requests[r].sessionId in store.sessions
  }

  ghost predicate ActivatedOnce(store: Store) {
    forall r: string :: store.activations[r] <=
      if r in store.requests && store.requests[r].status != Prepared then 1 else 0
  }

  /** Rounds on record were handed out; requests have rounds of their own; a request's round is on
      record only in its own session. */
  ghost predicate RoundsBound(store: Store, rounds: set<string>) {
    && (forall s, x :: s in store.sessions && Has(store.sessions[s].events, RoundMark(x)) ==> x in rounds)
    && (forall r :: r in store.requests ==> store.requests[r].roundId in rounds)
    && (forall q, r :: q in store.requests && r in store.requests && q != r ==>
          store.requests[q].roundId != store.requests[r].roundId)
    && (forall s, r :: (s in store.sessions && r in store.requests
                        && Has(store.sessions[s].events, RoundMark(store.requests[r].roundId))) ==>
          s == store.requests[r].sessionId)
  }

  ghost predicate StoreOk(store: Store, rounds: set<string>) {
    && OneActivePerSession(store) && SessionsExist(store) && ActivatedOnce(store) && RoundsBound(store, rounds)
  }

  /** A round id no request has taken and no session has on record. */
  ghost predicate Unused(store: Store, x: string) {
    && (forall r :: r in store.requests ==> store.requests[r].roundId != x)
    && (forall s :: s in store.sessions ==> !Has(store.sessions[s].events, RoundMark(x)))
  }

  /** A session that only says that it was created and what its status is. */
  predicate IsNew(s: Session) {
    |s.events| == 2 && s.events[0].body.SessionCreated? && s.events[1].body.StatusChanged?
  }

  ghost predicate RoundOfSession(store: Store, s: string, x: string) {
    exists r :: r in store.requests && store.requests[r].sessionId == s && store.requests[r].roundId == x
  }

  /** A new session is empty, a new request has a session and a new round, and a round is recorded
      only for a request of the session. */
  ghost predicate Proper(store: Store, rounds: set<string>, write: Write) {
    match write
    case CreateSession(_, session) => IsNew(session)
    case InsertRequest(_, request) =>
      request.sessionId in store.sessions && request.roundId in rounds && Unused(store, request.roundId)
    case AppendEvent(s, e, _) => e.body.RoundStarted? ==> RoundOfSession(store, s, e.body.roundId)
    case _ => true
  }

  // ----- what every transaction keeps

  /** No transaction gives a session a second active request: the index rejects it. */
  lemma DoKeepsOneActive(store: Store, write: Write)
    requires OneActivePerSession(store)
    ensures OneActivePerSession(Do(store, write))
  {
    if write.InsertRequest? && Accepts(store, write) && write.request.status.Active() {
      NobodyElseActive(store, write.request.sessionId, write.requestId);
    }
    if write.OverwriteRequest? && Accepts(store, write) && write.to.Active() {
      NobodyElseActive(store, store.requests[write.requestId].sessionId, write.requestId);
    }
  }

  lemma NobodyElseActive(store: Store, s: string, r: string)
    requires !BusyFor(store, s, r)
    ensures forall q :: q in store.requests && q != r && store.requests[q].status.Active() ==>
      store.requests[q].sessionId != s
  {
  }

  lemma DoKeepsSessions(store: Store, rounds: set<string>, write: Write)
    requires SessionsExist(store) && Proper(store, rounds, write)
    ensures SessionsExist(Do(store, write))
  {
  }

  lemma DoActivatesOnce(store: Store, write: Write)
    requires ActivatedOnce(store)
    ensures ActivatedOnce(Do(store, write))
  {
  }

  lemma TimesOneMore(events: seq<Event>, e: Event, mark: Mark)
    ensures Times(events + [e], mark) == Times(events, mark) + if Bears(e.body, mark) then 1 else 0
  {
    var longer := events + [e];
    assert longer[..|longer| - 1] == events && longer[|longer| - 1] == e;
  }

  lemma NewIsUnmarked(s: Session, mark: Mark)
    requires IsNew(s)
    ensures Times(s.events, mark) == 0
  {
    TimesOneMore([], s.events[0], mark);
    TimesOneMore([] + [s.events[0]], s.events[1], mark);
    assert [] + [s.events[0]] + [s.events[1]] == s.events;
  }

  /** What a write adds to the marks of a session. */
  lemma DoMarks(store: Store, write: Write, s: string, mark: Mark)
    requires s in Do(store, write).sessions && (write.CreateSession? ==> IsNew(write.session))
    ensures
      var before := if s in store.sessions then Times(store.sessions[s].events, mark) else 0;
      Times(Do(store, write).sessions[s].events, mark) ==
        before + if write.AppendEvent? && s == write.sessionId && Bears(write.event.body, mark) then 1 else 0
  {
    if write.AppendEvent? && s == write.sessionId && s in store.sessions {
      TimesOneMore(store.sessions[s].events, write.event, mark);
    }
    if write.CreateSession? && s == write.sessionId && s !in store.sessions {
      NewIsUnmarked(write.session, mark);
    }
  }

  /** Where a round is on record after a write. */
  lemma DoRounds(store: Store, write: Write, s: string, x: string)
    requires s in Do(store, write).sessions && (write.CreateSession? ==> IsNew(write.session))
    ensures Has(Do(store, write).sessions[s].events, RoundMark(x)) <==>
      || (s in store.sessions && Has(store.sessions[s].events, RoundMark(x)))
      || (write.AppendEvent? && s == write.sessionId && write.event.body == RoundStarted(x))
  {
    DoMarks(store, write, s, RoundMark(x));
  }

  lemma InsertKeepsRounds(store: Store, rounds: set<string>, write: Write)
    requires RoundsBound(store, rounds) && Proper(store, rounds, write) && write.InsertRequest?
    ensures RoundsBound(Do(store, write), rounds)
  {
  }

  lemma SessionWritesKeepRounds(store: Store, rounds: set<string>, write: Write)
    requires RoundsBound(store, rounds) && Proper(store, rounds, write)
    requires write.CreateSession? || write.AppendEvent?
    ensures RoundsBound(Do(store, write), rounds)
  {
    var after := Do(store, write);
    forall s, x | s in after.sessions && Has(after.sessions[s].events, RoundMark(x))
      ensures x in rounds
      ensures forall r :: r in store.requests && store.requests[r].roundId == x ==> store.requests[r].sessionId == s
    {
      DoRounds(store, write, s, x);
    }
  }

  lemma StatusWritesKeepRounds(store: Store, rounds: set<string>, write: Write)
    requires RoundsBound(store, rounds)
    requires write.ChangeRequest? || write.OverwriteRequest? || write.ActivateRequest? || write.Nothing?
    ensures RoundsBound(Do(store, write), rounds)
  {
  }

  lemma DoKeepsStore(store: Store, rounds: set<string>, write: Write)
    requires StoreOk(store, rounds) && Proper(store, rounds, write)
    ensures StoreOk(Do(store, write), rounds)
  {
    DoKeepsOneActive(store, write);
    DoKeepsSessions(store, rounds, write);
    DoActivatesOnce(store, write);
    match write {
      case InsertRequest(_, _) => InsertKeepsRounds(store, rounds, write);
      case CreateSession(_, _) => SessionWritesKeepRounds(store, rounds, write);
      case AppendEvent(_, _, _) => SessionWritesKeepRounds(store, rounds, write);
      case _ => StatusWritesKeepRounds(store, rounds, write);
    }
  }

  /** A durable request keeps its session, its round and its fingerprint, and never returns to
      prepared. */
  predicate SameRequest(r: RunRequest, after: RunRequest) {
    && after == r.(status := after.status, delivering := after.delivering)
    && (after.status == Prepared ==> r.status == Prepared)
  }

  ghost predicate Remembers(store: Store, later: Store, r: string) {
    r in store.requests ==> r in later.requests && SameRequest(store.requests[r], later.requests[r])
  }

  /** Whatever is written, requests are remembered and sessions stay. */
  lemma DoRemembers(store: Store, write: Write, r: string, s: string)
    ensures Remembers(store, Do(store, write), r)
    ensures s in store.sessions ==> s in Do(store, write).sessions
  {
  }

  // ----- the attempts

  predicate BeforeRequest(phase: Phase) { phase in {Entering, CreatingSession, Checking, Inserting} }

  predicate Bound(phase: Phase) { !BeforeRequest(phase) && !phase.Over() }

  /** The durable request an attempt works on is the one under its id. */
  ghost predicate BoundOk(store: Store, w: Worker) {
    var id := w.attempt.requestId;
    && id in store.requests && store.requests[id].sessionId == w.sessionId && store.requests[id].roundId == w.roundId
    && FingerprintsAgree(w.attempt.fingerprint, store.requests[id].fingerprint)
  }

  ghost predicate FinishedOk(store: Store, w: Worker) {
    var id := w.attempt.requestId;
    && id in store.requests && store.requests[id].status != Prepared
    && FingerprintsAgree(w.attempt.fingerprint, store.requests[id].fingerprint)
  }

  ghost predicate WorkerOk(store: Store, rounds: set<string>, w: Worker) {
    && w.attempt.roundId in rounds
    && (BeforeRequest(w.phase) ==> Unused(store, w.attempt.roundId))
    && (w.phase in {Checking, Inserting} ==> w.sessionId in store.sessions)
    && (Bound(w.phase) ==> BoundOk(store, w))
    && (w.phase == Confirming ==> store.requests[w.attempt.requestId].status != Prepared)
    && (w.phase.Finished? ==>
          FinishedOk(store, w) && w.phase.sessionId == store.requests[w.attempt.requestId].sessionId)
  }

  /** The round a write takes or records. */
  function RoundOf(write: Write): Option<string> {
    match write
    case InsertRequest(_, request) => Some(request.roundId)
    case AppendEvent(_, e, _) => if e.body.RoundStarted? then Some(e.body.roundId) else None
    case _ => None
  }

  lemma DoKeepsUnused(store: Store, write: Write, x: string)
    requires Unused(store, x) && RoundOf(write) != Some(x) && (write.CreateSession? ==> IsNew(write.session))
    ensures Unused(Do(store, write), x)
  {
    var after := Do(store, write);
    forall s | s in after.sessions
      ensures !Has(after.sessions[s].events, RoundMark(x))
    {
      DoRounds(store, write, s, x);
    }
    forall r | r in after.requests
      ensures after.requests[r].roundId != x
    {
      if r in store.requests {
        DoRemembers(store, write, r, "");
      }
    }
  }

  /** A write by somebody else keeps an attempt's own invariant. */
  lemma DoKeepsWorker(store: Store, rounds: set<string>, write: Write, w: Worker)
    requires WorkerOk(store, rounds, w) && (write.CreateSession? ==> IsNew(write.session))
    requires BeforeRequest(w.phase) ==> RoundOf(write) != Some(w.attempt.roundId)
    ensures WorkerOk(Do(store, write), rounds, w)
  {
    DoRemembers(store, write, w.attempt.requestId, w.sessionId);
    if BeforeRequest(w.phase) {
      DoKeepsUnused(store, write, w.attempt.roundId);
    }
  }

  // ----- a step keeps the invariant

  lemma WriteDueIsProper(store: Store, rounds: set<string>, w: Worker, at: int)
    requires WorkerOk(store, rounds, w)
    ensures Proper(store, rounds, WriteDue(w, at))
  {
    if w.phase.RecordingRound? {
      assert RoundOfSession(store, w.sessionId, w.roundId);
    }
  }

  lemma EnteringOk(store: Store, rounds: set<string>, w: Worker)
    requires WorkerOk(store, rounds, w) && w.phase == Entering
    ensures WorkerOk(store, rounds, Enter(store, w))
  {
  }

  lemma AdoptingOk(store: Store, rounds: set<string>, w: Worker)
    requires w.attempt.roundId in rounds && w.attempt.requestId in store.requests
    ensures WorkerOk(store, rounds, Adopt(store, w))
  {
  }

  lemma CheckingOk(store: Store, rounds: set<string>, w: Worker)
    requires WorkerOk(store, rounds, w) && w.phase == Checking
    ensures WorkerOk(store, rounds, Check(store, w))
  {
    if w.attempt.requestId in store.requests {
      AdoptingOk(store, rounds, w);
    }
  }

  /** Behind the durable request a step changes the phase only, and finishes only with a request
      that is not prepared any more. */
  lemma BoundOnward(store: Store, w: Worker)
    requires Bound(w.phase)
    ensures
      var next := Onward(store, w);
      && next == w.(phase := next.phase)
      && (Bound(next.phase) || next.phase.Refused? || next.phase == Finished(w.sessionId))
      && (next.phase == Confirming || (next.phase.Finished? && w.phase != Confirming) ==>
            w.attempt.requestId in store.requests && store.requests[w.attempt.requestId].status != Prepared)
  {
  }

  lemma BoundOnwardOk(store: Store, rounds: set<string>, w: Worker)
    requires WorkerOk(store, rounds, w) && Bound(w.phase)
    ensures WorkerOk(store, rounds, Onward(store, w))
  {
    BoundOnward(store, w);
  }

  lemma InsertingOk(store: Store, rounds: set<string>, w: Worker)
    requires w.attempt.roundId in rounds && w.phase == Inserting
    ensures WorkerOk(store, rounds, Onward(store, w))
  {
    if w.attempt.requestId in store.requests {
      AdoptingOk(store, rounds, w);
    }
  }

  lemma OnwardOk(store: Store, rounds: set<string>, w: Worker, at: int)
    requires WorkerOk(store, rounds, w) && !w.phase.Over()
    ensures WorkerOk(Do(store, WriteDue(w, at)), rounds, Onward(Do(store, WriteDue(w, at)), w))
  {
    var write := WriteDue(w, at);
    var after := Do(store, write);
    if w.phase == Inserting {
      InsertingOk(after, rounds, w);
    } else {
      DoKeepsWorker(store, rounds, write, w);
      match w.phase {
        case Entering => EnteringOk(after, rounds, w);
        case CreatingSession =>
        case Checking => CheckingOk(after, rounds, w);
        case _ => BoundOnwardOk(after, rounds, w);
      }
    }
  }

  /** Every step keeps the invariant of the stores and of the attempt that takes it. */
  lemma StepKeeps(store: Store, rounds: set<string>, w: Worker, at: int)
    requires StoreOk(store, rounds) && WorkerOk(store, rounds, w) && !w.phase.Over()
    ensures
      var (after, next) := Step(store, w, at);
      && StoreOk(after, rounds) && WorkerOk(after, rounds, next) && next.attempt == w.attempt
      && after == Do(store, WriteDue(w, at)) && Proper(store, rounds, WriteDue(w, at))
  {
    WriteDueIsProper(store, rounds, w, at);
    DoKeepsStore(store, rounds, WriteDue(w, at));
    OnwardOk(store, rounds, w, at);
    OnwardKeepsAttempt(Do(store, WriteDue(w, at)), w);
  }

  lemma OnwardKeepsAttempt(after: Store, w: Worker)
    ensures Onward(after, w).attempt == w.attempt
  {
  }

  // ----- the system

  /** The stores, every attempt that ever began, and every round id handed out so far. */
  datatype System = System(store: Store, workers: map<nat, Worker>, rounds: set<string>)

  /** An attempt begins, takes a step, or stops where it is, or somebody else writes. */
  datatype Move =
    | Begin(worker: nat, attempt: Attempt)
    | Work(worker: nat, at: int)
    | Stop(worker: nat)
    | Surround(write: Write)

  /** What others write: they create sessions, insert requests of their own with a new round, move
      requests on, activate a request whose round is on record, and append events that admission
      does not look for. */
  ghost predicate Surrounding(sys: System, write: Write) {
    match write
    case Nothing => true
    case CreateSession(_, session) => IsNew(session)
    case InsertRequest(_, request) => request.sessionId in sys.store.sessions && request.roundId !in sys.rounds
    case ChangeRequest(_, _, _, _) => true
    case OverwriteRequest(_, _, _) => true
    case ActivateRequest(r) =>
      && r in sys.store.requests && sys.store.requests[r].sessionId in sys.store.sessions
      && Has(sys.store.sessions[sys.store.requests[r].sessionId].events, RoundMark(sys.store.requests[r].roundId))
    case AppendEvent(s, e, _) =>
      match e.body
      case StatusChanged => true
      case OtherBody => true
      case Decided(id, _) => IsForeign(sys, s, id)
      case _ => false
  }

  /** A decision id of its own making: no attempt's, and new to the session. */
  ghost predicate IsForeign(sys: System, s: string, id: string) {
    && (forall w :: w in sys.workers ==> id != DecisionId(sys.workers[w].attempt.requestId))
    && (s in sys.store.sessions ==> !Has(sys.store.sessions[s].events, DecisionMark(id)))
  }

  ghost predicate Allowed(sys: System, move: Move) {
    match move
    case Begin(w, a) => w !in sys.workers && a.roundId !in sys.rounds
    case Work(w, _) => w in sys.workers && !sys.workers[w].phase.Over()
    case Stop(w) => w in sys.workers && !sys.workers[w].phase.Over()
    case Surround(write) => Surrounding(sys, write)
  }

  function Apply(sys: System, move: Move): System {
    match move
    case Begin(w, a) => System(sys.store, sys.workers[w := Arrive(a)], sys.rounds + {a.roundId})
    case Work(w, at) =>
      if w !in sys.workers then sys
      else
        var (after, next) := Step(sys.store, sys.workers[w], at);
        sys.(store := after, workers := sys.workers[w := next])
    case Stop(w) =>
      if w in sys.workers then sys.(workers := sys.workers[w := sys.workers[w].(phase := Stopped)]) else sys
    case Surround(write) =>
      sys.(store := Do(sys.store, write),
           rounds := if write.InsertRequest? then sys.rounds + {write.request.roundId} else sys.rounds)
  }

  ghost predicate Inv(sys: System) {
    && StoreOk(sys.store, sys.rounds)
    && (forall w :: w in sys.workers ==> WorkerOk(sys.store, sys.rounds, sys.workers[w]))
    && (forall v, w :: v in sys.workers && w in sys.workers && v != w ==>
          sys.workers[v].attempt.roundId != sys.workers[w].attempt.roundId)
  }

  // ----- every move keeps the invariant

  lemma MoreRoundsKeepStore(store: Store, rounds: set<string>, more: set<string>)
    requires StoreOk(store, rounds) && rounds <= more
    ensures StoreOk(store, more)
  {
  }

  lemma MoreRoundsKeepWorker(store: Store, rounds: set<string>, more: set<string>, w: Worker)
    requires WorkerOk(store, rounds, w) && rounds <= more
    ensures WorkerOk(store, more, w)
  {
  }

  lemma NewRoundIsUnused(store: Store, rounds: set<string>, x: string)
    requires RoundsBound(store, rounds) && x !in rounds
    ensures Unused(store, x)
  {
  }

  lemma BeginKeeps(sys: System, w: nat, a: Attempt)
    requires Inv(sys) && Allowed(sys, Begin(w, a))
    ensures Inv(Apply(sys, Begin(w, a)))
  {
    var next := Apply(sys, Begin(w, a));
    MoreRoundsKeepStore(sys.store, sys.rounds, next.rounds);
    NewRoundIsUnused(sys.store, sys.rounds, a.roundId);
    forall v | v in next.workers
      ensures WorkerOk(next.store, next.rounds, next.workers[v])
      ensures v != w ==> next.workers[v].attempt.roundId != a.roundId
    {
      if v != w {
        MoreRoundsKeepWorker(sys.store, sys.rounds, next.rounds, sys.workers[v]);
      }
    }
  }

  /** The round an attempt writes is its own or its durable request's, so it is nobody else's to take. */
  lemma WorkSparesOthers(store: Store, rounds: set<string>, w: Worker, v: Worker, at: int)
    requires WorkerOk(store, rounds, w) && WorkerOk(store, rounds, v) && v.attempt.roundId != w.attempt.roundId
    ensures BeforeRequest(v.phase) ==> RoundOf(WriteDue(w, at)) != Some(v.attempt.roundId)
  {
  }

  lemma WorkKeeps(sys: System, w: nat, at: int)
    requires Inv(sys) && Allowed(sys, Work(w, at))
    ensures Inv(Apply(sys, Work(w, at)))
  {
    var before, next := sys.workers[w], Apply(sys, Work(w, at));
    StepKeeps(sys.store, sys.rounds, before, at);
    forall v | v in next.workers
      ensures WorkerOk(next.store, next.rounds, next.workers[v])
      ensures next.workers[v].attempt == sys.workers[v].attempt
    {
      if v != w {
        WorkSparesOthers(sys.store, sys.rounds, before, sys.workers[v], at);
        DoKeepsWorker(sys.store, sys.rounds, WriteDue(before, at), sys.workers[v]);
      }
    }
  }

  lemma StopKeeps(sys: System, w: nat)
    requires Inv(sys) && Allowed(sys, Stop(w))
    ensures Inv(Apply(sys, Stop(w)))
  {
  }

  lemma SurroundKeeps(sys: System, write: Write)
    requires Inv(sys) && Allowed(sys, Surround(write))
    ensures Inv(Apply(sys, Surround(write)))
  {
    var next := Apply(sys, Surround(write));
    MoreRoundsKeepStore(sys.store, sys.rounds, next.rounds);
    if write.InsertRequest? {
      NewRoundIsUnused(sys.store, sys.rounds, write.request.roundId);
    }
    DoKeepsStore(sys.store, next.rounds, write);
    forall v | v in next.workers
      ensures WorkerOk(next.store, next.rounds, next.workers[v])
    {
      MoreRoundsKeepWorker(sys.store, sys.rounds, next.rounds, sys.workers[v]);
      DoKeepsWorker(sys.store, next.rounds, write, sys.workers[v]);
    }
  }

  lemma MoveKeeps(sys: System, move: Move)
    requires Inv(sys) && Allowed(sys, move)
    ensures Inv(Apply(sys, move))
  {
    match move {
      case Begin(w, a) => BeginKeeps(sys, w, a);
      case Work(w, at) => WorkKeeps(sys, w, at);
      case Stop(w) => StopKeeps(sys, w);
      case Surround(write) => SurroundKeeps(sys, write);
    }
  }

  // ----- whole runs

  function After(sys: System, moves: seq<Move>): System
    decreases |moves|
  {
    if moves == [] then sys else After(Apply(sys, moves[0]), moves[1..])
  }

  ghost predicate Legal(sys: System, moves: seq<Move>)
    decreases |moves|
  {
    moves != [] ==> Allowed(sys, moves[0]) && Legal(Apply(sys, moves[0]), moves[1..])
  }

  lemma NothingYetIsOk()
    ensures Inv(System(Store(map[], map[], multiset{}), map[], {}))
  {
  }

  /** Every move of every run, crashes and surroundings included, keeps the invariant. */
  lemma {:induction false} RunKeeps(sys: System, moves: seq<Move>)
    requires Inv(sys) && Legal(sys, moves)
    ensures Inv(After(sys, moves))
    decreases |moves|
  {
    if moves != [] {
      MoveKeeps(sys, moves[0]);
      RunKeeps(Apply(sys, moves[0]), moves[1..]);
    }
  }

  lemma RemembersOnward(store: Store, middle: Store, later: Store, r: string)
    requires Remembers(store, middle, r) && Remembers(middle, later, r)
    ensures Remembers(store, later, r)
  {
  }

  lemma MoveRemembers(sys: System, move: Move, r: string)
    ensures Remembers(sys.store, Apply(sys, move).store, r)
  {
    match move {
      case Work(w, at) =>
        if w in sys.workers {
          DoRemembers(sys.store, WriteDue(sys.workers[w], at), r, "");
        }
      case Surround(write) => DoRemembers(sys.store, write, r, "");
      case _ =>
    }
  }

  /** Over any run a durable request keeps its session, its round and its fingerprint. */
  lemma {:induction false} RunRemembers(sys: System, moves: seq<Move>, r: string)
    ensures Remembers(sys.store, After(sys, moves).store, r)
    decreases |moves|
  {
    if moves != [] {
      MoveRemembers(sys, moves[0], r);
      RunRemembers(Apply(sys, moves[0]), moves[1..], r);
      RemembersOnward(sys.store, Apply(sys, moves[0]).store, After(sys, moves).store, r);
    }
  }

  /** A request that has ended is active again after a move if and only if the move overwrites it with
      an active status and the index lets that pass. */
  predicate Revives(store: Store, move: Move, r: string) {
    && move.Surround? && move.write.OverwriteRequest? && move.write.requestId == r && move.write.to.Active()
    && Accepts(store, move.write)
  }

  lemma RevivedExactlyByOverwrite(sys: System, move: Move, r: string)
    requires r in sys.store.requests && !sys.store.requests[r].status.Active()
    ensures r in Apply(sys, move).store.requests
    ensures Apply(sys, move).store.requests[r].status.Active() <==> Revives(sys.store, move, r)
  {
    MoveRemembers(sys, move, r);
  }

  ghost predicate NeverRevives(sys: System, moves: seq<Move>, r: string)
    decreases |moves|
  {
    moves != [] ==> !Revives(sys.store, moves[0], r) && NeverRevives(Apply(sys, moves[0]), moves[1..], r)
  }

  /** Without such a write a request that has ended has ended for good. */
  lemma {:induction false} EndedStaysEnded(sys: System, moves: seq<Move>, r: string)
    requires NeverRevives(sys, moves, r) && r in sys.store.requests && !sys.store.requests[r].status.Active()
    ensures r in After(sys, moves).store.requests && !After(sys, moves).store.requests[r].status.Active()
    decreases |moves|
  {
    if moves != [] {
      RevivedExactlyByOverwrite(sys, moves[0], r);
      EndedStaysEnded(Apply(sys, moves[0]), moves[1..], r);
    }
  }

  /** A row read while its request was running and written back behind its end does revive it, unless
      another request of the session is active. */
  lemma LateOverwriteRevives(sys: System, r: string, late: Move)
    requires r in sys.store.requests && !sys.store.requests[r].status.Active()
    requires late == Surround(OverwriteRequest(r, Running, true))
    ensures Allowed(sys, late)
    ensures
      Apply(sys, late).store.requests[r].status == Running <==> !BusyFor(sys.store, sys.store.requests[r].sessionId, r)
  {
  }

  /** In every state that a run reaches, however attempts overlap, at most one request of a session
      is active. */
  lemma OneActiveRequestPerSession(sys: System, moves: seq<Move>, q: string, r: string)
    requires Inv(sys) && Legal(sys, moves)
    requires q in After(sys, moves).store.requests && r in After(sys, moves).store.requests
    requires After(sys, moves).store.requests[q].status.Active() && After(sys, moves).store.requests[r].status.Active()
    requires After(sys, moves).store.requests[q].sessionId == After(sys, moves).store.requests[r].sessionId
    ensures q == r
  {
    RunKeeps(sys, moves);
  }

  /** At most once, however attempts overlap and wherever they stop. From any state that a run has
      reached on, a request has one session for good and at most one activation, its round is on
      record in no other session, and every attempt that finished named that one session. */
  lemma AdmittedAtMostOnce(sys: System, moves: seq<Move>, r: string)
    requires Inv(sys) && Legal(sys, moves) && r in sys.store.requests
    ensures
      var now := After(sys, moves).store;
      && r in now.requests && now.requests[r].sessionId == sys.store.requests[r].sessionId
      && now.requests[r].sessionId in now.sessions
      && now.activations[r] <= 1
      && (forall s :: s in now.sessions && Has(now.sessions[s].events, RoundMark(now.requests[r].roundId)) ==>
            s == now.requests[r].sessionId)
      && (forall w :: w in sys.workers && sys.workers[w].attempt.requestId == r && sys.workers[w].phase.Finished? ==>
            sys.workers[w].phase.sessionId == now.requests[r].sessionId)
  {
    RunKeeps(sys, moves);
    RunRemembers(sys, moves, r);
    forall w | w in sys.workers && sys.workers[w].attempt.requestId == r && sys.workers[w].phase.Finished?
      ensures sys.workers[w].phase.sessionId == sys.store.requests[r].sessionId
    {
      assert WorkerOk(sys.store, sys.rounds, sys.workers[w]);
    }
  }

  /** Whoever gets past the check works, in every state that a run reaches, on a request that carries
      the same fingerprint, or one of the two carries none. */
  lemma WorkersShareTheFingerprint(sys: System, moves: seq<Move>, w: nat)
    requires Inv(sys) && Legal(sys, moves) && w in After(sys, moves).workers
    requires Bound(After(sys, moves).workers[w].phase) || After(sys, moves).workers[w].phase.Finished?
    ensures
      var a, store := After(sys, moves).workers[w].attempt, After(sys, moves).store;
      a.requestId in store.requests && FingerprintsAgree(a.fingerprint, store.requests[a.requestId].fingerprint)
  {
    RunKeeps(sys, moves);
    var now := After(sys, moves);
    assert WorkerOk(now.store, now.rounds, now.workers[w]);
  }

  // ----- joining runs

  lemma {:induction false} AfterAppend(sys: System, moves: seq<Move>, more: seq<Move>)
    ensures After(sys, moves + more) == After(After(sys, moves), more)
    ensures Legal(sys, moves + more) <==> Legal(sys, moves) && Legal(After(sys, moves), more)
    decreases |moves|
  {
    if moves == [] {
      assert moves + more == more;
    } else {
      assert (moves + more)[1..] == moves[1..] + more;
      AfterAppend(Apply(sys, moves[0]), moves[1..], more);
    }
  }

  lemma OneMove(sys: System, move: Move)
    ensures After(sys, [move]) == Apply(sys, move)
    ensures Legal(sys, [move]) <==> Allowed(sys, move)
  {
  }
}

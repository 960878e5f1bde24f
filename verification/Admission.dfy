/** Admission of a round as a sequence of reads and of store transactions, with room for a crash and
    for other writers between any two of them. Models _run_sync and _record_run_intent in
    backend/relay/daemon_registry/node_backend.py, over the store operations they call. */
module Admission {
  import opened Wrappers

  // ----- the stores

  datatype Ending = Completed | Failed | Cancelled

  datatype RunStatus = Prepared | Running | Dispatching | Finalizing | Over(how: Ending) {
    predicate Active() { !Over? }
  }

  /** What admission keeps of a run request: its fingerprint, its round, whether it created its
      session, and whether a command of it is on its way. */
  datatype RunRequest = RunRequest(
    sessionId: string, fingerprint: Option<string>, roundId: string, newSession: bool, status: RunStatus,
    delivering: bool)

  /** A handoff without a valid target agent is dispatched like the others but not recorded. */
  datatype DecisionKind = Rerun | Handoff | AimlessHandoff | AnotherKind {
    predicate Dispatches() { this != AnotherKind }

    predicate Recovers() { Rerun? || Handoff? }
  }

  datatype Body =
    | SessionCreated
    | UserMessage(messageId: string)
    | Decided(decisionId: string, kind: DecisionKind)
    | RoundStarted(roundId: string)
    | StatusChanged
    | OtherBody

  datatype Event = Event(body: Body, at: int)

  datatype SessionStatus = Live | Ended(how: Ending)

  datatype Session = Session(
    owner: Option<string>, taskGoal: string, createdAt: int, status: SessionStatus, events: seq<Event>)

  datatype Store = Store(
    requests: map<string, RunRequest>, sessions: map<string, Session>, activations: multiset<string>)

  // ----- reading a session

  /** An event that admission must not record twice. */
  datatype Mark = MessageMark(id: string) | DecisionMark(id: string) | RoundMark(id: string)

  predicate Bears(body: Body, mark: Mark) {
    match mark
    case MessageMark(id) => body == UserMessage(id)
    case DecisionMark(id) => body.Decided? && body.decisionId == id
    case RoundMark(id) => body == RoundStarted(id)
  }

  function Times(events: seq<Event>, mark: Mark): nat {
    if events == [] then 0
    else
      Times(events[..|events| - 1], mark) + if Bears(events[|events| - 1].body, mark) then 1 else 0
  }

  predicate Has(events: seq<Event>, mark: Mark) { Times(events, mark) > 0 }

  /** The order of turns: by timestamp, then by position. */
  predicate Later(at: int, index: int, thanAt: int, thanIndex: int) {
    at > thanAt || (at == thanAt && index > thanIndex)
  }

  datatype Turn = Turn(at: int, index: int)

  /** The latest user turn below a position: the creation of the session, or a message. */
  function LatestUserTurn(s: Session, n: nat): Turn
    requires n <= |s.events|
  {
    if n == 0 then Turn(s.createdAt, -1)
    else
      var before, e := LatestUserTurn(s, n - 1), s.events[n - 1];
      if (e.body.SessionCreated? || e.body.UserMessage?) && Later(e.at, n - 1, before.at, before.index)
      then Turn(e.at, n - 1) else before
  }

  /** The position of the latest decision behind the latest user turn, below a position. */
  function LatestDecision(s: Session, n: nat): Option<nat>
    requires n <= |s.events|
    ensures LatestDecision(s, n).Some? ==>
      LatestDecision(s, n).value < n && s.events[LatestDecision(s, n).value].body.Decided?
  {
    if n == 0 then None
    else
      var user := LatestUserTurn(s, |s.events|);
      var before, e := LatestDecision(s, n - 1), s.events[n - 1];
      if e.body.Decided? && Later(e.at, n - 1, user.at, user.index)
         && (before.None? || Later(e.at, n - 1, s.events[before.value].at, before.value))
      then Some(n - 1) else before
  }

  /** Whether an event is a user turn, or a decision behind the latest user turn. */
  predicate IsUserTurn(e: Event) { e.body.SessionCreated? || e.body.UserMessage? }

  predicate Follows(s: Session, i: nat)
    requires i < |s.events|
  {
    var user := LatestUserTurn(s, |s.events|);
    && s.events[i].body.Decided?
    && (s.events[i].at > user.at || (s.events[i].at == user.at && i > user.index))
  }

  /** The event is no later than this, by time and at the same time by place. */
  predicate NoLater(s: Session, i: nat, thanAt: int, thanIndex: int)
    requires i < |s.events|
  {
    s.events[i].at < thanAt || (s.events[i].at == thanAt && i <= thanIndex)
  }

  /** The latest user turn is the session's creation or a user's event, and no turn is later. */
  lemma {:induction false} LatestUserTurnIsLatest(s: Session, n: nat)
    requires n <= |s.events|
    ensures
      var t := LatestUserTurn(s, n);
      && (t == Turn(s.createdAt, -1)
          || (0 <= t.index < n && IsUserTurn(s.events[t.index]) && t.at == s.events[t.index].at))
      && s.createdAt <= t.at
      && forall i :: 0 <= i < n && IsUserTurn(s.events[i]) ==> NoLater(s, i, t.at, t.index)
  {
    if n > 0 {
      LatestUserTurnIsLatest(s, n - 1);
    }
  }

  /** The latest decision is the last, by time and then by position, of those behind the latest user
      turn; there is none exactly when no decision is. */
  lemma {:induction false} LatestDecisionIsLatest(s: Session, n: nat)
    requires n <= |s.events|
    ensures
      var d := LatestDecision(s, n);
      && (d.Some? <==> exists i :: 0 <= i < n && Follows(s, i))
      && (d.Some? ==> Follows(s, d.value)
                      && forall i :: 0 <= i < n && Follows(s, i) ==> NoLater(s, i, s.events[d.value].at, d.value))
  {
    if n > 0 {
      LatestDecisionIsLatest(s, n - 1);
      assert Follows(s, n - 1) ==> exists i :: 0 <= i < n && Follows(s, i);
    }
  }

  // ----- store transactions

  /** One transaction. What its guard rejects changes nothing. */
  datatype Write =
    | Nothing
    | CreateSession(sessionId: string, session: Session)
    | InsertRequest(requestId: string, request: RunRequest)
    | ChangeRequest(requestId: string, expected: RunStatus, to: RunStatus, delivering: bool)
    | OverwriteRequest(requestId: string, to: RunStatus, delivering: bool)
    | ActivateRequest(requestId: string)
    | AppendEvent(sessionId: string, event: Event, status: Option<SessionStatus>)

  predicate BusyFor(store: Store, sessionId: string, requestId: string) {
    exists r :: r in store.requests && r != requestId && store.requests[r].status.Active()
      && store.requests[r].sessionId == sessionId
  }

  /** A prepared request can only end; any other can take any status but prepared. */
  predicate Moves(from: RunStatus, to: RunStatus) { to != Prepared && (from == Prepared ==> !to.Active()) }

  /** A session's id and a request's id are keys, and a session has one active request by a unique
      index. A request that is changed moves on from an active status that the writer expects. One
      that is overwritten, with a row read before, moves on from whatever its status is by then. */
  predicate Accepts(store: Store, write: Write) {
    match write
    case Nothing => false
    case CreateSession(s, _) => s !in store.sessions
    case InsertRequest(r, request) =>
      r !in store.requests && (request.status.Active() ==> !BusyFor(store, request.sessionId, r))
    case ChangeRequest(r, expected, status, _) =>
      r in store.requests && store.requests[r].status == expected && expected.Active() && Moves(expected, status)
    case OverwriteRequest(r, status, _) =>
      && r in store.requests && Moves(store.requests[r].status, status)
      && (status.Active() ==> !BusyFor(store, store.requests[r].sessionId, r))
    case ActivateRequest(r) => r in store.requests && store.requests[r].status == Prepared
    case AppendEvent(s, _, _) => s in store.sessions
  }

  function Do(store: Store, write: Write): Store {
    if !Accepts(store, write) then store
    else
      match write
      case Nothing => store
      case CreateSession(s, session) => store.(sessions := store.sessions[s := session])
      case InsertRequest(r, request) => store.(requests := store.requests[r := request])
      case ChangeRequest(r, _, status, delivering) =>
        store.(requests := store.requests[r := store.requests[r].(status := status, delivering := delivering)])
      case OverwriteRequest(r, status, delivering) =>
        store.(requests := store.requests[r := store.requests[r].(status := status, delivering := delivering)])
      case ActivateRequest(r) =>
        store.(requests := store.requests[r := store.requests[r].(status := Running)],
               activations := store.activations + multiset{r})
      case AppendEvent(s, event, status) =>
        var was := store.sessions[s];
        store.(sessions := store.sessions[s :=
          was.(status := status.GetOr(was.status), events := was.events + [event])])
  }

  // ----- attempts

  /** One call of the backend. `admissible` says what the checks of the target node, its agents and
      its capacity find. */
  datatype Attempt = Attempt(
    requestId: string, sessionId: Option<string>, fingerprint: Option<string>, roundId: string,
    userMessageId: Option<string>, decision: Option<DecisionKind>, taskGoal: string,
    actor: Option<string>, actorIsAdmin: bool, owner: Option<string>, admissible: bool)

  datatype Refusal =
    | FingerprintConflict | Forbidden | SessionMissing | SessionBusy | Inadmissible | SessionEnded | NotActivatable

  datatype Phase =
    | Entering | CreatingSession | Checking | Inserting
    | Messaging | SendingMessage | Continuing | Reopening
    | Deciding | RecordingDecision | FollowingDecision
    | StartingRound | RecordingRound
    | Activating | Ending(how: Ending) | Claiming | Confirming
    | Finished(sessionId: string) | Refused(why: Refusal) | Stopped
  {
    predicate Over() { Finished? || Refused? || Stopped? }
  }

  /** An attempt in progress. `existed` and `decisionDispatch` are read on entry; the session and the
      round are those of the durable request once it is known. */
  datatype Worker = Worker(
    attempt: Attempt, phase: Phase, sessionId: string, roundId: string, existed: bool, decisionDispatch: bool)

  predicate FingerprintsAgree(expected: Option<string>, actual: Option<string>) {
    expected.GetOr("") == "" || actual.GetOr("") == "" || actual == expected
  }

  function DecisionId(requestId: string): string { "dec_" + requestId }

  function MessageId(a: Attempt): string {
    if a.userMessageId.GetOr("") != "" then a.userMessageId.value else "evt_" + a.requestId
  }

  predicate DispatchesDecision(a: Attempt, s: Session) {
    if a.decision.Some? then a.decision.value.Dispatches()
    else
      var latest := LatestDecision(s, |s.events|);
      latest.Some? && s.events[latest.value].body.kind.Dispatches() && a.taskGoal == s.taskGoal
  }

  function Arrive(a: Attempt): Worker {
    Worker(a, Entering, a.sessionId.GetOr(a.requestId), a.roundId, false, false)
  }

  // ----- the writes of an attempt

  function NewSession(a: Attempt, at: int): Session {
    Session(a.owner, a.taskGoal, at, Live, [Event(SessionCreated, at), Event(StatusChanged, at)])
  }

  function NewRequest(w: Worker): RunRequest {
    RunRequest(w.sessionId, w.attempt.fingerprint, w.attempt.roundId, w.attempt.sessionId.None?, Prepared, false)
  }

  /** The transaction an attempt is due, by its phase. */
  function WriteDue(w: Worker, at: int): Write {
    var a, s := w.attempt, w.sessionId;
    match w.phase
    case CreatingSession => CreateSession(s, NewSession(a, at))
    case Inserting => InsertRequest(a.requestId, NewRequest(w))
    case SendingMessage => AppendEvent(s, Event(UserMessage(MessageId(a)), at), None)
    case Reopening => AppendEvent(s, Event(StatusChanged, at), Some(Live))
    case RecordingDecision =>
      AppendEvent(s, Event(Decided(DecisionId(a.requestId), a.decision.GetOr(AnotherKind)), at), None)
    case FollowingDecision => AppendEvent(s, Event(StatusChanged, at), Some(Live))
    case RecordingRound => AppendEvent(s, Event(RoundStarted(w.roundId), at), None)
    case Ending(how) => ChangeRequest(a.requestId, Prepared, Over(how), false)
    case Claiming => ActivateRequest(a.requestId)
    case _ => Nothing
  }

  // ----- what an attempt makes of what it reads

  /** An attempt whose request was activated before returns that request's session. */
  function Answer(store: Store, w: Worker): Phase {
    if w.sessionId !in store.sessions then Refused(SessionMissing)
    else if w.attempt.actor.Some? && !w.attempt.actorIsAdmin && store.sessions[w.sessionId].owner != w.attempt.actor
    then Refused(Forbidden)
    else Finished(w.sessionId)
  }

  /** The checks of an existing session, and where an attempt goes on from there. */
  function Resume(store: Store, w: Worker, onward: Phase): Phase {
    var a := w.attempt;
    if w.sessionId !in store.sessions then Refused(SessionMissing)
    else if !a.admissible then Refused(Inadmissible)
    else if a.owner.None? || store.sessions[w.sessionId].owner != a.owner then Refused(Forbidden)
    else if BusyFor(store, w.sessionId, a.requestId) then Refused(SessionBusy)
    else onward
  }

  function OnExisting(store: Store, w: Worker, onward: Phase): Worker {
    w.(phase := Resume(store, w, onward), existed := true,
       decisionDispatch := w.sessionId in store.sessions && DispatchesDecision(w.attempt, store.sessions[w.sessionId]))
  }

  /** The reads of an attempt before its first write. */
  function Enter(store: Store, w: Worker): Worker {
    var a := w.attempt;
    if a.requestId !in store.requests then
      if a.sessionId.None? then
        w.(phase := if a.admissible then CreatingSession else Refused(Inadmissible))
      else
        OnExisting(store, w, Checking)
    else
      var r := store.requests[a.requestId];
      var here := w.(sessionId := r.sessionId);
      if !FingerprintsAgree(a.fingerprint, r.fingerprint) then w.(phase := Refused(FingerprintConflict))
      else if r.status != Prepared then here.(phase := Answer(store, here))
      else OnExisting(store, here.(roundId := r.roundId), Messaging)
  }

  /** Goes on with the durable request, whoever inserted it. */
  function Adopt(store: Store, w: Worker): Worker
    requires w.attempt.requestId in store.requests
  {
    var r := store.requests[w.attempt.requestId];
    if !FingerprintsAgree(w.attempt.fingerprint, r.fingerprint) then w.(phase := Refused(FingerprintConflict))
    else if r.status != Prepared then w.(phase := Finished(r.sessionId), sessionId := r.sessionId)
    else w.(phase := Messaging, sessionId := r.sessionId, roundId := r.roundId)
  }

  /** Whether the session is free for the request. */
  function Check(store: Store, w: Worker): Worker {
    var id := w.attempt.requestId;
    if id in store.requests && store.requests[id].status.Active() && store.requests[id].sessionId == w.sessionId
    then Adopt(store, w)
    else if BusyFor(store, w.sessionId, id) then w.(phase := Refused(SessionBusy))
    else w.(phase := Inserting)
  }

  /** What is already on record of the round and of the message. */
  function LookForMessage(events: seq<Event>, w: Worker): Phase {
    if Has(events, RoundMark(w.roundId)) then Activating
    else if !w.existed || w.decisionDispatch || w.attempt.sessionId.None? then Deciding
    else if Has(events, MessageMark(MessageId(w.attempt))) then Continuing
    else SendingMessage
  }

  /** A decision recorded before is not recorded again, and neither is its status event. */
  function LookForDecision(events: seq<Event>, a: Attempt): Phase {
    if a.decision.None? || !a.decision.value.Recovers() || Has(events, DecisionMark(DecisionId(a.requestId)))
    then StartingRound
    else RecordingDecision
  }

  predicate LooksAtSession(phase: Phase) { phase in {Messaging, Continuing, Deciding, StartingRound, Confirming} }

  function LookAtSession(s: Session, w: Worker): Phase {
    match w.phase
    case Messaging => LookForMessage(s.events, w)
    case Continuing => if s.status.Ended? then Reopening else Deciding
    case Deciding => LookForDecision(s.events, w.attempt)
    case StartingRound => if Has(s.events, RoundMark(w.roundId)) then Activating else RecordingRound
    case Confirming => if s.status.Ended? then Refused(SessionEnded) else Finished(w.sessionId)
    case _ => w.phase
  }

  /** How an activated request is answered for: without another look once a command is on its way. */
  function Activated(store: Store, w: Worker): Phase {
    var id := w.attempt.requestId;
    if id !in store.requests || store.requests[id].status !in {Running, Dispatching} then Refused(NotActivatable)
    else if store.requests[id].delivering then Finished(w.sessionId)
    else Confirming
  }

  function Activate(store: Store, w: Worker): Phase {
    var id := w.attempt.requestId;
    if id !in store.requests then Refused(NotActivatable)
    else if w.sessionId !in store.sessions then Refused(SessionMissing)
    else if store.sessions[w.sessionId].status.Ended? then
      if store.requests[id].status == Prepared then Ending(store.sessions[w.sessionId].status.how)
      else Refused(SessionEnded)
    else if store.requests[id].status == Prepared then Claiming
    else Activated(store, w)
  }

  /** The worker after its step, by the stores as the step leaves them. */
  function Onward(after: Store, w: Worker): Worker {
    if LooksAtSession(w.phase) then
      w.(phase := if w.sessionId !in after.sessions then Refused(SessionMissing)
                  else LookAtSession(after.sessions[w.sessionId], w))
    else match w.phase
    case Entering => Enter(after, w)
    case CreatingSession => w.(phase := Checking)
    case Checking => Check(after, w)
    case Inserting =>
      if w.attempt.requestId in after.requests then Adopt(after, w) else w.(phase := Refused(SessionBusy))
    case SendingMessage => w.(phase := Continuing)
    case Reopening => w.(phase := Deciding)
    case RecordingDecision => w.(phase := FollowingDecision)
    case FollowingDecision => w.(phase := StartingRound)
    case RecordingRound => w.(phase := Activating)
    case Activating => w.(phase := Activate(after, w))
    case Ending(_) => w.(phase := Refused(SessionEnded))
    case Claiming => w.(phase := Activated(after, w))
    case _ => w
  }

  /** One step: a read, or a transaction and what it answers. */
  function Step(store: Store, w: Worker, at: int): (Store, Worker) {
    var after := Do(store, WriteDue(w, at));
    (after, Onward(after, w))
  }

  /** How many steps an attempt has left at most. */
  function Rank(phase: Phase): nat {
    match phase
    case Entering => 16
    case CreatingSession => 15
    case Checking => 14
    case Inserting => 13
    case Messaging => 12
    case SendingMessage => 11
    case Continuing => 10
    case Reopening => 9
    case Deciding => 8
    case RecordingDecision => 7
    case FollowingDecision => 6
    case StartingRound => 5
    case RecordingRound => 4
    case Activating => 3
    case Ending(_) => 2
    case Claiming => 2
    case Confirming => 1
    case _ => 0
  }

  lemma StepLowersRank(store: Store, w: Worker, at: int)
    requires !w.phase.Over()
    ensures Rank(Step(store, w, at).1.phase) < Rank(w.phase)
  {
    OnwardLowersRank(Do(store, WriteDue(w, at)), w);
  }

  lemma OnwardLowersRank(after: Store, w: Worker)
    requires !w.phase.Over()
    ensures Rank(Onward(after, w).phase) < Rank(w.phase)
  {
    if LooksAtSession(w.phase) {
      if w.sessionId in after.sessions {
        LookLowersRank(after.sessions[w.sessionId], w);
      }
    } else if w.phase == Entering {
      EnterLowersRank(after, w);
    }
  }

  lemma LookLowersRank(s: Session, w: Worker)
    requires LooksAtSession(w.phase)
    ensures Rank(LookAtSession(s, w)) < Rank(w.phase)
  {
  }

  lemma EnterLowersRank(store: Store, w: Worker)
    ensures Rank(Enter(store, w).phase) < Rank(Entering)
  {
  }

  function Iterate<T>(step: T -> T, here: T, n: nat): T {
    if n == 0 then here else Iterate(step, step(here), n - 1)
  }

  /** A step of an attempt that is not over. */
  function StepAt(at: int): ((Store, Worker)) -> (Store, Worker) {
    (here: (Store, Worker)) => if here.1.phase.Over() then here else Step(here.0, here.1, at)
  }

  /** An attempt alone with the stores, stopped by a crash after some number of steps. */
  function Partly(store: Store, w: Worker, steps: nat, at: int): (Store, Worker) {
    Iterate(StepAt(at), (store, w), steps)
  }
}

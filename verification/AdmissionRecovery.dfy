/** What an attempt that nobody interrupts achieves, after any crashes of earlier ones. */
module AdmissionRecovery {
  import opened Wrappers
  import opened Admission
  import opened AdmissionSafety
  import opened AdmissionMarks
  import opened AdmissionBackend

  /** The request is running, was activated once, and its round is on record once. */
  ghost predicate Admitted(store: Store, requestId: string) {
    && requestId in store.requests && store.requests[requestId].status == Running
    && store.activations[requestId] == 1
    && store.requests[requestId].sessionId in store.sessions
    && Times(store.sessions[store.requests[requestId].sessionId].events,
             RoundMark(store.requests[requestId].roundId)) == 1
  }

  /** The session an attempt works on: that of its durable request, else the one it names, else a
      new one under its request id. */
  function Target(store: Store, a: Attempt): string {
    if a.requestId in store.requests then store.requests[a.requestId].sessionId
    else a.sessionId.GetOr(a.requestId)
  }

  /** The round of the attempt's durable request is on record already. */
  predicate Started(store: Store, a: Attempt) {
    && a.requestId in store.requests && store.requests[a.requestId].sessionId in store.sessions
    && Has(store.sessions[store.requests[a.requestId].sessionId].events,
           RoundMark(store.requests[a.requestId].roundId))
  }

  /** The last decision behind the latest user turn dispatches: a rerun, or a handoff with an aim or
      without. */
  ghost predicate RerunStands(s: Session) {
    exists i :: 0 <= i < |s.events| && Follows(s, i)
      && s.events[i].body.kind in {Rerun, Handoff, AimlessHandoff}
      && forall j :: 0 <= j < |s.events| && Follows(s, j) ==> NoLater(s, j, s.events[i].at, i)
  }

  /** The attempt dispatches a decision again and brings no text of its own: it carries a rerun or a
      handoff, or none at all and the text the thread is about, and such a decision stands. */
  ghost predicate Redispatches(a: Attempt, s: Session) {
    if a.decision.Some? then a.decision.value in {Rerun, Handoff, AimlessHandoff}
    else a.taskGoal == s.taskGoal && RerunStands(s)
  }

  /** What the code looks for is just that. */
  lemma DispatchesExactly(a: Attempt, s: Session)
    ensures DispatchesDecision(a, s) <==> Redispatches(a, s)
  {
    if a.decision.None? {
      LatestDecisionIsLatest(s, |s.events|);
      var latest := LatestDecision(s, |s.events|);
      if RerunStands(s) {
        var i :| 0 <= i < |s.events| && Follows(s, i) && s.events[i].body.kind in {Rerun, Handoff, AimlessHandoff}
          && forall j :: 0 <= j < |s.events| && Follows(s, j) ==> NoLater(s, j, s.events[i].at, i);
        assert i == latest.value;
      }
    }
  }

  /** The attempt brings a user message to an existing thread. */
  ghost predicate MessageDue(store: Store, a: Attempt) {
    && a.sessionId.Some? && Target(store, a) in store.sessions
    && !Redispatches(a, store.sessions[Target(store, a)])
  }

  /** The attempt brings a rerun or an aimed handoff that is not on record yet. */
  predicate DecisionDue(a: Attempt, events: seq<Event>) {
    a.decision in {Some(Rerun), Some(Handoff)} && !Has(events, DecisionMark(DecisionId(a.requestId)))
  }

  /** The session is not over, or the attempt will reopen it before it activates. */
  ghost predicate CanActivate(store: Store, a: Attempt) {
    var s := Target(store, a);
    || s !in store.sessions || store.sessions[s].status.Live?
    || (!Started(store, a) && (MessageDue(store, a) || DecisionDue(a, store.sessions[s].events)))
  }

  /** An attempt alone, behind its prepared request. */
  ghost predicate Holds(store: Store, rounds: set<string>, w: Worker) {
    && AloneOk(store, rounds, w) && Bound(w.phase) && store.requests[w.attempt.requestId].status == Prepared
    && w.sessionId in store.sessions
  }

  /** The attempt admitted its request, or found its session over and ended the request. */
  ghost predicate EndsWell(after: Store, end: Worker, w: Worker, admitted: bool) {
    && end.attempt == w.attempt
    && (admitted ==> end.phase == Finished(w.sessionId) && Admitted(after, w.attempt.requestId))
    && (!admitted ==> end.phase == Refused(SessionEnded) && w.attempt.requestId in after.requests
                      && after.requests[w.attempt.requestId].status.Over?)
  }

  // ----- one step along the path of an attempt

  lemma {:induction false} OverStays(path: Path, i: nat, n: nat, at: int)
    requires Trajectory(path, at) && path(i).1.phase.Over() && i <= n
    ensures path(n) == path(i)
  {
    if i < n {
      OverStays(path, i, n - 1, at);
      assert path(Succ(n - 1)) == path(n - 1);
    }
  }

  lemma Onwards(path: Path, i: nat, at: int)
    requires Trajectory(path, at) && !path(i).1.phase.Over()
    ensures path(i + 1) == Step(path(i).0, path(i).1, at)
  {
    assert path(Succ(i)) == Step(path(i).0, path(i).1, at);
  }

  predicate Appends(phase: Phase) {
    phase in {SendingMessage, Reopening, RecordingDecision, FollowingDecision, RecordingRound}
  }

  /** A look at the session. */
  lemma LookHolds(store: Store, rounds: set<string>, w: Worker, at: int)
    requires Holds(store, rounds, w) && LooksAtSession(w.phase) && w.phase != Confirming
    ensures Step(store, w, at) == (store, w.(phase := LookAtSession(store.sessions[w.sessionId], w)))
    ensures Holds(store, rounds, Step(store, w, at).1)
  {
    LookStays(store, w, at);
    StepKeepsAlone(store, rounds, w, at);
  }

  lemma LookStays(store: Store, w: Worker, at: int)
    requires w.sessionId in store.sessions && LooksAtSession(w.phase) && w.phase != Confirming
    ensures Step(store, w, at) == (store, w.(phase := LookAtSession(store.sessions[w.sessionId], w)))
    ensures Bound(LookAtSession(store.sessions[w.sessionId], w))
  {
  }

  lemma AppendStays(store: Store, w: Worker, at: int)
    requires w.sessionId in store.sessions && Appends(w.phase)
    ensures
      var (after, next) := Step(store, w, at);
      && after.requests == store.requests && w.sessionId in after.sessions && next == w.(phase := next.phase)
      && Bound(next.phase)
      && after.sessions[w.sessionId].status ==
         if w.phase in {Reopening, FollowingDecision} then Live else store.sessions[w.sessionId].status
  {
  }

  /** An append to the session. */
  lemma AppendHolds(store: Store, rounds: set<string>, w: Worker, at: int)
    requires Holds(store, rounds, w) && Appends(w.phase)
    ensures Holds(Step(store, w, at).0, rounds, Step(store, w, at).1)
  {
    StepKeepsAlone(store, rounds, w, at);
    AppendStays(store, w, at);
  }

  ghost predicate HoldsAt(path: Path, i: nat, rounds: set<string>) {
    Holds(path(i).0, rounds, path(i).1)
  }

  function SessionAt(path: Path, i: nat): Session
    requires path(i).1.sessionId in path(i).0.sessions
  {
    path(i).0.sessions[path(i).1.sessionId]
  }

  lemma LookAlong(path: Path, i: nat, rounds: set<string>, at: int)
    requires Trajectory(path, at) && HoldsAt(path, i, rounds)
    requires LooksAtSession(path(i).1.phase) && path(i).1.phase != Confirming
    ensures HoldsAt(path, i + 1, rounds)
    ensures path(i + 1) == (path(i).0, path(i).1.(phase := LookAtSession(SessionAt(path, i), path(i).1)))
  {
    Onwards(path, i, at);
    LookHolds(path(i).0, rounds, path(i).1, at);
  }

  lemma AppendAlong(path: Path, i: nat, rounds: set<string>, at: int, onward: Phase)
    requires Trajectory(path, at) && HoldsAt(path, i, rounds) && Appends(path(i).1.phase)
    requires onward == Onward(path(i).0, path(i).1).phase
    ensures HoldsAt(path, i + 1, rounds) && path(i + 1).1 == path(i).1.(phase := onward)
    ensures SessionAt(path, i + 1).status ==
      if path(i).1.phase in {Reopening, FollowingDecision} then Live else SessionAt(path, i).status
    ensures path(i).1.phase == RecordingRound ==> Has(SessionAt(path, i + 1).events, RoundMark(path(i).1.roundId))
  {
    Onwards(path, i, at);
    AppendHolds(path(i).0, rounds, path(i).1, at);
    AppendStays(path(i).0, path(i).1, at);
    WorkMarks(path(i).0, path(i).1, at, path(i).1.sessionId, RoundMark(path(i).1.roundId));
  }

  // ----- to the end, phase by phase from the last

  lemma ConfirmingEnds(path: Path, i: nat, n: nat, rounds: set<string>, at: int)
    requires Trajectory(path, at) && path(i).1.phase == Confirming && n >= i + 1
    requires path(i).1.sessionId in path(i).0.sessions && SessionAt(path, i).status.Live?
    ensures path(n) == (path(i).0, path(i).1.(phase := Finished(path(i).1.sessionId)))
  {
    Onwards(path, i, at);
    OverStays(path, i + 1, n, at);
  }

  lemma ClaimIsAdmitted(store: Store, rounds: set<string>, w: Worker, at: int)
    requires Holds(store, rounds, w) && w.phase == Claiming
    requires Has(store.sessions[w.sessionId].events, RoundMark(w.roundId))
    ensures
      var (after, next) := Step(store, w, at);
      && Admitted(after, w.attempt.requestId) && after.sessions == store.sessions
      && next.phase in {Confirming, Finished(w.sessionId)} && next == w.(phase := next.phase)
  {
  }

  lemma ClaimingEnds(path: Path, i: nat, n: nat, rounds: set<string>, at: int)
    requires Trajectory(path, at) && HoldsAt(path, i, rounds) && path(i).1.phase == Claiming && n >= i + 2
    requires Has(SessionAt(path, i).events, RoundMark(path(i).1.roundId)) && SessionAt(path, i).status.Live?
    ensures EndsWell(path(n).0, path(n).1, path(i).1, true)
  {
    Onwards(path, i, at);
    ClaimIsAdmitted(path(i).0, rounds, path(i).1, at);
    if path(i + 1).1.phase == Confirming {
      ConfirmingEnds(path, i + 1, n, rounds, at);
    } else {
      OverStays(path, i + 1, n, at);
    }
  }

  lemma EndingEnds(path: Path, i: nat, n: nat, rounds: set<string>, at: int)
    requires Trajectory(path, at) && HoldsAt(path, i, rounds) && path(i).1.phase.Ending? && n >= i + 1
    ensures EndsWell(path(n).0, path(n).1, path(i).1, false)
  {
    Onwards(path, i, at);
    OverStays(path, i + 1, n, at);
  }

  /** The look that decides whether the request can be claimed. */
  lemma ActivateAlong(path: Path, i: nat, rounds: set<string>, at: int)
    requires Trajectory(path, at) && HoldsAt(path, i, rounds) && path(i).1.phase == Activating
    ensures HoldsAt(path, i + 1, rounds) && path(i + 1).0 == path(i).0
    ensures path(i + 1).1 == path(i).1.(phase :=
      match SessionAt(path, i).status case Live => Claiming case Ended(how) => Ending(how))
  {
    Onwards(path, i, at);
    ActivateHolds(path(i).0, rounds, path(i).1, at);
  }

  lemma ActivateHolds(store: Store, rounds: set<string>, w: Worker, at: int)
    requires Holds(store, rounds, w) && w.phase == Activating
    ensures
      var next := w.(phase :=
        match store.sessions[w.sessionId].status case Live => Claiming case Ended(how) => Ending(how));
      Step(store, w, at) == (store, next) && Holds(store, rounds, next)
  {
    StepKeepsAlone(store, rounds, w, at);
  }

  lemma ActivatingEnds(path: Path, i: nat, n: nat, rounds: set<string>, at: int)
    requires Trajectory(path, at) && HoldsAt(path, i, rounds) && path(i).1.phase == Activating && n >= i + 3
    requires Has(SessionAt(path, i).events, RoundMark(path(i).1.roundId))
    ensures EndsWell(path(n).0, path(n).1, path(i).1, SessionAt(path, i).status.Live?)
  {
    ActivateAlong(path, i, rounds, at);
    if SessionAt(path, i).status.Live? {
      ClaimingEnds(path, i + 1, n, rounds, at);
    } else {
      EndingEnds(path, i + 1, n, rounds, at);
    }
  }

  lemma RecordingRoundEnds(path: Path, i: nat, n: nat, rounds: set<string>, at: int)
    requires Trajectory(path, at) && HoldsAt(path, i, rounds) && path(i).1.phase == RecordingRound && n >= i + 4
    ensures EndsWell(path(n).0, path(n).1, path(i).1, SessionAt(path, i).status.Live?)
  {
    AppendAlong(path, i, rounds, at, Activating);
    ActivatingEnds(path, i + 1, n, rounds, at);
  }

  lemma StartingRoundEnds(path: Path, i: nat, n: nat, rounds: set<string>, at: int)
    requires Trajectory(path, at) && HoldsAt(path, i, rounds) && path(i).1.phase == StartingRound && n >= i + 5
    ensures EndsWell(path(n).0, path(n).1, path(i).1, SessionAt(path, i).status.Live?)
  {
    LookAlong(path, i, rounds, at);
    if path(i + 1).1.phase == Activating {
      ActivatingEnds(path, i + 1, n, rounds, at);
    } else {
      RecordingRoundEnds(path, i + 1, n, rounds, at);
    }
  }

  lemma FollowingDecisionEnds(path: Path, i: nat, n: nat, rounds: set<string>, at: int)
    requires Trajectory(path, at) && HoldsAt(path, i, rounds) && path(i).1.phase == FollowingDecision && n >= i + 6
    ensures EndsWell(path(n).0, path(n).1, path(i).1, true)
  {
    AppendAlong(path, i, rounds, at, StartingRound);
    StartingRoundEnds(path, i + 1, n, rounds, at);
  }

  lemma RecordingDecisionEnds(path: Path, i: nat, n: nat, rounds: set<string>, at: int)
    requires Trajectory(path, at) && HoldsAt(path, i, rounds) && path(i).1.phase == RecordingDecision && n >= i + 7
    ensures EndsWell(path(n).0, path(n).1, path(i).1, true)
  {
    AppendAlong(path, i, rounds, at, FollowingDecision);
    FollowingDecisionEnds(path, i + 1, n, rounds, at);
  }

  lemma DecidingEnds(path: Path, i: nat, n: nat, rounds: set<string>, at: int)
    requires Trajectory(path, at) && HoldsAt(path, i, rounds) && path(i).1.phase == Deciding && n >= i + 8
    ensures EndsWell(path(n).0, path(n).1, path(i).1,
                     SessionAt(path, i).status.Live? || DecisionDue(path(i).1.attempt, SessionAt(path, i).events))
  {
    LookAlong(path, i, rounds, at);
    if DecisionDue(path(i).1.attempt, SessionAt(path, i).events) {
      RecordingDecisionEnds(path, i + 1, n, rounds, at);
    } else {
      StartingRoundEnds(path, i + 1, n, rounds, at);
    }
  }

  lemma ContinuingEnds(path: Path, i: nat, n: nat, rounds: set<string>, at: int)
    requires Trajectory(path, at) && HoldsAt(path, i, rounds) && path(i).1.phase == Continuing && n >= i + 10
    ensures EndsWell(path(n).0, path(n).1, path(i).1, true)
  {
    LookAlong(path, i, rounds, at);
    if SessionAt(path, i).status.Live? {
      DecidingEnds(path, i + 1, n, rounds, at);
    } else {
      AppendAlong(path, i + 1, rounds, at, Deciding);
      DecidingEnds(path, i + 2, n, rounds, at);
    }
  }

  lemma SendingMessageEnds(path: Path, i: nat, n: nat, rounds: set<string>, at: int)
    requires Trajectory(path, at) && HoldsAt(path, i, rounds) && path(i).1.phase == SendingMessage && n >= i + 11
    ensures EndsWell(path(n).0, path(n).1, path(i).1, true)
  {
    AppendAlong(path, i, rounds, at, Continuing);
    ContinuingEnds(path, i + 1, n, rounds, at);
  }

  /** Whether a worker at the message phase will record one. */
  predicate SendsMessage(w: Worker) {
    w.existed && !w.decisionDispatch && w.attempt.sessionId.Some?
  }

  /** Whether a worker at the message phase will find its session live when it activates. */
  predicate WillActivate(s: Session, w: Worker) {
    || s.status.Live?
    || (!Has(s.events, RoundMark(w.roundId)) && (SendsMessage(w) || DecisionDue(w.attempt, s.events)))
  }

  lemma MessagingEnds(path: Path, i: nat, n: nat, rounds: set<string>, at: int)
    requires Trajectory(path, at) && HoldsAt(path, i, rounds) && path(i).1.phase == Messaging && n >= i + 12
    ensures EndsWell(path(n).0, path(n).1, path(i).1, WillActivate(SessionAt(path, i), path(i).1))
  {
    LookAlong(path, i, rounds, at);
    var next := path(i + 1).1.phase;
    if next == Activating {
      ActivatingEnds(path, i + 1, n, rounds, at);
    } else if next == Deciding {
      DecidingEnds(path, i + 1, n, rounds, at);
    } else if next == Continuing {
      ContinuingEnds(path, i + 1, n, rounds, at);
    } else {
      SendingMessageEnds(path, i + 1, n, rounds, at);
    }
  }

  // ----- from the call on

  /** The checks before the first write let the attempt go on. */
  predicate PassesChecks(store: Store, a: Attempt) {
    !Enter(store, Arrive(a)).phase.Over() && !BusyFor(store, Target(store, a), a.requestId)
  }

  /** An attempt alone on its way to its durable request, which is not there yet. */
  ghost predicate Opens(store: Store, rounds: set<string>, w: Worker) {
    && AloneOk(store, rounds, w) && w.attempt.requestId !in store.requests && w.roundId == w.attempt.roundId
    && !BusyFor(store, w.sessionId, w.attempt.requestId)
  }

  /** Inserting a new request adopts it, and its round is not on record. */
  lemma InsertingAdopts(store: Store, rounds: set<string>, w: Worker, at: int)
    requires Opens(store, rounds, w) && w.phase == Inserting
    ensures
      var (after, next) := Step(store, w, at);
      && Holds(after, rounds, next) && after.sessions == store.sessions && next == w.(phase := Messaging)
      && !Has(store.sessions[w.sessionId].events, RoundMark(w.roundId))
  {
    StepKeepsAlone(store, rounds, w, at);
  }

  lemma InsertingEnds(path: Path, i: nat, n: nat, rounds: set<string>, at: int)
    requires Trajectory(path, at) && Opens(path(i).0, rounds, path(i).1) && path(i).1.phase == Inserting && n >= i + 13
    ensures EndsWell(path(n).0, path(n).1, path(i).1, WillActivate(SessionAt(path, i), path(i).1))
  {
    Onwards(path, i, at);
    InsertingAdopts(path(i).0, rounds, path(i).1, at);
    MessagingEnds(path, i + 1, n, rounds, at);
  }

  lemma CheckGoesOn(store: Store, rounds: set<string>, w: Worker, at: int)
    requires Opens(store, rounds, w) && w.phase == Checking
    ensures Step(store, w, at) == (store, w.(phase := Inserting)) && Opens(store, rounds, w.(phase := Inserting))
  {
    StepKeepsAlone(store, rounds, w, at);
  }

  lemma CheckingEnds(path: Path, i: nat, n: nat, rounds: set<string>, at: int)
    requires Trajectory(path, at) && Opens(path(i).0, rounds, path(i).1) && path(i).1.phase == Checking && n >= i + 14
    ensures EndsWell(path(n).0, path(n).1, path(i).1, WillActivate(SessionAt(path, i), path(i).1))
  {
    Onwards(path, i, at);
    CheckGoesOn(path(i).0, rounds, path(i).1, at);
    InsertingEnds(path, i + 1, n, rounds, at);
  }

  lemma CreationGoesOn(store: Store, rounds: set<string>, w: Worker, at: int)
    requires Opens(store, rounds, w) && w.phase == CreatingSession
    ensures
      var (after, next) := Step(store, w, at);
      && Opens(after, rounds, next) && next == w.(phase := Checking) && w.sessionId in after.sessions
      && (if w.sessionId in store.sessions then after == store else after.sessions[w.sessionId].status.Live?)
  {
    StepKeepsAlone(store, rounds, w, at);
    CreationOnly(store, w, at);
  }

  lemma CreationOnly(store: Store, w: Worker, at: int)
    requires w.phase == CreatingSession
    ensures
      var (after, next) := Step(store, w, at);
      && after.requests == store.requests && next == w.(phase := Checking) && w.sessionId in after.sessions
      && (if w.sessionId in store.sessions then after == store else after.sessions[w.sessionId].status.Live?)
  {
  }

  lemma NewThreadEnds(path: Path, n: nat, rounds: set<string>, a: Attempt, at: int)
    requires Trajectory(path, at) && path(0).1 == Arrive(a) && AloneOk(path(0).0, rounds, Arrive(a)) && n >= 16
    requires PassesChecks(path(0).0, a) && a.requestId !in path(0).0.requests && a.sessionId.None?
    ensures EndsWell(path(n).0, path(n).1, Arrive(a), CanActivate(path(0).0, a))
  {
    ThreadIsCreated(path, rounds, a, at);
    CheckingEnds(path, 2, n, rounds, at);
  }

  /** A new thread's session is there when its request is checked: live, unless a crash left it. */
  lemma ThreadIsCreated(path: Path, rounds: set<string>, a: Attempt, at: int)
    requires Trajectory(path, at) && path(0).1 == Arrive(a) && AloneOk(path(0).0, rounds, Arrive(a))
    requires PassesChecks(path(0).0, a) && a.requestId !in path(0).0.requests && a.sessionId.None?
    ensures
      var (store, w) := path(2);
      && Opens(store, rounds, w) && w == Arrive(a).(phase := Checking) && w.sessionId in store.sessions
      && (WillActivate(store.sessions[w.sessionId], w) <==> CanActivate(path(0).0, a))
  {
    EnterAlong(path, at);
    StepKeepsAlone(path(0).0, rounds, Arrive(a), at);
    assert Opens(path(1).0, rounds, path(1).1);
    Onwards(path, 1, at);
    CreationGoesOn(path(1).0, rounds, path(1).1, at);
    NewThreadCanActivate(path(1).0, path(2).0, rounds, a);
  }

  lemma NewThreadCanActivate(store: Store, after: Store, rounds: set<string>, a: Attempt)
    requires Opens(after, rounds, Arrive(a).(phase := Checking)) && a.requestId !in store.requests && a.sessionId.None?
    requires a.requestId in after.sessions
    requires if a.requestId in store.sessions then after == store else after.sessions[a.requestId].status.Live?
    ensures WillActivate(after.sessions[a.requestId], Arrive(a).(phase := Checking)) <==> CanActivate(store, a)
  {
  }

  /** Entering with a reply to a thread whose request is not there yet. */
  lemma ReplyEnters(store: Store, rounds: set<string>, a: Attempt, at: int)
    requires AloneOk(store, rounds, Arrive(a)) && PassesChecks(store, a) && a.requestId !in store.requests
    requires a.sessionId.Some?
    ensures
      var w := Enter(store, Arrive(a));
      && w == Arrive(a).(phase := Checking, existed := true, decisionDispatch := w.decisionDispatch)
      && w.sessionId == Target(store, a) && w.sessionId in store.sessions
      && (SendsMessage(w) <==> MessageDue(store, a)) && Opens(store, rounds, w)
  {
    EntersWithItsSession(store, a);
    DispatchesExactly(a, store.sessions[a.sessionId.value]);
    EnterKeepsAlone(store, rounds, a, at);
  }

  lemma EntersWithItsSession(store: Store, a: Attempt)
    requires PassesChecks(store, a) && a.requestId !in store.requests && a.sessionId.Some?
    ensures a.sessionId.value in store.sessions
    ensures Enter(store, Arrive(a)) ==
      Arrive(a).(phase := Checking, existed := true,
                 decisionDispatch := DispatchesDecision(a, store.sessions[a.sessionId.value]))
  {
  }

  lemma EnterKeepsAlone(store: Store, rounds: set<string>, a: Attempt, at: int)
    requires AloneOk(store, rounds, Arrive(a))
    ensures AloneOk(store, rounds, Enter(store, Arrive(a)))
  {
    StepKeepsAlone(store, rounds, Arrive(a), at);
    assert Step(store, Arrive(a), at) == (store, Enter(store, Arrive(a)));
  }

  lemma ReplyEnds(path: Path, n: nat, rounds: set<string>, a: Attempt, at: int)
    requires Trajectory(path, at) && path(0).1 == Arrive(a) && AloneOk(path(0).0, rounds, Arrive(a)) && n >= 16
    requires PassesChecks(path(0).0, a) && a.requestId !in path(0).0.requests && a.sessionId.Some?
    ensures EndsWell(path(n).0, path(n).1, Arrive(a), CanActivate(path(0).0, a))
  {
    EnterAlong(path, at);
    ReplyEnters(path(0).0, rounds, a, at);
    CheckingEnds(path, 1, n, rounds, at);
    ReplyCanActivate(path(0).0, rounds, a, path(1).1);
  }

  lemma ReplyCanActivate(store: Store, rounds: set<string>, a: Attempt, w: Worker)
    requires Opens(store, rounds, w) && a.requestId !in store.requests && a.sessionId.Some?
    requires w == Arrive(a).(phase := Checking, existed := true, decisionDispatch := w.decisionDispatch)
    requires w.sessionId in store.sessions && (SendsMessage(w) <==> MessageDue(store, a))
    ensures WillActivate(store.sessions[w.sessionId], w) <==> CanActivate(store, a)
  {
    assert Unused(store, a.roundId);
  }

  /** Entering on a prepared request. */
  lemma EntersKnown(store: Store, rounds: set<string>, a: Attempt)
    requires AloneOk(store, rounds, Arrive(a)) && PassesChecks(store, a) && a.requestId in store.requests
    ensures
      var w := Enter(store, Arrive(a));
      && w.phase == Messaging && w.attempt == a && w.sessionId == Target(store, a) && w.sessionId in store.sessions
      && w.roundId == store.requests[a.requestId].roundId
      && (SendsMessage(w) <==> MessageDue(store, a))
  {
    EntersPrepared(store, a);
    DispatchesExactly(a, store.sessions[Target(store, a)]);
  }

  lemma EntersPrepared(store: Store, a: Attempt)
    requires PassesChecks(store, a) && a.requestId in store.requests
    ensures
      var r := store.requests[a.requestId];
      && r.sessionId in store.sessions
      && Enter(store, Arrive(a)) ==
         Arrive(a).(phase := Messaging, sessionId := r.sessionId, roundId := r.roundId, existed := true,
                    decisionDispatch := DispatchesDecision(a, store.sessions[r.sessionId]))
  {
  }

  lemma KnownRequestEnds(path: Path, n: nat, rounds: set<string>, a: Attempt, at: int)
    requires Trajectory(path, at) && path(0).1 == Arrive(a) && AloneOk(path(0).0, rounds, Arrive(a)) && n >= 16
    requires PassesChecks(path(0).0, a) && a.requestId in path(0).0.requests
    ensures EndsWell(path(n).0, path(n).1, Enter(path(0).0, Arrive(a)), CanActivate(path(0).0, a))
    ensures Enter(path(0).0, Arrive(a)).sessionId == Target(path(0).0, a)
    ensures !Started(path(0).0, a) && MessageDue(path(0).0, a) ==> MessageAt(path, n, Target(path(0).0, a))
  {
    EntersKnown(path(0).0, rounds, a);
    StepKeepsAlone(path(0).0, rounds, Arrive(a), at);
    EnterAlong(path, at);
    MessagingEnds(path, 1, n, rounds, at);
    if !Started(path(0).0, a) && MessageDue(path(0).0, a) {
      MessageIsRecorded(path, 1, n, rounds, at);
    }
  }

  lemma EnterAlong(path: Path, at: int)
    requires Trajectory(path, at) && path(0).1.phase == Entering
    ensures path(1) == Step(path(0).0, path(0).1, at) && path(1) == (path(0).0, Enter(path(0).0, path(0).1))
  {
    Onwards(path, 0, at);
  }

  // ----- the message

  /** The attempt's message is on record at this point of its path. */
  ghost predicate MessageAt(path: Path, n: nat, s: string) {
    s in path(n).0.sessions && Has(path(n).0.sessions[s].events, MessageMark(MessageId(path(0).1.attempt)))
  }

  lemma DoKeepsMarks(store: Store, write: Write, s: string, mark: Mark)
    requires s in store.sessions && Has(store.sessions[s].events, mark)
    ensures s in Do(store, write).sessions && Has(Do(store, write).sessions[s].events, mark)
  {
    if write.AppendEvent? && write.sessionId == s {
      TimesOneMore(store.sessions[s].events, write.event, mark);
    }
  }

  lemma {:induction false} MarksStay(path: Path, i: nat, n: nat, at: int, s: string, mark: Mark)
    requires Trajectory(path, at) && i <= n && s in path(i).0.sessions && Has(path(i).0.sessions[s].events, mark)
    ensures s in path(n).0.sessions && Has(path(n).0.sessions[s].events, mark)
  {
    if i < n {
      MarksStay(path, i, n - 1, at, s, mark);
      NextKeepsMarks(path, n - 1, at, s, mark);
    }
  }

  lemma NextKeepsMarks(path: Path, i: nat, at: int, s: string, mark: Mark)
    requires Trajectory(path, at) && s in path(i).0.sessions && Has(path(i).0.sessions[s].events, mark)
    ensures s in path(i + 1).0.sessions && Has(path(i + 1).0.sessions[s].events, mark)
  {
    assert path(Succ(i)) == if path(i).1.phase.Over() then path(i) else Step(path(i).0, path(i).1, at);
    if !path(i).1.phase.Over() {
      DoKeepsMarks(path(i).0, WriteDue(path(i).1, at), s, mark);
    }
  }

  lemma SendAlong(path: Path, i: nat, rounds: set<string>, at: int)
    requires Trajectory(path, at) && HoldsAt(path, i, rounds) && path(i).1.phase == SendingMessage
    ensures
      var w := path(i).1;
      && w.sessionId in path(i + 1).0.sessions
      && Has(path(i + 1).0.sessions[w.sessionId].events, MessageMark(MessageId(w.attempt)))
  {
    Onwards(path, i, at);
    AppendStays(path(i).0, path(i).1, at);
    WorkMarks(path(i).0, path(i).1, at, path(i).1.sessionId, MessageMark(MessageId(path(i).1.attempt)));
  }

  /** A message that is due is on record at the end. */
  lemma MessageIsRecorded(path: Path, i: nat, n: nat, rounds: set<string>, at: int)
    requires Trajectory(path, at) && HoldsAt(path, i, rounds) && path(i).1.phase == Messaging && n >= i + 2
    requires SendsMessage(path(i).1) && !Has(SessionAt(path, i).events, RoundMark(path(i).1.roundId))
    requires path(i).1.attempt == path(0).1.attempt
    ensures MessageAt(path, n, path(i).1.sessionId)
  {
    var s, mark := path(i).1.sessionId, MessageMark(MessageId(path(i).1.attempt));
    LookAlong(path, i, rounds, at);
    if path(i + 1).1.phase == SendingMessage {
      SendAlong(path, i + 1, rounds, at);
      MarksStay(path, i + 2, n, at, s, mark);
    } else {
      MarksStay(path, i + 1, n, at, s, mark);
    }
  }

  /** An attempt that inserts its own request sends its message when it replies to a thread. */
  lemma ReplyIsRecorded(path: Path, n: nat, rounds: set<string>, a: Attempt, at: int)
    requires Trajectory(path, at) && path(0).1 == Arrive(a) && AloneOk(path(0).0, rounds, Arrive(a)) && n >= 16
    requires PassesChecks(path(0).0, a) && a.requestId !in path(0).0.requests && MessageDue(path(0).0, a)
    ensures MessageAt(path, n, Target(path(0).0, a))
  {
    ReplyIsInserted(path, rounds, a, at);
    MessageIsRecorded(path, 3, n, rounds, at);
  }

  lemma ReplyIsInserted(path: Path, rounds: set<string>, a: Attempt, at: int)
    requires Trajectory(path, at) && path(0).1 == Arrive(a) && AloneOk(path(0).0, rounds, Arrive(a))
    requires PassesChecks(path(0).0, a) && a.requestId !in path(0).0.requests && MessageDue(path(0).0, a)
    ensures HoldsAt(path, 3, rounds)
    ensures path(3).1 == Arrive(a).(phase := Messaging, existed := true, decisionDispatch := false)
    ensures !Has(SessionAt(path, 3).events, RoundMark(a.roundId))
  {
    ReplyIsChecked(path, rounds, a, at);
    Onwards(path, 2, at);
    InsertingAdopts(path(2).0, rounds, path(2).1, at);
  }

  lemma ReplyIsChecked(path: Path, rounds: set<string>, a: Attempt, at: int)
    requires Trajectory(path, at) && path(0).1 == Arrive(a) && AloneOk(path(0).0, rounds, Arrive(a))
    requires PassesChecks(path(0).0, a) && a.requestId !in path(0).0.requests && MessageDue(path(0).0, a)
    ensures Opens(path(2).0, rounds, path(2).1)
    ensures path(2).1 == Arrive(a).(phase := Inserting, existed := true, decisionDispatch := false)
  {
    ReplyEnters(path(0).0, rounds, a, at);
    EnterAlong(path, at);
    Onwards(path, 1, at);
    CheckGoesOn(path(1).0, rounds, path(1).1, at);
  }

  // ----- the whole attempt

  /** Exactly once, the other half: an attempt that passes its checks and is not interrupted admits
      its request, however earlier attempts were cut short, exactly when its session is not over
      or a message or an unrecorded decision of its own will reopen it. Its message is then on
      record once. Otherwise it ends the request. */
  lemma UninterruptedAttempt(store: Store, rounds: set<string>, a: Attempt, at: int)
    requires StoreOk(store, rounds) && MarkedOnce(store) && a.roundId !in rounds && PassesChecks(store, a)
    ensures
      var (after, w) := Partly(store, Arrive(a), 16, at);
      && (CanActivate(store, a) ==> w.phase == Finished(Target(store, a)) && Admitted(after, a.requestId))
      && (!CanActivate(store, a) ==>
            w.phase == Refused(SessionEnded) && a.requestId in after.requests
            && after.requests[a.requestId].status.Over?)
      && (!Started(store, a) && MessageDue(store, a) ==>
            Target(store, a) in after.sessions
            && Times(after.sessions[Target(store, a)].events, MessageMark(MessageId(a))) == 1)
  {
    var path := PathOf(store, Arrive(a), at);
    ArrivesOk(store, rounds, a);
    PartlyKeeps(store, rounds, a, 16, at);
    PathIsTrajectory(store, Arrive(a), at);
    PathEndsWell(path, rounds + {a.roundId}, a, at);
  }

  lemma PathEndsWell(path: Path, rounds: set<string>, a: Attempt, at: int)
    requires Trajectory(path, at) && path(0).1 == Arrive(a) && AloneOk(path(0).0, rounds, Arrive(a))
    requires PassesChecks(path(0).0, a)
    ensures
      var store, after, w := path(0).0, path(16).0, path(16).1;
      && (CanActivate(store, a) ==> w.phase == Finished(Target(store, a)) && Admitted(after, a.requestId))
      && (!CanActivate(store, a) ==>
            w.phase == Refused(SessionEnded) && a.requestId in after.requests
            && after.requests[a.requestId].status.Over?)
      && (!Started(store, a) && MessageDue(store, a) ==> MessageAt(path, 16, Target(store, a)))
  {
    if a.requestId in path(0).0.requests {
      KnownRequestEnds(path, 16, rounds, a, at);
    } else if a.sessionId.None? {
      NewThreadEnds(path, 16, rounds, a, at);
    } else {
      ReplyEnds(path, 16, rounds, a, at);
      if MessageDue(path(0).0, a) {
        ReplyIsRecorded(path, 16, rounds, a, at);
      }
    }
  }

  // ----- the one write a retry does not make good

  /** An attempt that brings a new rerun or handoff to a thread that is over. */
  ghost predicate RecoversEnded(store: Store, rounds: set<string>, a: Attempt) {
    && StoreOk(store, rounds) && MarkedOnce(store) && a.roundId !in rounds && PassesChecks(store, a)
    && a.requestId !in store.requests && a.sessionId.Some?
    && a.sessionId.value in store.sessions && store.sessions[a.sessionId.value].status.Ended?
    && a.decision.Some? && DecisionDue(a, store.sessions[a.sessionId.value].events)
  }

  /** Such an attempt with its request inserted, about to look for its message. */
  function Inserted(store: Store, a: Attempt): (Store, Worker) {
    var w := Arrive(a).(phase := Inserting, existed := true, decisionDispatch := true);
    (store.(requests := store.requests[a.requestId := NewRequest(w)]), w.(phase := Messaging))
  }

  /** The stores behind its decision. */
  function BehindDecision(store: Store, a: Attempt, at: int): Store
    requires a.sessionId.Some? && a.sessionId.value in store.sessions && a.decision.Some?
  {
    var s := a.sessionId.value;
    var was := store.sessions[s];
    Inserted(store, a).0.(sessions := store.sessions[s := was.(events :=
      was.events + [Event(Decided(DecisionId(a.requestId), a.decision.value), at)])])
  }

  lemma EntersToRecover(store: Store, rounds: set<string>, a: Attempt)
    requires RecoversEnded(store, rounds, a)
    ensures Enter(store, Arrive(a)) == Arrive(a).(phase := Checking, existed := true, decisionDispatch := true)
    ensures !BusyFor(store, a.sessionId.value, a.requestId)
    ensures !Has(store.sessions[a.sessionId.value].events, RoundMark(a.roundId))
  {
    EntersWithItsSession(store, a);
    DispatchesExactly(a, store.sessions[a.sessionId.value]);
    NewRoundIsUnused(store, rounds, a.roundId);
  }

  lemma InsertsToRecover(path: Path, rounds: set<string>, a: Attempt, at: int)
    requires Trajectory(path, at) && path(0).1 == Arrive(a) && RecoversEnded(path(0).0, rounds, a)
    ensures path(3) == Inserted(path(0).0, a)
  {
    EntersToRecover(path(0).0, rounds, a);
    EnterAlong(path, at);
    Onwards(path, 1, at);
    Onwards(path, 2, at);
  }

  lemma DecidesToRecover(path: Path, rounds: set<string>, a: Attempt, at: int)
    requires Trajectory(path, at) && path(0).1 == Arrive(a) && RecoversEnded(path(0).0, rounds, a)
    requires path(3) == Inserted(path(0).0, a)
    ensures path(5) == (path(3).0, path(3).1.(phase := RecordingDecision))
  {
    EntersToRecover(path(0).0, rounds, a);
    Onwards(path, 3, at);
    Onwards(path, 4, at);
  }

  lemma SixStepsReachIt(path: Path, rounds: set<string>, a: Attempt, at: int)
    requires Trajectory(path, at) && path(0).1 == Arrive(a) && RecoversEnded(path(0).0, rounds, a)
    ensures path(6).0 == BehindDecision(path(0).0, a, at)
  {
    InsertsToRecover(path, rounds, a, at);
    DecidesToRecover(path, rounds, a, at);
    Onwards(path, 5, at);
  }

  lemma RetryPassesItsChecks(store: Store, rounds: set<string>, a: Attempt, retry: Attempt, at: int)
    requires RecoversEnded(store, rounds, a) && retry == a.(roundId := retry.roundId)
    ensures PassesChecks(BehindDecision(store, a, at), retry)
  {
    var cut, s := BehindDecision(store, a, at), a.sessionId.value;
    EntersToRecover(store, rounds, a);
    assert !BusyFor(cut, s, a.requestId) by {
      assert forall r :: r in cut.requests && r != a.requestId ==>
        r in store.requests && cut.requests[r] == store.requests[r];
    }
    assert Resume(store, Arrive(a), Checking) == Checking;
    assert cut.requests[a.requestId].sessionId == s && cut.sessions[s].owner == store.sessions[s].owner;
  }

  lemma RetryCannotActivate(store: Store, rounds: set<string>, a: Attempt, retry: Attempt, at: int)
    requires RecoversEnded(store, rounds, a) && retry == a.(roundId := retry.roundId)
    ensures !CanActivate(BehindDecision(store, a, at), retry)
  {
    var cut, s := BehindDecision(store, a, at), a.sessionId.value;
    var e := Event(Decided(DecisionId(a.requestId), a.decision.value), at);
    assert Target(cut, retry) == s && cut.sessions[s].events == store.sessions[s].events + [e];
    TimesOneMore(store.sessions[s].events, e, DecisionMark(DecisionId(a.requestId)));
  }

  /** Cut a rerun or a handoff of a thread that is over right behind its decision event, before the
      status event that reopens the thread: the retry finds the decision on record, leaves the
      thread over, and ends the request, although without the cut it would have been admitted. */
  lemma DecisionCutBeforeItsStatus(store: Store, rounds: set<string>, a: Attempt, retry: Attempt, at: int, later: int)
    requires RecoversEnded(store, rounds, a)
    requires retry == a.(roundId := retry.roundId) && retry.roundId !in rounds + {a.roundId}
    ensures
      var (uncut, w) := Partly(store, Arrive(a), 16, at);
      w.phase == Finished(a.sessionId.value) && Admitted(uncut, a.requestId)
    ensures
      var cut := Partly(store, Arrive(a), 6, at).0;
      var (after, w) := Partly(cut, Arrive(retry), 16, later);
      w.phase == Refused(SessionEnded) && a.requestId in after.requests && after.requests[a.requestId].status.Over?
  {
    UninterruptedAttempt(store, rounds, a, at);
    PathIsTrajectory(store, Arrive(a), at);
    SixStepsReachIt(PathOf(store, Arrive(a), at), rounds, a, at);
    PartlyKeeps(store, rounds, a, 6, at);
    RetryPassesItsChecks(store, rounds, a, retry, at);
    RetryCannotActivate(store, rounds, a, retry, at);
    UninterruptedAttempt(BehindDecision(store, a, at), rounds + {a.roundId}, retry, later);
  }

  /** There is such an attempt. */
  lemma SomeAttemptRecoversEnded() returns (store: Store, a: Attempt)
    ensures RecoversEnded(store, {}, a)
  {
    var over := Session(Some("owner"), "goal", 0, Ended(Completed), []);
    store := Store(map[], map["thread" := over], multiset{});
    a := Attempt("request", Some("thread"), None, "round", None, Some(Rerun), "goal", None, false, Some("owner"), true);
  }
}

/** What a call that nobody interrupts is answered, for every call and every consistent store, and
    what it leaves in the stores. */
module AdmissionAnswers {
  import opened Wrappers
  import opened Admission
  import opened AdmissionSafety
  import opened AdmissionMarks
  import opened AdmissionBackend
  import opened AdmissionRecovery

  /** Another request works in the session. */
  ghost predicate AnotherWorksIn(store: Store, s: string, requestId: string) {
    exists r :: r in store.requests && r != requestId && store.requests[r].sessionId == s
      && !store.requests[r].status.Over?
  }

  predicate Given(text: Option<string>) { text != None && text != Some("") }

  /** The answer once the checks are passed. */
  ghost function Admit(store: Store, a: Attempt, s: string): Phase {
    if CanActivate(store, a) then Finished(s) else Refused(SessionEnded)
  }

  /** The checks of an existing thread, in their order. */
  ghost function AnswerInThread(store: Store, a: Attempt, s: string): Phase {
    if s !in store.sessions then Refused(SessionMissing)
    else if !a.admissible then Refused(Inadmissible)
    else if a.owner == None || store.sessions[s].owner != a.owner then Refused(Forbidden)
    else if AnotherWorksIn(store, s, a.requestId) then Refused(SessionBusy)
    else Admit(store, a, s)
  }

  /** The answer, said of the call and of the stores it finds. A known request that was activated is
      answered for to whoever may see its thread; one with other work is a conflict. */
  ghost function DueAnswer(store: Store, a: Attempt): Phase {
    if a.requestId in store.requests then
      var r := store.requests[a.requestId];
      if Given(a.fingerprint) && Given(r.fingerprint) && a.fingerprint != r.fingerprint
      then Refused(FingerprintConflict)
      else if r.status == Prepared then AnswerInThread(store, a, r.sessionId)
      else if r.sessionId !in store.sessions then Refused(SessionMissing)
      else if a.actor == None || a.actorIsAdmin || store.sessions[r.sessionId].owner == a.actor
      then Finished(r.sessionId)
      else Refused(Forbidden)
    else if a.sessionId != None then AnswerInThread(store, a, a.sessionId.value)
    else if !a.admissible then Refused(Inadmissible)
    else if AnotherWorksIn(store, a.requestId, a.requestId) then Refused(SessionBusy)
    else Admit(store, a, a.requestId)
  }

  // ----- refused, or answered for at once

  lemma BusyIs(store: Store, s: string, requestId: string)
    ensures BusyFor(store, s, requestId) <==> AnotherWorksIn(store, s, requestId)
  {
    if BusyFor(store, s, requestId) {
      var r :| r in store.requests && r != requestId && store.requests[r].status.Active()
        && store.requests[r].sessionId == s;
      assert !store.requests[r].status.Over?;
    }
    if AnotherWorksIn(store, s, requestId) {
      var r :| r in store.requests && r != requestId && store.requests[r].sessionId == s
        && !store.requests[r].status.Over?;
      assert store.requests[r].status.Active();
    }
  }

  /** An entry that ends the attempt gives the answer that is due. */
  lemma EntryAnswers(store: Store, a: Attempt)
    requires Enter(store, Arrive(a)).phase.Over()
    ensures Enter(store, Arrive(a)).phase == DueAnswer(store, a)
  {
    BusyIs(store, Target(store, a), a.requestId);
  }

  lemma ChecksPassed(store: Store, a: Attempt)
    requires PassesChecks(store, a)
    ensures DueAnswer(store, a) == Admit(store, a, Target(store, a))
  {
    BusyIs(store, Target(store, a), a.requestId);
    if a.requestId in store.requests {
      EntersPrepared(store, a);
    } else if a.sessionId.Some? {
      EntersWithItsSession(store, a);
    }
  }

  lemma OverAtOnce(path: Path, a: Attempt, at: int)
    requires Trajectory(path, at) && path(0).1 == Arrive(a) && Enter(path(0).0, Arrive(a)).phase.Over()
    ensures path(16) == (path(0).0, Enter(path(0).0, Arrive(a)))
  {
    EnterAlong(path, at);
    OverStays(path, 1, 16, at);
  }

  /** Only a new thread whose id is another's busy session gets past its entry and is refused then. */
  lemma BusyNewThread(store: Store, rounds: set<string>, a: Attempt)
    requires StoreOk(store, rounds) && !Enter(store, Arrive(a)).phase.Over() && !PassesChecks(store, a)
    ensures a.requestId !in store.requests && a.sessionId.None? && a.admissible && a.requestId in store.sessions
    ensures BusyFor(store, a.requestId, a.requestId) && DueAnswer(store, a) == Refused(SessionBusy)
    ensures Enter(store, Arrive(a)) == Arrive(a).(phase := CreatingSession)
  {
    BusyIs(store, Target(store, a), a.requestId);
  }

  lemma BusyNewThreadEnds(path: Path, a: Attempt, at: int)
    requires Trajectory(path, at) && path(0).1 == Arrive(a)
    requires Enter(path(0).0, Arrive(a)) == Arrive(a).(phase := CreatingSession)
    requires a.sessionId.None? && a.requestId in path(0).0.sessions && a.requestId !in path(0).0.requests
    requires BusyFor(path(0).0, a.requestId, a.requestId)
    ensures path(16).0 == path(0).0 && path(16).1.phase == Refused(SessionBusy)
  {
    EnterAlong(path, at);
    Onwards(path, 1, at);
    CreationOnly(path(1).0, path(1).1, at);
    Onwards(path, 2, at);
    CheckRefuses(path(2).0, path(2).1, at);
    OverStays(path, 3, 16, at);
  }

  lemma CheckRefuses(store: Store, w: Worker, at: int)
    requires w.phase == Checking && w.attempt.requestId !in store.requests
    requires BusyFor(store, w.sessionId, w.attempt.requestId)
    ensures Step(store, w, at) == (store, w.(phase := Refused(SessionBusy)))
  {
  }

  // ----- every call

  /** Every call is answered as is due; and one that does not come to its request, because the checks
      refuse it or because the request was activated before, writes nothing at all. */
  lemma EveryCallIsAnswered(store: Store, rounds: set<string>, a: Attempt, at: int)
    requires StoreOk(store, rounds) && MarkedOnce(store) && a.roundId !in rounds
    ensures
      var (after, w) := Partly(store, Arrive(a), 16, at);
      && w.phase == DueAnswer(store, a)
      && (!PassesChecks(store, a) ==> after == store)
      && (w.phase.Refused? && w.phase.why != SessionEnded ==> after == store)
  {
    var path := PathOf(store, Arrive(a), at);
    PathIsTrajectory(store, Arrive(a), at);
    if PassesChecks(store, a) {
      UninterruptedAttempt(store, rounds, a, at);
      ChecksPassed(store, a);
    } else if Enter(store, Arrive(a)).phase.Over() {
      EntryAnswers(store, a);
      OverAtOnce(path, a, at);
    } else {
      BusyNewThread(store, rounds, a);
      BusyNewThreadEnds(path, a, at);
    }
  }

  // ----- an overlap with the attempt that inserts the request

  /** Goes on with a request that is there, whoever inserted it: one with other work is a conflict, one
      that was activated is answered for, and a prepared one is taken up in its own thread and round. */
  ghost predicate TakesUp(r: RunRequest, w: Worker, next: Worker) {
    if Given(w.attempt.fingerprint) && Given(r.fingerprint) && w.attempt.fingerprint != r.fingerprint
    then next == w.(phase := Refused(FingerprintConflict))
    else if r.status == Prepared then next == w.(phase := Messaging, sessionId := r.sessionId, roundId := r.roundId)
    else next == w.(phase := Finished(r.sessionId), sessionId := r.sessionId)
  }

  /** The check before the insertion takes up its request only while that works in the thread; else the
      thread must be free. */
  lemma CheckExactly(store: Store, w: Worker, at: int)
    requires w.phase == Checking
    ensures
      var (after, next), id := Step(store, w, at), w.attempt.requestId;
      && after == store
      && if id in store.requests && store.requests[id].sessionId == w.sessionId && !store.requests[id].status.Over?
         then TakesUp(store.requests[id], w, next)
         else if AnotherWorksIn(store, w.sessionId, id) then next == w.(phase := Refused(SessionBusy))
         else next == w.(phase := Inserting)
  {
    BusyIs(store, w.sessionId, w.attempt.requestId);
  }

  /** The insertion takes up a request that is there already, is refused where another works in the
      thread, and else takes up the new request. */
  lemma InsertExactly(store: Store, w: Worker, at: int)
    requires w.phase == Inserting
    ensures
      var (after, next), id := Step(store, w, at), w.attempt.requestId;
      if id in store.requests then after == store && TakesUp(store.requests[id], w, next)
      else if AnotherWorksIn(store, w.sessionId, id) then after == store && next == w.(phase := Refused(SessionBusy))
      else
        var r := RunRequest(w.sessionId, w.attempt.fingerprint, w.attempt.roundId, w.attempt.sessionId == None,
                            Prepared, false);
        after == store.(requests := store.requests[id := r]) && TakesUp(r, w, next)
  {
    BusyIs(store, w.sessionId, w.attempt.requestId);
  }

  /** The session is there and live, or over. */
  predicate LiveIn(store: Store, s: string) { s in store.sessions && store.sessions[s].status == Live }

  predicate OverIn(store: Store, s: string) { s in store.sessions && store.sessions[s].status != Live }

  predicate Underway(store: Store, r: string) {
    r in store.requests && (store.requests[r].status == Running || store.requests[r].status == Dispatching)
  }

  predicate Awaits(store: Store, r: string) { r in store.requests && store.requests[r].status == Prepared }

  /** The look that decides about the claim. Only a prepared request of a live thread is claimed, and
      one of a thread that is over ends as that did. Whoever comes later finishes at once if a command
      is on its way, and confirms that the thread is live if not. */
  lemma ActivateExactly(store: Store, w: Worker, at: int)
    requires w.phase == Activating
    ensures
      var (after, next), id, s := Step(store, w, at), w.attempt.requestId, w.sessionId;
      && after == store && next == w.(phase := next.phase)
      && (next.phase == Claiming <==> Awaits(store, id) && LiveIn(store, s))
      && (next.phase.Ending? <==> Awaits(store, id) && OverIn(store, s))
      && (next.phase.Ending? ==> store.sessions[s].status == Ended(next.phase.how))
      && (next.phase == Refused(SessionEnded) <==>
            id in store.requests && !Awaits(store, id) && OverIn(store, s))
      && (next.phase == Finished(s) <==>
            Underway(store, id) && store.requests[id].delivering && LiveIn(store, s))
      && (next.phase == Confirming <==>
            Underway(store, id) && !store.requests[id].delivering && LiveIn(store, s))
      && (next.phase == Refused(SessionMissing) <==> id in store.requests && s !in store.sessions)
      && (next.phase == Refused(NotActivatable) <==>
            || id !in store.requests
            || (!Awaits(store, id) && !Underway(store, id) && LiveIn(store, s)))
  {
  }

  /** The claim activates a request that is still prepared, once; one that lost is answered alike. */
  lemma ClaimExactly(store: Store, w: Worker, at: int)
    requires w.phase == Claiming
    ensures
      var (after, next), id := Step(store, w, at), w.attempt.requestId;
      && next == w.(phase := next.phase)
      && (Awaits(store, id) ==>
            && after.activations == store.activations + multiset{id} && after.sessions == store.sessions
            && after.requests == store.requests[id := store.requests[id].(status := Running)])
      && (!Awaits(store, id) ==> after == store)
      && (next.phase == Finished(w.sessionId) <==> Underway(after, id) && after.requests[id].delivering)
      && (next.phase == Confirming <==> Underway(after, id) && !after.requests[id].delivering)
      && (next.phase == Refused(NotActivatable) <==> !Underway(after, id))
  {
  }

  /** The last look finds the thread live, over, or gone. */
  lemma ConfirmExactly(store: Store, w: Worker, at: int)
    requires w.phase == Confirming
    ensures
      var (after, next), s := Step(store, w, at), w.sessionId;
      && after == store && next == w.(phase := next.phase)
      && (next.phase == Finished(s) <==> LiveIn(store, s))
      && (next.phase == Refused(SessionEnded) <==> OverIn(store, s))
      && (next.phase == Refused(SessionMissing) <==> s !in store.sessions)
  {
  }

  // ----- what a thread and a request hold afterwards

  /** What no write changes about a session. */
  predicate SameThread(s: Session, t: Session) {
    t.owner == s.owner && t.taskGoal == s.taskGoal && t.createdAt == s.createdAt
  }

  ghost predicate KeepsThreads(store: Store, later: Store) {
    forall s :: s in store.sessions ==> s in later.sessions && SameThread(store.sessions[s], later.sessions[s])
  }

  /** No write of an attempt says that a command is on its way. */
  ghost predicate DeliversNothing(store: Store, later: Store, r: string) {
    r in store.requests && r in later.requests && later.requests[r].delivering ==> store.requests[r].delivering
  }

  lemma WorkDeliversNothing(store: Store, w: Worker, at: int, r: string)
    ensures DeliversNothing(store, Do(store, WriteDue(w, at)), r)
  {
  }

  lemma DoKeepsThreads(store: Store, write: Write)
    ensures KeepsThreads(store, Do(store, write))
  {
  }

  lemma {:induction false} PathKeeps(path: Path, i: nat, n: nat, at: int, r: string)
    requires Trajectory(path, at) && i <= n
    ensures Remembers(path(i).0, path(n).0, r) && KeepsThreads(path(i).0, path(n).0)
    ensures DeliversNothing(path(i).0, path(n).0, r)
  {
    if i < n {
      PathKeeps(path, i, n - 1, at, r);
      assert path(Succ(n - 1)) ==
        if path(n - 1).1.phase.Over() then path(n - 1) else Step(path(n - 1).0, path(n - 1).1, at);
      if !path(n - 1).1.phase.Over() {
        DoRemembers(path(n - 1).0, WriteDue(path(n - 1).1, at), r, "");
        DoKeepsThreads(path(n - 1).0, WriteDue(path(n - 1).1, at));
        WorkDeliversNothing(path(n - 1).0, path(n - 1).1, at, r);
        RemembersOnward(path(i).0, path(n - 1).0, path(n).0, r);
      }
    }
  }

  /** The request of a call that passes its checks: the durable one, or a new one with the call's own
      fingerprint and round in the call's thread. */
  ghost predicate HasItsRequest(store: Store, a: Attempt, after: Store) {
    && a.requestId in after.requests
    && var r := after.requests[a.requestId];
       if a.requestId in store.requests then
         SameRequest(store.requests[a.requestId], r) && (r.delivering ==> store.requests[a.requestId].delivering)
       else
         && !r.delivering
         && r.sessionId == (if a.sessionId != None then a.sessionId.value else a.requestId)
         && r.fingerprint == a.fingerprint && r.roundId == a.roundId && (r.newSession <==> a.sessionId == None)
  }

  /** The thread of a call that opens one: its owner's, about its goal, created now. */
  ghost predicate HasItsThread(a: Attempt, at: int, after: Store) {
    && a.requestId in after.sessions
    && var s := after.sessions[a.requestId];
       s.owner == a.owner && s.taskGoal == a.taskGoal && s.createdAt == at
  }

  lemma RequestIsInserted(path: Path, i: nat, rounds: set<string>, at: int)
    requires Trajectory(path, at) && Opens(path(i).0, rounds, path(i).1) && path(i).1.phase == Checking
    ensures
      var w := path(i).1;
      w.attempt.requestId in path(i + 2).0.requests && path(i + 2).0.requests[w.attempt.requestId] == NewRequest(w)
  {
    Onwards(path, i, at);
    CheckGoesOn(path(i).0, rounds, path(i).1, at);
    Onwards(path, i + 1, at);
    InsertsItsRequest(path(i + 1).0, rounds, path(i + 1).1, at);
  }

  lemma InsertsItsRequest(store: Store, rounds: set<string>, w: Worker, at: int)
    requires Opens(store, rounds, w) && w.phase == Inserting
    ensures
      var after := Step(store, w, at).0;
      w.attempt.requestId in after.requests && after.requests[w.attempt.requestId] == NewRequest(w)
  {
  }

  lemma NewRequestIsHeld(path: Path, i: nat, rounds: set<string>, a: Attempt, at: int)
    requires Trajectory(path, at) && i <= 14 && Opens(path(i).0, rounds, path(i).1) && path(i).1.phase == Checking
    requires path(i).1.attempt == a && path(i).1.sessionId == a.sessionId.GetOr(a.requestId)
    requires a.requestId !in path(0).0.requests
    ensures HasItsRequest(path(0).0, a, path(16).0)
  {
    RequestIsInserted(path, i, rounds, at);
    PathKeeps(path, i + 2, 16, at, a.requestId);
  }

  lemma ThreadIsHeld(path: Path, rounds: set<string>, a: Attempt, at: int)
    requires Trajectory(path, at) && path(0).1 == Arrive(a) && AloneOk(path(0).0, rounds, Arrive(a))
    requires a.requestId !in path(0).0.requests && a.sessionId.None? && a.admissible
    requires a.requestId !in path(0).0.sessions
    ensures HasItsThread(a, at, path(16).0)
  {
    EnterAlong(path, at);
    Onwards(path, 1, at);
    ThreadIsNew(path(1).0, path(1).1, at);
    PathKeeps(path, 2, 16, at, "");
  }

  lemma ThreadIsNew(store: Store, w: Worker, at: int)
    requires w.phase == CreatingSession && w.sessionId !in store.sessions
    ensures
      var after := Step(store, w, at).0;
      && w.sessionId in after.sessions && after.sessions[w.sessionId].owner == w.attempt.owner
      && after.sessions[w.sessionId].taskGoal == w.attempt.taskGoal && after.sessions[w.sessionId].createdAt == at
      && after.sessions[w.sessionId].status == Live
  {
  }

  /** A call that passes its checks leaves its request in its thread; every other thread and request is
      remembered; and a thread that it opens is its own. */
  lemma PassedCallLeaves(store: Store, rounds: set<string>, a: Attempt, at: int, r: string)
    requires StoreOk(store, rounds) && MarkedOnce(store) && a.roundId !in rounds && PassesChecks(store, a)
    ensures
      var after := Partly(store, Arrive(a), 16, at).0;
      && HasItsRequest(store, a, after) && Remembers(store, after, r) && KeepsThreads(store, after)
      && (a.requestId !in store.requests && a.sessionId == None && a.requestId !in store.sessions ==>
            HasItsThread(a, at, after))
  {
    var path, handed := PathOf(store, Arrive(a), at), rounds + {a.roundId};
    PathIsTrajectory(store, Arrive(a), at);
    ArrivesOk(store, rounds, a);
    PathKeeps(path, 0, 16, at, r);
    PathLeaves(path, handed, a, at);
  }

  lemma PathLeaves(path: Path, rounds: set<string>, a: Attempt, at: int)
    requires Trajectory(path, at) && path(0).1 == Arrive(a) && AloneOk(path(0).0, rounds, Arrive(a))
    requires PassesChecks(path(0).0, a)
    ensures HasItsRequest(path(0).0, a, path(16).0)
    ensures a.requestId !in path(0).0.requests && a.sessionId == None && a.requestId !in path(0).0.sessions ==>
      HasItsThread(a, at, path(16).0)
  {
    if a.requestId in path(0).0.requests {
      PathKeeps(path, 0, 16, at, a.requestId);
    } else if a.sessionId.Some? {
      EnterAlong(path, at);
      ReplyEnters(path(0).0, rounds, a, at);
      NewRequestIsHeld(path, 1, rounds, a, at);
    } else {
      ThreadIsCreated(path, rounds, a, at);
      NewRequestIsHeld(path, 2, rounds, a, at);
      if a.requestId !in path(0).0.sessions {
        ThreadIsHeld(path, rounds, a, at);
      }
    }
  }
}

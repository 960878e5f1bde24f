/** An idempotency key reused for different work: what an attempt has written by the time it is
    refused because its fingerprint disagrees with the durable request's. */
module AdmissionConflict {
  import opened Wrappers
  import opened Admission
  import opened AdmissionSafety
  import AdmissionMarks

  predicate Conflicted(w: Worker) { w.phase == Refused(FingerprintConflict) }

  predicate Works(move: Move, w: nat) { move.Work? && move.worker == w }

  /** What an attempt writes in a run. */
  function Written(sys: System, moves: seq<Move>, w: nat): seq<Write>
    decreases |moves|
  {
    if moves == [] then []
    else
      var now :=
        if Works(moves[0], w) && w in sys.workers && Accepts(sys.store, WriteDue(sys.workers[w], moves[0].at))
        then [WriteDue(sys.workers[w], moves[0].at)] else [];
      now + Written(Apply(sys, moves[0]), moves[1..], w)
  }

  /** In the run the attempt comes to create its session and finds it missing. */
  predicate FindsNoSession(sys: System, moves: seq<Move>, w: nat)
    decreases |moves|
  {
    moves != [] &&
    ((Works(moves[0], w) && w in sys.workers && sys.workers[w].phase == CreatingSession
      && sys.workers[w].sessionId !in sys.store.sessions)
     || FindsNoSession(Apply(sys, moves[0]), moves[1..], w))
  }

  // ----- where a conflict can come from

  /** Only an attempt without its durable request can be refused for its fingerprint. */
  lemma NoConflictBehindTheRequest(after: Store, w: Worker)
    requires !BeforeRequest(w.phase) && !Conflicted(w)
    ensures !BeforeRequest(Onward(after, w).phase) && !Conflicted(Onward(after, w))
  {
    if Bound(w.phase) {
      BoundOnward(after, w);
      BoundIsNotConflict(after, w);
    }
  }

  lemma BoundIsNotConflict(after: Store, w: Worker)
    requires Bound(w.phase)
    ensures !Conflicted(Onward(after, w)) && !BeforeRequest(Onward(after, w).phase)
  {
  }

  lemma {:induction false} NeverConflicts(sys: System, moves: seq<Move>, w: nat)
    requires Legal(sys, moves) && w in sys.workers
    requires !BeforeRequest(sys.workers[w].phase) && !Conflicted(sys.workers[w])
    ensures w in After(sys, moves).workers && !Conflicted(After(sys, moves).workers[w])
    decreases |moves|
  {
    if moves != [] {
      if Works(moves[0], w) {
        NoConflictBehindTheRequest(Apply(sys, moves[0]).store, sys.workers[w]);
      }
      NeverConflicts(Apply(sys, moves[0]), moves[1..], w);
    }
  }

  lemma {:induction false} OverWritesNothing(sys: System, moves: seq<Move>, w: nat)
    requires Legal(sys, moves) && w in sys.workers && sys.workers[w].phase.Over()
    ensures Written(sys, moves, w) == [] && !FindsNoSession(sys, moves, w)
    decreases |moves|
  {
    if moves != [] {
      OverWritesNothing(Apply(sys, moves[0]), moves[1..], w);
    }
  }

  // ----- what is written

  /** What may have been written by an attempt that is refused for its fingerprint. */
  ghost predicate AtMostItsSession(w: Worker, writes: seq<Write>) {
    || writes == []
    || (w.phase in {Entering, CreatingSession} && w.attempt.sessionId.None?
        && exists at: int :: writes == [CreateSession(w.attempt.requestId, NewSession(w.attempt, at))])
  }

  /** An attempt on its way to a new session goes under its request id. */
  predicate NamesItsSession(w: Worker) {
    && (w.phase == Entering ==> w == Arrive(w.attempt))
    && (w.phase == CreatingSession ==> w.attempt.sessionId.None? && w.sessionId == w.attempt.requestId)
  }

  lemma OneStepOfConflict(store: Store, w: Worker, at: int)
    requires BeforeRequest(w.phase) && NamesItsSession(w)
    ensures
      var (after, next) := Step(store, w, at);
      && NamesItsSession(next)
      && (Conflicted(next) ==> w.phase != CreatingSession && !Accepts(store, WriteDue(w, at)))
      && (BeforeRequest(next.phase) ==>
            && next.attempt == w.attempt
            && (w.phase == Entering || next.phase in {Checking, Inserting})
            && (Accepts(store, WriteDue(w, at)) <==> w.phase == CreatingSession && w.sessionId !in store.sessions))
  {
  }

  /** An attempt that ends up refused for its fingerprint has written nothing, or has created its
      session and nothing else; and it has written nothing exactly when it did not come to create
      its session while that was missing. */
  lemma {:induction false} ConflictWrites(sys: System, moves: seq<Move>, w: nat)
    requires Legal(sys, moves) && w in sys.workers
    requires BeforeRequest(sys.workers[w].phase) && NamesItsSession(sys.workers[w])
    requires w in After(sys, moves).workers && Conflicted(After(sys, moves).workers[w])
    ensures AtMostItsSession(sys.workers[w], Written(sys, moves, w))
    ensures Written(sys, moves, w) == [] <==> !FindsNoSession(sys, moves, w)
    decreases |moves|
  {
    if moves != [] {
      var next, rest := Apply(sys, moves[0]), moves[1..];
      if Works(moves[0], w) {
        OneStepOfConflict(sys.store, sys.workers[w], moves[0].at);
        if BeforeRequest(next.workers[w].phase) {
          ConflictWrites(next, rest, w);
          FirstWriteOfConflict(sys, moves, w);
        } else {
          if !Conflicted(next.workers[w]) {
            NeverConflicts(next, rest, w);
          }
          OverWritesNothing(next, rest, w);
        }
      } else {
        if moves[0].Stop? && moves[0].worker == w {
          NeverConflicts(next, rest, w);
        }
        ConflictWrites(next, rest, w);
      }
    }
  }

  lemma FirstWriteOfConflict(sys: System, moves: seq<Move>, w: nat)
    requires moves != [] && Works(moves[0], w) && w in sys.workers && NamesItsSession(sys.workers[w])
    requires BeforeRequest(sys.workers[w].phase)
    requires
      var next := Apply(sys, moves[0]);
      && BeforeRequest(next.workers[w].phase)
      && AtMostItsSession(next.workers[w], Written(next, moves[1..], w))
      && (Written(next, moves[1..], w) == [] <==> !FindsNoSession(next, moves[1..], w))
    ensures AtMostItsSession(sys.workers[w], Written(sys, moves, w))
    ensures Written(sys, moves, w) == [] <==> !FindsNoSession(sys, moves, w)
  {
    OneStepOfConflict(sys.store, sys.workers[w], moves[0].at);
  }

  /** An attempt that names its session writes nothing before it is refused for its fingerprint. */
  lemma ReplyWritesNothing(sys: System, moves: seq<Move>, w: nat)
    requires Legal(sys, moves) && w in sys.workers
    requires sys.workers[w] == Arrive(sys.workers[w].attempt) && sys.workers[w].attempt.sessionId.Some?
    requires w in After(sys, moves).workers && Conflicted(After(sys, moves).workers[w])
    ensures Written(sys, moves, w) == []
  {
    ConflictWrites(sys, moves, w);
  }

  /** An attempt that meets a durable request with another fingerprint never writes anything: it is
      refused by its first step or stops before it. */
  lemma {:induction false} OtherFingerprintIsRefused(sys: System, moves: seq<Move>, w: nat)
    requires Legal(sys, moves) && w in sys.workers && sys.workers[w] == Arrive(sys.workers[w].attempt)
    requires
      var a := sys.workers[w].attempt;
      && a.requestId in sys.store.requests
      && !FingerprintsAgree(a.fingerprint, sys.store.requests[a.requestId].fingerprint)
    ensures Written(sys, moves, w) == [] && w in After(sys, moves).workers
    ensures
      var end := After(sys, moves).workers[w];
      end == sys.workers[w] || Conflicted(end) || end.phase == Stopped
    decreases |moves|
  {
    if moves != [] {
      var next, rest := Apply(sys, moves[0]), moves[1..];
      if Works(moves[0], w) || (moves[0].Stop? && moves[0].worker == w) {
        OverWritesNothing(next, rest, w);
        OverStays(next, rest, w);
      } else {
        MoveRemembers(sys, moves[0], sys.workers[w].attempt.requestId);
        OtherFingerprintIsRefused(next, rest, w);
      }
    }
  }

  lemma {:induction false} OverStays(sys: System, moves: seq<Move>, w: nat)
    requires Legal(sys, moves) && w in sys.workers && sys.workers[w].phase.Over()
    ensures w in After(sys, moves).workers && After(sys, moves).workers[w] == sys.workers[w]
    decreases |moves|
  {
    if moves != [] {
      OverStays(Apply(sys, moves[0]), moves[1..], w);
    }
  }

  // ----- without overlaps nothing is written

  lemma PlacedIsNotRefused(store: Store, w: Worker, at: int)
    requires w.phase in {CreatingSession, Checking, Inserting} && AdmissionMarks.Placed(store, w)
    ensures !Conflicted(Step(store, w, at).1)
  {
    if w.phase == Inserting && Accepts(store, WriteDue(w, at)) {
      assert Do(store, WriteDue(w, at)).requests[w.attempt.requestId] == NewRequest(w);
    }
  }

  lemma {:induction false} NotRefusedBehindEntry(sys: System, moves: seq<Move>, w: nat)
    requires Inv(sys) && AdmissionMarks.Separate(sys) && Legal(sys, moves) && AdmissionMarks.AllScoped(sys, moves)
    requires w in sys.workers && sys.workers[w].phase != Entering && !Conflicted(sys.workers[w])
    ensures w in After(sys, moves).workers && !Conflicted(After(sys, moves).workers[w])
    decreases |moves|
  {
    if moves != [] {
      MoveKeeps(sys, moves[0]);
      AdmissionMarks.MoveKeepsSeparate(sys, moves[0]);
      if Works(moves[0], w) {
        NextIsNotRefused(sys.store, sys.workers[w], moves[0].at);
      }
      NotRefusedBehindEntry(Apply(sys, moves[0]), moves[1..], w);
    }
  }

  lemma NextIsNotRefused(store: Store, w: Worker, at: int)
    requires AdmissionMarks.Placed(store, w) && w.phase != Entering && !Conflicted(w)
    ensures !Conflicted(Step(store, w, at).1) && Step(store, w, at).1.phase != Entering
  {
    if BeforeRequest(w.phase) {
      PlacedIsNotRefused(store, w, at);
    } else {
      NoConflictBehindTheRequest(Do(store, WriteDue(w, at)), w);
    }
  }

  /** If attempts on one request or on one session never overlap, an attempt that is refused for its
      fingerprint has written nothing. */
  lemma {:induction false} ScopedConflictWritesNothing(sys: System, moves: seq<Move>, w: nat)
    requires Inv(sys) && AdmissionMarks.Separate(sys) && Legal(sys, moves) && AdmissionMarks.AllScoped(sys, moves)
    requires w in sys.workers && sys.workers[w].phase == Entering
    requires w in After(sys, moves).workers && Conflicted(After(sys, moves).workers[w])
    ensures Written(sys, moves, w) == []
    decreases |moves|
  {
    if moves != [] {
      var next, rest := Apply(sys, moves[0]), moves[1..];
      MoveKeeps(sys, moves[0]);
      AdmissionMarks.MoveKeepsSeparate(sys, moves[0]);
      if next.workers[w].phase == Entering {
        ScopedConflictWritesNothing(next, rest, w);
      } else if Conflicted(next.workers[w]) {
        OverWritesNothing(next, rest, w);
      } else {
        NotRefusedBehindEntry(next, rest, w);
      }
    }
  }

  // ----- an overlap in which the refused attempt's session stays

  /** One step more. */
  lemma Working(sys: System, moves: seq<Move>, there: System, w: nat, at: int) returns (more: seq<Move>, next: System)
    requires Legal(sys, moves) && After(sys, moves) == there && w in there.workers && !there.workers[w].phase.Over()
    ensures Legal(sys, more) && After(sys, more) == next && next == Apply(there, Work(w, at))
  {
    more, next := moves + [Work(w, at)], Apply(there, Work(w, at));
    OneMove(there, Work(w, at));
    AfterAppend(sys, moves, [Work(w, at)]);
  }

  lemma NobodyIsBusyIn(store: Store, s: string)
    requires SessionsExist(store) && s !in store.sessions
    ensures forall r :: !BusyFor(store, s, r)
  {
  }

  /** An attempt at a new thread under a request id that is not taken. */
  ghost predicate OpensThread(sys: System, a: Attempt) {
    && a.sessionId.None? && a.admissible
    && a.requestId !in sys.store.requests && a.requestId !in sys.store.sessions
  }

  /** Two attempts at one new thread overlap. The loser creates the session, under its own goal and
      owner, and is then refused; the winner's request goes on in the session it finds. */
  lemma LoserLeavesItsSession(sys: System, v: nat, w: nat, a: Attempt, b: Attempt, at: int) returns (moves: seq<Move>)
    requires Inv(sys) && v != w && a.requestId == b.requestId && OpensThread(sys, a) && OpensThread(sys, b)
    requires Allowed(sys, Begin(v, a)) && Allowed(Apply(sys, Begin(v, a)), Begin(w, b))
    requires !FingerprintsAgree(b.fingerprint, a.fingerprint)
    ensures Legal(sys, moves)
    ensures
      var end, id := After(sys, moves), a.requestId;
      && w in end.workers && Conflicted(end.workers[w])
      && id in end.store.requests && end.store.requests[id].sessionId == id
      && end.store.requests[id].fingerprint == a.fingerprint
      && id in end.store.sessions && end.store.sessions[id] == NewSession(b, at)
  {
    var begins := AdmissionMarks.BothBegin(sys, v, w, a, b);
    var more := LoserWrites(After(sys, begins), v, w, a, b, at);
    AfterAppend(sys, begins, more);
    moves := begins + more;
  }

  /** Where both have begun. */
  lemma LoserWrites(begun: System, v: nat, w: nat, a: Attempt, b: Attempt, at: int) returns (moves: seq<Move>)
    requires Inv(begun) && v != w && a.requestId == b.requestId && OpensThread(begun, a) && OpensThread(begun, b)
    requires v in begun.workers && begun.workers[v] == Arrive(a) && w in begun.workers && begun.workers[w] == Arrive(b)
    requires !FingerprintsAgree(b.fingerprint, a.fingerprint)
    ensures Legal(begun, moves) && Written(begun, moves, w) != []
    ensures
      var end, id := After(begun, moves), a.requestId;
      && w in end.workers && Conflicted(end.workers[w])
      && id in end.store.requests && end.store.requests[id].sessionId == id
      && end.store.requests[id].fingerprint == a.fingerprint
      && id in end.store.sessions && end.store.sessions[id] == NewSession(b, at)
  {
    NobodyIsBusyIn(begun.store, a.requestId);
    var looks, there := BothMeanToCreate(begun, [], begun, v, w, a, b);
    var create, created, rest, end := LoserCreates(there, v, w, a, b, at);
    rest, end := WinnerInserts(created, rest, end, v, a);
    rest, end := LoserIsRefused(created, rest, end, w, a, b);
    CreationIsWritten(there, w, at, create, rest);
    AfterAppend(begun, looks, [create] + rest);
    WrittenAppend(begun, looks, [create] + rest, w);
    moves := looks + ([create] + rest);
  }

  lemma CreationIsWritten(sys: System, w: nat, at: int, create: Move, rest: seq<Move>)
    requires create == Work(w, at) && w in sys.workers && sys.workers[w].phase == CreatingSession
    requires sys.workers[w].sessionId !in sys.store.sessions
    requires Legal(Apply(sys, create), rest)
    ensures Legal(sys, [create] + rest) && After(sys, [create] + rest) == After(Apply(sys, create), rest)
    ensures Written(sys, [create] + rest, w) != []
  {
    assert ([create] + rest)[1..] == rest;
  }

  lemma {:induction false} WrittenAppend(sys: System, moves: seq<Move>, more: seq<Move>, w: nat)
    ensures Written(sys, moves + more, w) == Written(sys, moves, w) + Written(After(sys, moves), more, w)
    decreases |moves|
  {
    if moves == [] {
      assert moves + more == more;
    } else {
      assert (moves + more)[1..] == moves[1..] + more;
      WrittenAppend(Apply(sys, moves[0]), moves[1..], more, w);
    }
  }

  /** There are such attempts, already with nothing stored. */
  lemma SomeOpenOneThread() returns (sys: System, a: Attempt, b: Attempt)
    ensures Inv(sys) && a.requestId == b.requestId && OpensThread(sys, a) && OpensThread(sys, b)
    ensures Allowed(sys, Begin(0, a)) && Allowed(Apply(sys, Begin(0, a)), Begin(1, b))
    ensures !FingerprintsAgree(b.fingerprint, a.fingerprint) && a.taskGoal != b.taskGoal
  {
    sys := System(Store(map[], map[], multiset{}), map[], {});
    a := Attempt("request", None, Some("one"), "first", None, None, "goal", None, false, Some("owner"), true);
    b := a.(fingerprint := Some("other"), roundId := "second", taskGoal := "another goal");
  }

  lemma LoserIsRefused(sys: System, moves: seq<Move>, there: System, w: nat, a: Attempt, b: Attempt)
    returns (more: seq<Move>, next: System)
    requires Legal(sys, moves) && After(sys, moves) == there && b.requestId == a.requestId && b.sessionId.None?
    requires w in there.workers && there.workers[w] == Arrive(b).(phase := Checking)
    requires a.sessionId.None? && a.requestId in there.store.requests
    requires there.store.requests[a.requestId] == NewRequest(Arrive(a))
    requires !FingerprintsAgree(b.fingerprint, a.fingerprint)
    ensures Legal(sys, more) && After(sys, more) == next && next.store == there.store
    ensures w in next.workers && Conflicted(next.workers[w])
  {
    more, next := Working(sys, moves, there, w, 0);
  }

  lemma BothMeanToCreate(
    sys: System, moves: seq<Move>, there: System, v: nat, w: nat, a: Attempt, b: Attempt
  )
    returns (more: seq<Move>, next: System)
    requires Legal(sys, moves) && After(sys, moves) == there && v != w
    requires v in there.workers && there.workers[v] == Arrive(a) && w in there.workers && there.workers[w] == Arrive(b)
    requires OpensThread(there, a) && OpensThread(there, b)
    ensures Legal(sys, more) && After(sys, more) == next && next.store == there.store
    ensures v in next.workers && next.workers[v] == Arrive(a).(phase := CreatingSession)
    ensures w in next.workers && next.workers[w] == Arrive(b).(phase := CreatingSession)
  {
    more, next := Working(sys, moves, there, v, 0);
    more, next := Working(sys, more, next, w, 0);
  }

  lemma LoserCreates(there: System, v: nat, w: nat, a: Attempt, b: Attempt, at: int)
    returns (create: Move, created: System, more: seq<Move>, next: System)
    requires v != w && a.requestId == b.requestId
    requires v in there.workers && there.workers[v] == Arrive(a).(phase := CreatingSession)
    requires w in there.workers && there.workers[w] == Arrive(b).(phase := CreatingSession)
    requires OpensThread(there, a) && OpensThread(there, b)
    ensures create == Work(w, at) && created == Apply(there, create)
    ensures Legal(created, more) && After(created, more) == next
    ensures next.store == there.store.(sessions := there.store.sessions[a.requestId := NewSession(b, at)])
    ensures v in next.workers && next.workers[v] == Arrive(a).(phase := Checking)
    ensures w in next.workers && next.workers[w] == Arrive(b).(phase := Checking)
  {
    create, created := Work(w, at), Apply(there, Work(w, at));
    more, next := Working(created, [], created, v, at);
  }

  lemma WinnerInserts(sys: System, moves: seq<Move>, there: System, v: nat, a: Attempt)
    returns (more: seq<Move>, next: System)
    requires Legal(sys, moves) && After(sys, moves) == there
    requires v in there.workers && there.workers[v] == Arrive(a).(phase := Checking)
    requires a.sessionId.None? && a.requestId !in there.store.requests
    requires !BusyFor(there.store, a.requestId, a.requestId)
    ensures Legal(sys, more) && After(sys, more) == next
    ensures next.store == there.store.(requests := there.store.requests[a.requestId := NewRequest(Arrive(a))])
    ensures forall w :: w in there.workers && w != v ==> w in next.workers && next.workers[w] == there.workers[w]
  {
    more, next := Working(sys, moves, there, v, 0);
    assert next.workers[v].phase == Inserting;
    more, next := Working(sys, more, next, v, 0);
  }

  // ----- when that can happen

  /** The attempt, beginning now, may come to be refused for its fingerprint and have written by then. */
  ghost predicate MayLeaveItsSession(sys: System, w: nat, b: Attempt) {
    exists moves :: LeavesItsSession(Apply(sys, Begin(w, b)), moves, w)
  }

  ghost predicate LeavesItsSession(sys: System, moves: seq<Move>, w: nat) {
    && Legal(sys, moves) && w in After(sys, moves).workers && Conflicted(After(sys, moves).workers[w])
    && Written(sys, moves, w) != []
  }

  /** Exactly when: an attempt can be refused for its fingerprint and leave a session behind if and
      only if it names no session, passes its checks, carries a fingerprint, and its request id is
      the id of no request and of no session. */
  lemma LeavesItsSessionExactly(sys: System, w: nat, b: Attempt)
    requires Inv(sys) && Allowed(sys, Begin(w, b))
    ensures MayLeaveItsSession(sys, w, b) <==> OpensThread(sys, b) && b.fingerprint.GetOr("") != ""
  {
    var begun := Apply(sys, Begin(w, b));
    MoveKeeps(sys, Begin(w, b));
    if MayLeaveItsSession(sys, w, b) {
      var moves :| LeavesItsSession(begun, moves, w);
      ConflictWrites(begun, moves, w);
      SessionIsMissing(begun, moves, w);
      ConflictNeedsAFingerprint(begun, moves, w);
    }
    if OpensThread(sys, b) && b.fingerprint.GetOr("") != "" {
      var moves := SomebodyTakesTheId(begun, w, b);
      assert LeavesItsSession(begun, moves, w);
    }
  }

  lemma StepTowardsSession(store: Store, w: Worker, at: int)
    requires NamesItsSession(w) && !w.phase.Over()
    ensures
      var a, next := w.attempt, Step(store, w, at).1;
      && next.attempt == a && NamesItsSession(next) && next.phase != Entering
      && (next.phase == CreatingSession ==>
            w.phase == Entering && a.sessionId.None? && a.admissible && a.requestId !in store.requests)
  {
    OnwardKeepsAttempt(Do(store, WriteDue(w, at)), w);
    if Bound(w.phase) {
      BoundOnward(Do(store, WriteDue(w, at)), w);
    }
  }

  /** An attempt that comes to create its session and finds it missing found its request missing. */
  lemma {:induction false} SessionIsMissing(sys: System, moves: seq<Move>, w: nat)
    requires Legal(sys, moves) && w in sys.workers && NamesItsSession(sys.workers[w]) && FindsNoSession(sys, moves, w)
    ensures
      var worker := sys.workers[w];
      && worker.phase in {Entering, CreatingSession} && worker.attempt.requestId !in sys.store.sessions
      && (worker.phase == Entering ==> OpensThread(sys, worker.attempt))
    decreases |moves|
  {
    if !(Works(moves[0], w) && sys.workers[w].phase == CreatingSession
         && sys.workers[w].sessionId !in sys.store.sessions) {
      var next, rest := Apply(sys, moves[0]), moves[1..];
      if moves[0].Stop? && moves[0].worker == w {
        OverWritesNothing(next, rest, w);
      } else {
        if Works(moves[0], w) {
          StepTowardsSession(sys.store, sys.workers[w], moves[0].at);
        }
        SessionIsMissing(next, rest, w);
        MoveRemembers(sys, moves[0], sys.workers[w].attempt.requestId);
        SessionsStay(sys, moves[0], sys.workers[w].attempt.requestId);
      }
    }
  }

  lemma SessionsStay(sys: System, move: Move, s: string)
    ensures s in sys.store.sessions ==> s in Apply(sys, move).store.sessions
  {
    match move {
      case Work(w, at) =>
        if w in sys.workers {
          DoRemembers(sys.store, WriteDue(sys.workers[w], at), "", s);
        }
      case Surround(write) => DoRemembers(sys.store, write, "", s);
      case _ =>
    }
  }

  lemma {:induction false} ConflictNeedsAFingerprint(sys: System, moves: seq<Move>, w: nat)
    requires Legal(sys, moves) && w in sys.workers && !Conflicted(sys.workers[w])
    requires w in After(sys, moves).workers && Conflicted(After(sys, moves).workers[w])
    ensures sys.workers[w].attempt.fingerprint.GetOr("") != ""
    decreases |moves|
  {
    var next, rest := Apply(sys, moves[0]), moves[1..];
    if Works(moves[0], w) {
      StepConflictNeedsAFingerprint(sys.store, sys.workers[w], moves[0].at);
    }
    if !Conflicted(next.workers[w]) {
      ConflictNeedsAFingerprint(next, rest, w);
    }
  }

  lemma StepConflictNeedsAFingerprint(store: Store, w: Worker, at: int)
    requires !Conflicted(w)
    ensures Step(store, w, at).1.attempt == w.attempt
    ensures Conflicted(Step(store, w, at).1) ==> w.attempt.fingerprint.GetOr("") != ""
  {
    var after := Do(store, WriteDue(w, at));
    OnwardKeepsAttempt(after, w);
    if !BeforeRequest(w.phase) {
      NoConflictBehindTheRequest(after, w);
    }
  }

  lemma {:induction false} AboveAll(taken: set<nat>) returns (n: nat)
    ensures forall k :: k in taken ==> k < n
  {
    n := 0;
    if taken != {} {
      var k :| k in taken;
      var m := AboveAll(taken - {k});
      n := if m > k then m else k + 1;
      assert forall j :: j in taken && j != k ==> j in taken - {k};
    }
  }

  lemma NewText(taken: set<string>) returns (text: string)
    ensures text !in taken
  {
    var lengths := set x | x in taken :: |x|;
    var n := AboveAll(lengths);
    text := seq(n, _ => 'x');
    assert text in taken ==> |text| in lengths;
  }

  /** Another attempt under the same id, with another fingerprint, begins and gets there first. */
  lemma SomebodyTakesTheId(begun: System, w: nat, b: Attempt) returns (moves: seq<Move>)
    requires Inv(begun) && w in begun.workers && begun.workers[w] == Arrive(b)
    requires OpensThread(begun, b) && b.fingerprint.GetOr("") != ""
    ensures LeavesItsSession(begun, moves, w)
  {
    var v := AboveAll(begun.workers.Keys);
    var roundId := NewText(begun.rounds);
    var a := b.(fingerprint := Some(b.fingerprint.value + "'"), roundId := roundId);
    var begin := Begin(v, a);
    MoveKeeps(begun, begin);
    var more := LoserWrites(Apply(begun, begin), v, w, a, b, 0);
    moves := [begin] + more;
    assert moves[1..] == more;
  }
}

/** Two attempts on one prepared request that overlap: when they can record its round twice. */
module AdmissionOverlap {
  import opened Wrappers
  import opened Admission
  import opened AdmissionSafety
  import opened AdmissionMarks

  /** The checks let the attempt go on with its prepared request, be it a message, a rerun, a handoff
      or the opening of a thread. */
  predicate Enters(store: Store, a: Attempt) {
    a.requestId in store.requests && Enter(store, Arrive(a)).phase == Messaging
  }

  predicate RoundOnRecord(store: Store, r: string)
    requires r in store.requests
  {
    && store.requests[r].sessionId in store.sessions
    && Has(store.sessions[store.requests[r].sessionId].events, RoundMark(store.requests[r].roundId))
  }

  // ----- the way to the round

  predicate BeforeRound(phase: Phase) {
    phase in {Messaging, SendingMessage, Continuing, Reopening, Deciding, RecordingDecision, FollowingDecision,
              StartingRound}
  }

  /** An attempt on its way to record a round that is not on record. */
  ghost predicate Waits(store: Store, w: Worker) {
    && BeforeRound(w.phase) && w.sessionId in store.sessions
    && !Has(store.sessions[w.sessionId].events, RoundMark(w.roundId))
  }

  /** Rounds are on record where they were. */
  ghost predicate SameRounds(store: Store, after: Store) {
    forall s, x :: s in store.sessions ==>
      s in after.sessions
      && (Has(after.sessions[s].events, RoundMark(x)) <==> Has(store.sessions[s].events, RoundMark(x)))
  }

  lemma SameRoundsWaits(store: Store, after: Store, w: Worker)
    requires SameRounds(store, after) && Waits(store, w)
    ensures Waits(after, w)
  {
  }

  lemma NoRoundRecorded(store: Store, w: Worker, at: int)
    requires BeforeRound(w.phase)
    ensures SameRounds(store, Do(store, WriteDue(w, at)))
  {
    forall s, x | s in store.sessions
      ensures s in Do(store, WriteDue(w, at)).sessions
      ensures Has(Do(store, WriteDue(w, at)).sessions[s].events, RoundMark(x)) <==>
        Has(store.sessions[s].events, RoundMark(x))
    {
      DoRemembers(store, WriteDue(w, at), "", s);
      WorkMarks(store, w, at, s, RoundMark(x));
    }
  }

  /** Before the round every step goes on towards it. */
  lemma OnwardsToRound(store: Store, w: Worker)
    requires Waits(store, w) && w.phase != StartingRound
    ensures
      var next := Onward(store, w);
      Waits(store, next) && next == w.(phase := next.phase) && Rank(next.phase) < Rank(w.phase)
  {
  }

  lemma {:induction false} ReachStartingRound(sys: System, moves: seq<Move>, there: System, w: nat)
    returns (more: seq<Move>, next: System)
    requires Legal(sys, moves) && After(sys, moves) == there && NobodyBegins(moves)
    requires w in there.workers && Waits(there.store, there.workers[w])
    ensures Legal(sys, more) && After(sys, more) == next && NobodyBegins(more) && SameRounds(there.store, next.store)
    ensures next.workers == there.workers[w := there.workers[w].(phase := StartingRound)]
    ensures Waits(next.store, next.workers[w])
    decreases Rank(there.workers[w].phase)
  {
    more, next := moves, there;
    var worker := there.workers[w];
    if worker.phase == StartingRound {
      assert there.workers == there.workers[w := worker.(phase := StartingRound)];
    } else {
      var one, nearer := WorkTowardsRound(sys, moves, there, w);
      more, next := ReachStartingRound(sys, one, nearer, w);
      assert next.workers == there.workers[w := worker.(phase := StartingRound)];
    }
  }

  lemma WorkTowardsRound(sys: System, moves: seq<Move>, there: System, w: nat)
    returns (more: seq<Move>, next: System)
    requires Legal(sys, moves) && After(sys, moves) == there && NobodyBegins(moves)
    requires w in there.workers && Waits(there.store, there.workers[w]) && there.workers[w].phase != StartingRound
    ensures Legal(sys, more) && After(sys, more) == next && NobodyBegins(more) && SameRounds(there.store, next.store)
    ensures w in next.workers && next.workers[w] == there.workers[w].(phase := next.workers[w].phase)
    ensures next.workers == there.workers[w := next.workers[w]]
    ensures Waits(next.store, next.workers[w]) && Rank(next.workers[w].phase) < Rank(there.workers[w].phase)
  {
    var worker := there.workers[w];
    more, next := moves + [Work(w, 0)], Apply(there, Work(w, 0));
    OneMove(there, Work(w, 0));
    AfterAppend(sys, moves, [Work(w, 0)]);
    NoRoundRecorded(there.store, worker, 0);
    SameRoundsWaits(there.store, next.store, worker);
    OnwardsToRound(next.store, worker);
  }

  /** The look that finds the round missing. */
  lemma LookForRound(sys: System, moves: seq<Move>, there: System, w: nat) returns (more: seq<Move>, next: System)
    requires Legal(sys, moves) && After(sys, moves) == there && NobodyBegins(moves)
    requires w in there.workers && Waits(there.store, there.workers[w]) && there.workers[w].phase == StartingRound
    ensures Legal(sys, more) && After(sys, more) == next && NobodyBegins(more) && next.store == there.store
    ensures next.workers == there.workers[w := there.workers[w].(phase := RecordingRound)]
  {
    more, next := moves + [Work(w, 0)], Apply(there, Work(w, 0));
    OneMove(there, Work(w, 0));
    AfterAppend(sys, moves, [Work(w, 0)]);
  }

  /** The look on entry. */
  lemma EnterRequest(sys: System, moves: seq<Move>, there: System, w: nat) returns (more: seq<Move>, next: System)
    requires Legal(sys, moves) && After(sys, moves) == there && NobodyBegins(moves)
    requires w in there.workers && there.workers[w] == Arrive(there.workers[w].attempt)
    requires Enters(there.store, there.workers[w].attempt)
    ensures Legal(sys, more) && After(sys, more) == next && NobodyBegins(more) && next.store == there.store
    ensures next.workers == there.workers[w := Enter(there.store, there.workers[w])]
  {
    more, next := moves + [Work(w, 0)], Apply(there, Work(w, 0));
    OneMove(there, Work(w, 0));
    AfterAppend(sys, moves, [Work(w, 0)]);
  }

  lemma EnteredWaits(store: Store, a: Attempt)
    requires Enters(store, a) && !RoundOnRecord(store, a.requestId)
    ensures Waits(store, Enter(store, Arrive(a)))
    ensures
      var r, w := store.requests[a.requestId], Enter(store, Arrive(a));
      w.sessionId == r.sessionId && w.roundId == r.roundId
  {
  }

  /** Both find the round missing, whatever each of them records on the way. */
  lemma BothFindItMissing(sys: System, v: nat, w: nat) returns (moves: seq<Move>, there: System)
    requires v in sys.workers && w in sys.workers && v != w
    requires sys.workers[v] == Arrive(sys.workers[v].attempt) && sys.workers[w] == Arrive(sys.workers[w].attempt)
    requires sys.workers[v].attempt.requestId == sys.workers[w].attempt.requestId
    requires Enters(sys.store, sys.workers[v].attempt) && Enters(sys.store, sys.workers[w].attempt)
    requires !RoundOnRecord(sys.store, sys.workers[v].attempt.requestId)
    ensures Legal(sys, moves) && After(sys, moves) == there && NobodyBegins(moves)
    ensures v in there.workers && w in there.workers && Rivals(there.workers[v], there.workers[w])
    ensures
      var r := sys.store.requests[sys.workers[v].attempt.requestId];
      && there.workers[v].sessionId == r.sessionId && r.sessionId in there.store.sessions
      && Pending(there.workers[v]) == Some(RoundMark(r.roundId))
  {
    EnteredWaits(sys.store, sys.workers[v].attempt);
    EnteredWaits(sys.store, sys.workers[w].attempt);
    moves, there := EnterRequest(sys, [], sys, v);
    moves, there := EnterRequest(sys, moves, there, w);
    moves, there := BothReachIt(sys, moves, there, v, w);
  }

  lemma BothReachIt(sys: System, before: seq<Move>, here: System, v: nat, w: nat)
    returns (moves: seq<Move>, there: System)
    requires Legal(sys, before) && After(sys, before) == here && NobodyBegins(before)
    requires v in here.workers && w in here.workers && v != w
    requires Waits(here.store, here.workers[v]) && Waits(here.store, here.workers[w])
    ensures Legal(sys, moves) && After(sys, moves) == there && NobodyBegins(moves)
    ensures v in there.workers && there.workers[v] == here.workers[v].(phase := RecordingRound)
    ensures w in there.workers && there.workers[w] == here.workers[w].(phase := RecordingRound)
    ensures here.workers[v].sessionId in there.store.sessions
  {
    moves, there := ReachBeside(sys, before, here, v, w);
    moves, there := ReachBeside(sys, moves, there, w, v);
    moves, there := LookForRound(sys, moves, there, v);
    moves, there := LookForRound(sys, moves, there, w);
  }

  /** Others that wait go on waiting. */
  lemma ReachBeside(sys: System, before: seq<Move>, here: System, v: nat, w: nat)
    returns (moves: seq<Move>, there: System)
    requires Legal(sys, before) && After(sys, before) == here && NobodyBegins(before)
    requires v in here.workers && w in here.workers && v != w
    requires Waits(here.store, here.workers[v]) && Waits(here.store, here.workers[w])
    ensures Legal(sys, moves) && After(sys, moves) == there && NobodyBegins(moves)
    ensures v in there.workers && there.workers[v] == here.workers[v].(phase := StartingRound)
    ensures w in there.workers && there.workers[w] == here.workers[w]
    ensures Waits(there.store, there.workers[v]) && Waits(there.store, there.workers[w])
  {
    moves, there := ReachStartingRound(sys, before, here, v);
    SameRoundsWaits(here.store, there.store, here.workers[w]);
  }

  // ----- two attempts begin and overlap

  lemma RivalsAppend(sys: System, looks: seq<Move>, there: System, v: nat, w: nat) returns (moves: seq<Move>)
    requires Legal(sys, looks) && After(sys, looks) == there
    requires v in there.workers && w in there.workers && v != w && Rivals(there.workers[v], there.workers[w])
    requires there.workers[v].sessionId in there.store.sessions
    ensures Legal(sys, moves)
    ensures Twice(After(sys, moves).store, there.workers[v].sessionId, Pending(there.workers[v]).value)
  {
    var appends := RivalsRepeat(there, v, w, 0);
    AfterAppend(sys, looks, appends);
    moves := looks + appends;
  }

  /** Any two attempts that overlap on one prepared request can put its round on record twice, if both
      pass their checks and the round is not on record. Only one of them can activate it. */
  lemma OverlapRecordsRoundTwice(sys: System, v: nat, w: nat, a: Attempt, b: Attempt) returns (moves: seq<Move>)
    requires Inv(sys) && v != w && a.requestId == b.requestId
    requires Allowed(sys, Begin(v, a)) && Allowed(Apply(sys, Begin(v, a)), Begin(w, b))
    requires Enters(sys.store, a) && Enters(sys.store, b) && !RoundOnRecord(sys.store, a.requestId)
    ensures Legal(sys, moves)
    ensures
      var r := sys.store.requests[a.requestId];
      Twice(After(sys, moves).store, r.sessionId, RoundMark(r.roundId))
  {
    var begins := BothBegin(sys, v, w, a, b);
    var begun := After(sys, begins);
    var looks, there := BothFindItMissing(begun, v, w);
    var more := RivalsAppend(begun, looks, there, v, w);
    AfterAppend(sys, begins, more);
    moves := begins + more;
  }

  /** There are such attempts. */
  lemma SomeAttemptsOverlap() returns (sys: System, a: Attempt, b: Attempt)
    ensures Inv(sys) && a.requestId == b.requestId
    ensures Allowed(sys, Begin(0, a)) && Allowed(Apply(sys, Begin(0, a)), Begin(1, b))
    ensures Enters(sys.store, a) && Enters(sys.store, b) && !RoundOnRecord(sys.store, a.requestId)
  {
    var store := OnePreparedRequest();
    sys := System(store, map[], {"round"});
    a := Attempt("request", None, None, "first", None, None, "goal", None, false, Some("owner"), true);
    b := a.(roundId := "second");
    EntersExactly(store, {"round"}, a);
    EntersExactly(store, {"round"}, b);
  }

  lemma OnePreparedRequest() returns (store: Store)
    ensures StoreOk(store, {"round"}) && store.requests.Keys == {"request"} && !RoundOnRecord(store, "request")
    ensures store.requests["request"] == RunRequest("thread", None, "round", true, Prepared, false)
    ensures "thread" in store.sessions && store.sessions["thread"].owner == Some("owner")
  {
    var thread := Session(Some("owner"), "goal", 0, Live, [Event(SessionCreated, 0), Event(StatusChanged, 0)]);
    forall mark
      ensures Times(thread.events, mark) == 0
    {
      NewIsUnmarked(thread, mark);
    }
    var request := RunRequest("thread", None, "round", true, Prepared, false);
    store := Store(map["request" := request], map["thread" := thread], multiset{});
  }

  // ----- and when they cannot

  /** An attempt that will never come to record anything: it is over or behind its round, or its round
      is on record, or its checks refuse it. */
  ghost predicate NeverPends(store: Store, w: Worker) {
    && w.attempt.requestId in store.requests
    && (|| w.phase.Over() || w.phase in {Activating, Claiming, Confirming} || w.phase.Ending?
        || (w.phase == Entering && (RoundOnRecord(store, w.attempt.requestId) || !Enters(store, w.attempt)))
        || (w.phase == Messaging && BoundOk(store, w) && RoundOnRecord(store, w.attempt.requestId)))
  }

  predicate Arrived(w: Worker) { w.phase == Entering ==> w == Arrive(w.attempt) }

  lemma OwnersStay(store: Store, write: Write, s: string)
    requires s in store.sessions
    ensures s in Do(store, write).sessions && Do(store, write).sessions[s].owner == store.sessions[s].owner
  {
  }

  lemma RoundsStay(store: Store, write: Write, r: string)
    requires r in store.requests && RoundOnRecord(store, r) && (write.CreateSession? ==> IsNew(write.session))
    ensures r in Do(store, write).requests && RoundOnRecord(Do(store, write), r)
  {
    var request := store.requests[r];
    DoRemembers(store, write, r, request.sessionId);
    DoRounds(store, write, request.sessionId, request.roundId);
  }

  /** What the checks of an attempt on a prepared request come down to. */
  lemma EntersExactly(store: Store, rounds: set<string>, a: Attempt)
    requires StoreOk(store, rounds) && a.requestId in store.requests
    ensures
      var r := store.requests[a.requestId];
      Enters(store, a) <==>
        && r.status == Prepared && FingerprintsAgree(a.fingerprint, r.fingerprint) && a.admissible && a.owner.Some?
        && store.sessions[r.sessionId].owner == a.owner
  {
    var r := store.requests[a.requestId];
    assert r.status == Prepared ==> !BusyFor(store, r.sessionId, a.requestId);
  }

  /** An attempt that the checks refuse now they refuse later. */
  lemma RefusedStaysRefused(store: Store, rounds: set<string>, write: Write, a: Attempt)
    requires StoreOk(store, rounds) && StoreOk(Do(store, write), rounds)
    requires a.requestId in store.requests && !Enters(store, a)
    ensures a.requestId in Do(store, write).requests && !Enters(Do(store, write), a)
  {
    DoRemembers(store, write, a.requestId, "");
    OwnersStay(store, write, store.requests[a.requestId].sessionId);
    EntersExactly(store, rounds, a);
    EntersExactly(Do(store, write), rounds, a);
  }

  lemma WriteKeepsNeverPends(store: Store, rounds: set<string>, write: Write, w: Worker)
    requires StoreOk(store, rounds) && StoreOk(Do(store, write), rounds) && NeverPends(store, w)
    requires write.CreateSession? ==> IsNew(write.session)
    ensures NeverPends(Do(store, write), w)
  {
    DoRemembers(store, write, w.attempt.requestId, "");
    if RoundOnRecord(store, w.attempt.requestId) {
      RoundsStay(store, write, w.attempt.requestId);
    } else if w.phase == Entering {
      RefusedStaysRefused(store, rounds, write, w.attempt);
    }
  }

  lemma EnteringNeverPends(after: Store, w: Worker)
    requires w.phase == Entering && w == Arrive(w.attempt) && NeverPends(after, w)
    ensures NeverPends(after, Enter(after, w)) && Enter(after, w).phase != Entering
  {
    assert Enter(after, w).phase == Messaging ==> Enters(after, w.attempt);
  }

  lemma FoundRoundNeverPends(after: Store, w: Worker)
    requires w.phase == Messaging && NeverPends(after, w)
    ensures Onward(after, w) == w.(phase := Activating)
  {
  }

  lemma BehindRoundNeverPends(after: Store, w: Worker)
    requires w.phase in {Activating, Claiming, Confirming} || w.phase.Ending?
    ensures
      var phase := Onward(after, w).phase;
      phase.Over() || phase in {Activating, Claiming, Confirming} || phase.Ending?
  {
  }

  /** Its own step, by the stores as the step leaves them. */
  lemma OnwardNeverPends(after: Store, w: Worker)
    requires NeverPends(after, w) && Arrived(w) && !w.phase.Over()
    ensures NeverPends(after, Onward(after, w)) && Arrived(Onward(after, w))
  {
    OnwardKeepsAttempt(after, w);
    match w.phase {
      case Entering => EnteringNeverPends(after, w);
      case Messaging => FoundRoundNeverPends(after, w);
      case _ => BehindRoundNeverPends(after, w);
    }
  }

  lemma MoveKeepsNeverPends(sys: System, move: Move, w: nat)
    requires Inv(sys) && Allowed(sys, move) && w in sys.workers
    requires NeverPends(sys.store, sys.workers[w]) && Arrived(sys.workers[w])
    ensures
      var next := Apply(sys, move);
      w in next.workers && NeverPends(next.store, next.workers[w]) && Arrived(next.workers[w])
  {
    MoveKeeps(sys, move);
    var next, worker := Apply(sys, move), sys.workers[w];
    match move {
      case Work(u, at) =>
        WorkKeepsNeverPends(sys, u, at, w);
      case Surround(write) =>
        MoreRoundsKeepStore(sys.store, sys.rounds, next.rounds);
        WriteKeepsNeverPends(sys.store, next.rounds, write, worker);
      case _ =>
    }
  }

  lemma WorkKeepsNeverPends(sys: System, u: nat, at: int, w: nat)
    requires Inv(sys) && Inv(Apply(sys, Work(u, at))) && Allowed(sys, Work(u, at)) && w in sys.workers
    requires NeverPends(sys.store, sys.workers[w]) && Arrived(sys.workers[w])
    ensures
      var next := Apply(sys, Work(u, at));
      w in next.workers && NeverPends(next.store, next.workers[w]) && Arrived(next.workers[w])
  {
    var write, worker, after := WriteDue(sys.workers[u], at), sys.workers[w], Apply(sys, Work(u, at)).store;
    StepWritesDue(sys.store, sys.workers[u], at);
    WriteKeepsNeverPends(sys.store, sys.rounds, write, worker);
    if u == w {
      OnwardNeverPends(after, worker);
    }
  }

  lemma StepWritesDue(store: Store, w: Worker, at: int)
    ensures Step(store, w, at).0 == Do(store, WriteDue(w, at))
    ensures WriteDue(w, at).CreateSession? ==> IsNew(WriteDue(w, at).session)
  {
  }

  /** Only the one other attempt is in progress, so there is nobody to rival. */
  ghost predicate OnlyOneMayPend(sys: System, v: nat, w: nat) {
    && v in sys.workers && w in sys.workers && NeverPends(sys.store, sys.workers[v]) && Arrived(sys.workers[v])
    && forall u :: u in sys.workers && u != v && u != w ==> sys.workers[u].phase.Over()
  }

  lemma OnlyOneHasNoRivals(sys: System, v: nat, w: nat)
    requires OnlyOneMayPend(sys, v, w)
    ensures NoRivals(sys)
  {
    assert Pending(sys.workers[v]).None?;
    assert forall u :: u in sys.workers && u != v && u != w ==> Pending(sys.workers[u]).None?;
  }

  lemma OthersStayOver(sys: System, move: Move, u: nat)
    requires u in sys.workers && sys.workers[u].phase.Over() && Allowed(sys, move)
    ensures u in Apply(sys, move).workers && Apply(sys, move).workers[u] == sys.workers[u]
  {
  }

  lemma NobodyJoins(sys: System, move: Move)
    requires Allowed(sys, move) && !move.Begin?
    ensures Apply(sys, move).workers.Keys == sys.workers.Keys
  {
  }

  lemma MoveKeepsOnlyOne(sys: System, move: Move, v: nat, w: nat)
    requires Inv(sys) && OnlyOneMayPend(sys, v, w) && Allowed(sys, move) && !move.Begin?
    ensures OnlyOneMayPend(Apply(sys, move), v, w)
  {
    var next := Apply(sys, move);
    MoveKeepsNeverPends(sys, move, v);
    NobodyJoins(sys, move);
    assert w in next.workers.Keys;
    forall u | u in next.workers && u != v && u != w
      ensures next.workers[u].phase.Over()
    {
      assert u in sys.workers.Keys;
      OthersStayOver(sys, move, u);
    }
  }

  lemma {:induction false} OnlyOneNeverRivals(sys: System, moves: seq<Move>, v: nat, w: nat)
    requires Inv(sys) && OnlyOneMayPend(sys, v, w) && NobodyBegins(moves) && Legal(sys, moves)
    ensures NoRivals(After(sys, moves))
    decreases |moves|
  {
    if moves == [] {
      OnlyOneHasNoRivals(sys, v, w);
    } else {
      MoveKeeps(sys, moves[0]);
      MoveKeepsOnlyOne(sys, moves[0], v, w);
      OnlyOneNeverRivals(Apply(sys, moves[0]), moves[1..], v, w);
    }
  }

  /** Exactly when: two attempts that arrive together at a prepared request, with nobody else in
      progress, never rival each other, however they go on, if and only if one of them does not pass
      its checks or the round is on record. */
  lemma TwoAttemptsNeverRivalExactly(sys: System, v: nat, w: nat)
    requires Inv(sys) && v in sys.workers && w in sys.workers && v != w
    requires sys.workers[v] == Arrive(sys.workers[v].attempt) && sys.workers[w] == Arrive(sys.workers[w].attempt)
    requires sys.workers[v].attempt.requestId == sys.workers[w].attempt.requestId
    requires sys.workers[v].attempt.requestId in sys.store.requests
    requires forall u :: u in sys.workers && u != v && u != w ==> sys.workers[u].phase.Over()
    ensures NeverRivals(sys) <==>
      || !Enters(sys.store, sys.workers[v].attempt) || !Enters(sys.store, sys.workers[w].attempt)
      || RoundOnRecord(sys.store, sys.workers[v].attempt.requestId)
  {
    if !Enters(sys.store, sys.workers[w].attempt) || RoundOnRecord(sys.store, sys.workers[v].attempt.requestId) {
      NeverRivalsBeside(sys, w, v);
    } else if !Enters(sys.store, sys.workers[v].attempt) {
      NeverRivalsBeside(sys, v, w);
    } else {
      var moves, there := BothFindItMissing(sys, v, w);
      assert !NoRivals(After(sys, moves));
    }
  }

  lemma NeverRivalsBeside(sys: System, v: nat, w: nat)
    requires Inv(sys) && OnlyOneMayPend(sys, v, w)
    ensures NeverRivals(sys)
  {
    forall moves | NobodyBegins(moves) && Legal(sys, moves)
      ensures NoRivals(After(sys, moves))
    {
      OnlyOneNeverRivals(sys, moves, v, w);
    }
  }
}

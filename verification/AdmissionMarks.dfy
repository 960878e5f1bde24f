/** Messages, decisions and rounds are recorded by a look at the log and a later append. Which
    overlaps of attempts can put one of them on record twice, and which cannot. */
module AdmissionMarks {
  import opened Wrappers
  import opened Admission
  import opened AdmissionSafety

  /** What an attempt has found missing and is about to record. */
  function Pending(w: Worker): Option<Mark> {
    match w.phase
    case SendingMessage => Some(MessageMark(MessageId(w.attempt)))
    case RecordingDecision => Some(DecisionMark(DecisionId(w.attempt.requestId)))
    case RecordingRound => Some(RoundMark(w.roundId))
    case _ => None
  }

  ghost predicate MarkedOnce(store: Store) {
    forall s, mark :: s in store.sessions ==> Times(store.sessions[s].events, mark) <= 1
  }

  ghost predicate PendingFresh(store: Store, w: Worker) {
    Pending(w).Some? && w.sessionId in store.sessions ==> !Has(store.sessions[w.sessionId].events, Pending(w).value)
  }

  /** Nothing is on record twice, and what an attempt found missing is still missing. */
  ghost predicate Tidy(sys: System) {
    MarkedOnce(sys.store) && forall w :: w in sys.workers ==> PendingFresh(sys.store, sys.workers[w])
  }

  /** Two attempts between their look and their append of the same thing. */
  predicate Rivals(v: Worker, w: Worker) {
    Pending(v).Some? && Pending(v) == Pending(w) && v.sessionId == w.sessionId
  }

  ghost predicate NoRivals(sys: System) {
    forall v, w :: v in sys.workers && w in sys.workers && v != w ==> !Rivals(sys.workers[v], sys.workers[w])
  }

  // ----- without rivals nothing is recorded twice

  /** An attempt records what it has pending in its session, and nothing else. */
  lemma RecordsWhatIsPending(w: Worker, at: int, s: string, mark: Mark)
    ensures (WriteDue(w, at).AppendEvent? && s == WriteDue(w, at).sessionId && Bears(WriteDue(w, at).event.body, mark))
      <==> (Pending(w) == Some(mark) && s == w.sessionId)
  {
  }

  lemma WorkMarks(store: Store, w: Worker, at: int, s: string, mark: Mark)
    requires s in Do(store, WriteDue(w, at)).sessions
    ensures
      var before := if s in store.sessions then Times(store.sessions[s].events, mark) else 0;
      Times(Do(store, WriteDue(w, at)).sessions[s].events, mark) ==
        before + if Pending(w) == Some(mark) && s == w.sessionId then 1 else 0
  {
    RecordsWhatIsPending(w, at, s, mark);
    DoMarks(store, WriteDue(w, at), s, mark);
  }

  lemma WorkMarksOnce(store: Store, w: Worker, at: int)
    requires MarkedOnce(store) && PendingFresh(store, w)
    ensures MarkedOnce(Do(store, WriteDue(w, at)))
  {
    forall s, mark | s in Do(store, WriteDue(w, at)).sessions
      ensures Times(Do(store, WriteDue(w, at)).sessions[s].events, mark) <= 1
    {
      WorkMarks(store, w, at, s, mark);
    }
  }

  /** What the next step will record was just found missing. */
  lemma NextIsFresh(store: Store, w: Worker, at: int)
    requires !w.phase.Over()
    ensures PendingFresh(Step(store, w, at).0, Step(store, w, at).1)
  {
    var after := Do(store, WriteDue(w, at));
    if LooksAtSession(w.phase) {
      if w.sessionId in after.sessions {
        LookedForIsMissing(after.sessions[w.sessionId], w);
      }
    } else {
      OthersPendNothing(after, w);
    }
  }

  lemma LookedForIsMissing(s: Session, w: Worker)
    requires LooksAtSession(w.phase)
    ensures
      var pending := Pending(w.(phase := LookAtSession(s, w)));
      pending.Some? ==> !Has(s.events, pending.value)
  {
  }

  lemma OthersPendNothing(after: Store, w: Worker)
    requires !w.phase.Over() && !LooksAtSession(w.phase)
    ensures Pending(Onward(after, w)) == None
  {
  }

  lemma WorkSparesPending(store: Store, w: Worker, v: Worker, at: int)
    requires PendingFresh(store, v) && !Rivals(v, w)
    ensures PendingFresh(Do(store, WriteDue(w, at)), v)
  {
    if Pending(v).Some? && v.sessionId in Do(store, WriteDue(w, at)).sessions {
      WorkMarks(store, w, at, v.sessionId, Pending(v).value);
    }
  }

  lemma SurroundMarks(sys: System, write: Write, s: string, mark: Mark)
    requires Surrounding(sys, write) && s in Do(sys.store, write).sessions
    ensures
      var before := if s in sys.store.sessions then Times(sys.store.sessions[s].events, mark) else 0;
      var after := Times(Do(sys.store, write).sessions[s].events, mark);
      && (after == before || (before == 0 && after == 1))
      && (forall w :: w in sys.workers && Pending(sys.workers[w]) == Some(mark) ==> after == before)
  {
    DoMarks(sys.store, write, s, mark);
    if write.AppendEvent? && s == write.sessionId && Bears(write.event.body, mark) {
      assert write.event.body.Decided? && mark == DecisionMark(write.event.body.decisionId);
      forall w | w in sys.workers
        ensures Pending(sys.workers[w]) != Some(mark)
      {
      }
    }
  }

  lemma SurroundTidies(sys: System, write: Write)
    requires Tidy(sys) && Surrounding(sys, write)
    ensures Tidy(Apply(sys, Surround(write)))
  {
    var after := Do(sys.store, write);
    forall s, mark | s in after.sessions
      ensures Times(after.sessions[s].events, mark) <= 1
    {
      SurroundMarks(sys, write, s, mark);
    }
    forall w | w in sys.workers
      ensures PendingFresh(after, sys.workers[w])
    {
      var worker := sys.workers[w];
      if Pending(worker).Some? && worker.sessionId in after.sessions {
        SurroundMarks(sys, write, worker.sessionId, Pending(worker).value);
        assert PendingFresh(sys.store, worker);
      }
    }
  }

  lemma WorkTidies(sys: System, w: nat, at: int)
    requires Tidy(sys) && NoRivals(sys) && Allowed(sys, Work(w, at))
    ensures Tidy(Apply(sys, Work(w, at)))
  {
    var worker := sys.workers[w];
    WorkMarksOnce(sys.store, worker, at);
    NextIsFresh(sys.store, worker, at);
    forall v | v in sys.workers && v != w
      ensures PendingFresh(Do(sys.store, WriteDue(worker, at)), sys.workers[v])
    {
      WorkSparesPending(sys.store, worker, sys.workers[v], at);
    }
  }

  lemma MoveTidies(sys: System, move: Move)
    requires Tidy(sys) && NoRivals(sys) && Allowed(sys, move)
    ensures Tidy(Apply(sys, move))
  {
    match move {
      case Work(w, at) => WorkTidies(sys, w, at);
      case Surround(write) => SurroundTidies(sys, write);
      case _ =>
    }
  }

  ghost predicate WithoutRivals(sys: System, moves: seq<Move>)
    decreases |moves|
  {
    NoRivals(sys) && (moves != [] ==> WithoutRivals(Apply(sys, moves[0]), moves[1..]))
  }

  /** A run that never has rivals records everything at most once. */
  lemma {:induction false} MarksStayOnce(sys: System, moves: seq<Move>)
    requires Tidy(sys) && Legal(sys, moves) && WithoutRivals(sys, moves)
    ensures Tidy(After(sys, moves))
    decreases |moves|
  {
    if moves != [] {
      MoveTidies(sys, moves[0]);
      MarksStayOnce(Apply(sys, moves[0]), moves[1..]);
    }
  }

  // ----- with rivals it can happen

  /** The thing is on record twice in the session. */
  ghost predicate Twice(store: Store, s: string, mark: Mark) {
    s in store.sessions && Times(store.sessions[s].events, mark) >= 2
  }

  /** Whatever state has rivals, their two appends put the same thing on record twice. */
  lemma RivalsRepeat(sys: System, v: nat, w: nat, at: int) returns (moves: seq<Move>)
    requires v in sys.workers && w in sys.workers && v != w && Rivals(sys.workers[v], sys.workers[w])
    requires sys.workers[v].sessionId in sys.store.sessions
    ensures moves == [Work(v, at), Work(w, at)] && Legal(sys, moves)
    ensures Twice(After(sys, moves).store, sys.workers[v].sessionId, Pending(sys.workers[v]).value)
  {
    var first, second := sys.workers[v], sys.workers[w];
    var s, mark := first.sessionId, Pending(first).value;
    var middle := Do(sys.store, WriteDue(first, at));
    DoRemembers(sys.store, WriteDue(first, at), "", s);
    DoRemembers(middle, WriteDue(second, at), "", s);
    WorkMarks(sys.store, first, at, s, mark);
    WorkMarks(middle, second, at, s, mark);
    moves := [Work(v, at), Work(w, at)];
    assert moves[1..] == [Work(w, at)];
    OneMove(Apply(sys, Work(v, at)), Work(w, at));
  }

  lemma RivalsHaveASession(sys: System, v: nat)
    requires Inv(sys) && v in sys.workers && Pending(sys.workers[v]).Some?
    ensures sys.workers[v].sessionId in sys.store.sessions
  {
    assert WorkerOk(sys.store, sys.rounds, sys.workers[v]);
  }

  /** The attempts in progress go on, in any interleaving with others' writes; no attempt begins. */
  predicate NobodyBegins(moves: seq<Move>) { forall i :: 0 <= i < |moves| ==> !moves[i].Begin? }

  ghost predicate OnceHoweverTheyGoOn(sys: System) {
    forall moves :: NobodyBegins(moves) && Legal(sys, moves) ==> MarkedOnce(After(sys, moves).store)
  }

  ghost predicate NeverRivals(sys: System) {
    forall moves :: NobodyBegins(moves) && Legal(sys, moves) ==> NoRivals(After(sys, moves))
  }

  lemma RivalsRepeatSoon(sys: System) returns (more: seq<Move>)
    requires Inv(sys) && !NoRivals(sys)
    ensures NobodyBegins(more) && Legal(sys, more) && !MarkedOnce(After(sys, more).store)
  {
    var v, w :| v in sys.workers && w in sys.workers && v != w && Rivals(sys.workers[v], sys.workers[w]);
    RivalsHaveASession(sys, v);
    more := RivalsRepeat(sys, v, w, 0);
  }

  lemma RivalsSomewhereRepeat(sys: System, moves: seq<Move>)
    requires Inv(sys) && NobodyBegins(moves) && Legal(sys, moves) && !NoRivals(After(sys, moves))
    ensures !OnceHoweverTheyGoOn(sys)
  {
    RunKeeps(sys, moves);
    var more := RivalsRepeatSoon(After(sys, moves));
    AfterAppend(sys, moves, more);
    assert NobodyBegins(moves + more);
  }

  /** Every continuation of the next state is one of this state. */
  lemma NeverRivalsOnward(sys: System, move: Move)
    requires NeverRivals(sys) && Allowed(sys, move) && !move.Begin?
    ensures NeverRivals(Apply(sys, move))
  {
    forall moves | NobodyBegins(moves) && Legal(Apply(sys, move), moves)
      ensures NoRivals(After(Apply(sys, move), moves))
    {
      OneMove(sys, move);
      AfterAppend(sys, [move], moves);
      assert NobodyBegins([move] + moves);
    }
  }

  lemma {:induction false} NeverMeansNowhere(sys: System, moves: seq<Move>)
    requires NeverRivals(sys) && NobodyBegins(moves) && Legal(sys, moves)
    ensures WithoutRivals(sys, moves)
    decreases |moves|
  {
    assert NoRivals(sys) by {
      assert NobodyBegins([]) && Legal(sys, []) && After(sys, []) == sys;
    }
    if moves != [] {
      NeverRivalsOnward(sys, moves[0]);
      NeverMeansNowhere(Apply(sys, moves[0]), moves[1..]);
    }
  }

  /** Exactly when: the attempts in progress record everything at most once, however they go on, if
      and only if, however they go on, no two of them come to be between their look and their append
      of the same thing. */
  lemma OnceExactlyWithoutRivals(sys: System)
    requires Inv(sys) && Tidy(sys)
    ensures OnceHoweverTheyGoOn(sys) <==> NeverRivals(sys)
  {
    if OnceHoweverTheyGoOn(sys) {
      forall moves | NobodyBegins(moves) && Legal(sys, moves)
        ensures NoRivals(After(sys, moves))
      {
        if !NoRivals(After(sys, moves)) {
          RivalsSomewhereRepeat(sys, moves);
        }
      }
    }
    if NeverRivals(sys) {
      forall moves | NobodyBegins(moves) && Legal(sys, moves)
        ensures MarkedOnce(After(sys, moves).store)
      {
        NeverMeansNowhere(sys, moves);
        MarksStayOnce(sys, moves);
      }
    }
  }

  // ----- a scope without overlaps

  /** The session an attempt works on, known once it has entered. */
  function Place(store: Store, w: Worker): string {
    if w.phase == Entering && w.attempt.requestId in store.requests
    then store.requests[w.attempt.requestId].sessionId
    else w.sessionId
  }

  /** An attempt that has not inserted its request yet is the only one who would. */
  ghost predicate Placed(store: Store, w: Worker) {
    w.phase in {CreatingSession, Checking, Inserting} ==> w.attempt.requestId !in store.requests
  }

  ghost predicate Apart(store: Store, v: Worker, w: Worker) {
    !v.phase.Over() && !w.phase.Over() ==>
      v.attempt.requestId != w.attempt.requestId && Place(store, v) != Place(store, w)
  }

  /** The attempts in progress are on different requests and on different sessions. */
  ghost predicate Separate(sys: System) {
    && (forall w :: w in sys.workers ==> Placed(sys.store, sys.workers[w]))
    && (forall v, w :: v in sys.workers && w in sys.workers && v != w ==>
          Apart(sys.store, sys.workers[v], sys.workers[w]))
  }

  /** The attempt is on no request and on no session of an attempt in progress. */
  ghost predicate ScopeFree(sys: System, a: Attempt) {
    forall w :: w in sys.workers ==> Apart(sys.store, Arrive(a), sys.workers[w])
  }

  /** Attempts begin only when their scope is free, and nobody else takes an attempt's request id. */
  ghost predicate Scoped(sys: System, move: Move) {
    && (move.Begin? ==> ScopeFree(sys, move.attempt))
    && (move.Surround? && move.write.InsertRequest? ==>
          forall w :: w in sys.workers && !sys.workers[w].phase.Over() ==>
            sys.workers[w].attempt.requestId != move.write.requestId)
  }

  ghost predicate AllScoped(sys: System, moves: seq<Move>)
    decreases |moves|
  {
    moves != [] ==> Scoped(sys, moves[0]) && AllScoped(Apply(sys, moves[0]), moves[1..])
  }

  lemma SeparateHaveNoRivals(sys: System)
    requires Separate(sys)
    ensures NoRivals(sys)
  {
    forall v, w | v in sys.workers && w in sys.workers && v != w
      ensures !Rivals(sys.workers[v], sys.workers[w])
    {
      assert Apart(sys.store, sys.workers[v], sys.workers[w]);
    }
  }

  /** A write that inserts no request of the attempt's own leaves it where it is. */
  lemma WriteKeepsPlace(store: Store, write: Write, w: Worker)
    requires Placed(store, w) && (write.InsertRequest? ==> write.requestId != w.attempt.requestId)
    ensures Placed(Do(store, write), w) && Place(Do(store, write), w) == Place(store, w)
  {
    DoRemembers(store, write, w.attempt.requestId, "");
  }

  lemma StepKeepsPlace(store: Store, rounds: set<string>, w: Worker, at: int)
    requires WorkerOk(store, rounds, w) && Placed(store, w) && !w.phase.Over()
    ensures
      var (after, next) := Step(store, w, at);
      Placed(after, next) && (!next.phase.Over() ==> Place(after, next) == Place(store, w))
  {
    match w.phase {
      case Entering => EnterKeepsPlace(store, w);
      case Inserting => InsertKeepsPlace(store, w, at);
      case _ => OtherStepsKeepPlace(store, w, at);
    }
  }

  lemma EnterKeepsPlace(store: Store, w: Worker)
    requires w.phase == Entering
    ensures
      var next := Enter(store, w);
      Placed(store, next) && (!next.phase.Over() ==> Place(store, next) == Place(store, w))
  {
  }

  lemma InsertKeepsPlace(store: Store, w: Worker, at: int)
    requires w.phase == Inserting && Placed(store, w)
    ensures
      var (after, next) := Step(store, w, at);
      Placed(after, next) && (!next.phase.Over() ==> Place(after, next) == Place(store, w))
  {
    var write := WriteDue(w, at);
    if Accepts(store, write) {
      assert Do(store, write).requests[w.attempt.requestId] == NewRequest(w);
    } else {
      assert Do(store, write) == store;
    }
  }

  lemma OtherStepsKeepPlace(store: Store, w: Worker, at: int)
    requires w.phase != Entering && w.phase != Inserting && Placed(store, w) && !w.phase.Over()
    ensures
      var (after, next) := Step(store, w, at);
      Placed(after, next) && (!next.phase.Over() ==> Place(after, next) == Place(store, w))
  {
    if Bound(w.phase) {
      BoundOnward(Do(store, WriteDue(w, at)), w);
    }
  }

  lemma WorkSparesPlace(store: Store, w: Worker, v: Worker, at: int)
    requires Placed(store, v) && Apart(store, v, w) && !w.phase.Over()
    ensures Placed(Do(store, WriteDue(w, at)), v)
    ensures !v.phase.Over() ==> Place(Do(store, WriteDue(w, at)), v) == Place(store, v)
  {
    if !v.phase.Over() {
      WriteKeepsPlace(store, WriteDue(w, at), v);
    }
  }

  lemma WorkKeepsSeparate(sys: System, w: nat, at: int)
    requires Inv(sys) && Separate(sys) && Allowed(sys, Work(w, at))
    ensures Separate(Apply(sys, Work(w, at)))
  {
    var before, next := sys.workers[w], Apply(sys, Work(w, at));
    StepKeepsPlace(sys.store, sys.rounds, before, at);
    OnwardKeepsAttempt(next.store, before);
    forall v | v in next.workers && v != w
      ensures Placed(next.store, next.workers[v])
      ensures !next.workers[v].phase.Over() ==> Place(next.store, next.workers[v]) == Place(sys.store, sys.workers[v])
    {
      WorkSparesPlace(sys.store, before, sys.workers[v], at);
    }
    SamePlacesSeparate(sys, next);
  }

  /** Attempts that stay where they are, or end, stay apart. */
  lemma SamePlacesSeparate(sys: System, next: System)
    requires Separate(sys) && next.workers.Keys == sys.workers.Keys
    requires forall v :: v in next.workers ==>
      && Placed(next.store, next.workers[v]) && next.workers[v].attempt == sys.workers[v].attempt
      && (!next.workers[v].phase.Over() ==>
            && !sys.workers[v].phase.Over()
            && Place(next.store, next.workers[v]) == Place(sys.store, sys.workers[v]))
    ensures Separate(next)
  {
    forall u, v | u in next.workers && v in next.workers && u != v
      ensures Apart(next.store, next.workers[u], next.workers[v])
    {
      assert Apart(sys.store, sys.workers[u], sys.workers[v]);
    }
  }

  lemma SurroundKeepsSeparate(sys: System, write: Write)
    requires Separate(sys) && Scoped(sys, Surround(write))
    ensures Separate(Apply(sys, Surround(write)))
  {
    var next := Apply(sys, Surround(write));
    forall v | v in next.workers
      ensures Placed(next.store, next.workers[v])
      ensures !next.workers[v].phase.Over() ==> Place(next.store, next.workers[v]) == Place(sys.store, sys.workers[v])
    {
      if !sys.workers[v].phase.Over() {
        WriteKeepsPlace(sys.store, write, sys.workers[v]);
      }
    }
    SamePlacesSeparate(sys, next);
  }

  lemma BeginKeepsSeparate(sys: System, w: nat, a: Attempt)
    requires Separate(sys) && Allowed(sys, Begin(w, a)) && ScopeFree(sys, a)
    ensures Separate(Apply(sys, Begin(w, a)))
  {
    var next := Apply(sys, Begin(w, a));
    forall v | v in sys.workers
      ensures Apart(sys.store, next.workers[v], next.workers[w]) && Apart(sys.store, next.workers[w], next.workers[v])
    {
      assert Apart(sys.store, Arrive(a), sys.workers[v]);
    }
  }

  lemma StopKeepsSeparate(sys: System, w: nat)
    requires Separate(sys) && Allowed(sys, Stop(w))
    ensures Separate(Apply(sys, Stop(w)))
  {
    SamePlacesSeparate(sys, Apply(sys, Stop(w)));
  }

  lemma MoveKeepsSeparate(sys: System, move: Move)
    requires Inv(sys) && Separate(sys) && Allowed(sys, move) && Scoped(sys, move)
    ensures Separate(Apply(sys, move))
  {
    match move {
      case Begin(w, a) => BeginKeepsSeparate(sys, w, a);
      case Work(w, at) => WorkKeepsSeparate(sys, w, at);
      case Stop(w) => StopKeepsSeparate(sys, w);
      case Surround(write) => SurroundKeepsSeparate(sys, write);
    }
  }

  /** If attempts on one request or on one session never overlap, no message, no decision and no
      round is ever on record twice. */
  lemma {:induction false} ScopedRunsRecordOnce(sys: System, moves: seq<Move>)
    requires Inv(sys) && Tidy(sys) && Separate(sys) && Legal(sys, moves) && AllScoped(sys, moves)
    ensures Tidy(After(sys, moves)) && Separate(After(sys, moves))
    decreases |moves|
  {
    if moves != [] {
      SeparateHaveNoRivals(sys);
      MoveTidies(sys, moves[0]);
      MoveKeeps(sys, moves[0]);
      MoveKeepsSeparate(sys, moves[0]);
      ScopedRunsRecordOnce(Apply(sys, moves[0]), moves[1..]);
    }
  }

  // ----- two attempts begin

  lemma BothBegin(sys: System, v: nat, w: nat, a: Attempt, b: Attempt) returns (begins: seq<Move>)
    requires Inv(sys) && v != w
    requires Allowed(sys, Begin(v, a)) && Allowed(Apply(sys, Begin(v, a)), Begin(w, b))
    ensures Legal(sys, begins) && Inv(After(sys, begins)) && After(sys, begins).store == sys.store
    ensures After(sys, begins).workers == sys.workers[v := Arrive(a)][w := Arrive(b)]
  {
    begins := [Begin(v, a), Begin(w, b)];
    assert begins[1..] == [Begin(w, b)];
    OneMove(Apply(sys, Begin(v, a)), Begin(w, b));
    RunKeeps(sys, begins);
  }
}

/** The backend that admits a round against its stores, alone in its dispatch scope.
    Models ServerDaemonNodeBackend._run_sync and its helpers in
    backend/relay/daemon_registry/node_backend.py. */
module AdmissionBackend {
  import opened Wrappers
  import opened Admission
  import opened AdmissionSafety
  import opened AdmissionMarks

  /** Finds the latest decision behind the latest user turn by keeping the best one so far. */
  method LatestDecisionKindAfterLatestUser(s: Session) returns (kind: Option<DecisionKind>)
    ensures kind == match LatestDecision(s, |s.events|)
                    case Some(i) => Some(s.events[i].body.kind)
                    case None => None
  {
    var user := LatestUserTurn(s, |s.events|);
    var latest: Option<Turn> := None;
    kind := None;
    for index := 0 to |s.events|
      invariant match LatestDecision(s, index)
                case Some(i) => latest == Some(Turn(s.events[i].at, i)) && kind == Some(s.events[i].body.kind)
                case None => latest.None? && kind.None?
    {
      var e := s.events[index];
      if !e.body.Decided? || !Later(e.at, index, user.at, user.index) {
        continue;
      }
      if latest.None? || Later(e.at, index, latest.value.at, latest.value.index) {
        latest, kind := Some(Turn(e.at, index)), Some(e.body.kind);
      }
    }
  }

  class ServerDaemonNodeBackend {
    var requests: map<string, RunRequest>
    var sessions: map<string, Session>
    var activations: multiset<string>

    function Stores(): Store
      reads this
    {
      Store(requests, sessions, activations)
    }

    constructor ()
      ensures Stores() == Store(map[], map[], multiset{})
    {
      requests, sessions, activations := map[], map[], multiset{};
    }

    /** One store transaction, or its rejection. */
    method Execute(write: Write)
      modifies this
      ensures Stores() == Do(old(Stores()), write)
    {
      if !Accepts(Stores(), write) {
        return;
      }
      match write {
        case CreateSession(s, session) =>
          sessions := sessions[s := session];
        case InsertRequest(r, request) =>
          requests := requests[r := request];
        case ChangeRequest(r, _, status, delivering) =>
          requests := requests[r := requests[r].(status := status, delivering := delivering)];
        case OverwriteRequest(r, status, delivering) =>
          requests := requests[r := requests[r].(status := status, delivering := delivering)];
        case ActivateRequest(r) =>
          requests := requests[r := requests[r].(status := Running)];
          activations := activations + multiset{r};
        case AppendEvent(s, event, status) =>
          var was := sessions[s];
          sessions := sessions[s := was.(status := status.GetOr(was.status), events := was.events + [event])];
      }
    }

    /** The look or the transaction an attempt is due, by its phase. */
    method Transact(w: Worker, at: int) returns (next: Worker)
      modifies this
      ensures (Stores(), next) == Step(old(Stores()), w, at)
    {
      Execute(WriteDue(w, at));
      next := Onward(Stores(), w);
    }

    /** The same if the attempt has come this far and no crash comes first. */
    method Reach(phase: Phase, w: Worker, done: nat, steps: nat, at: int, ghost path: Path)
      returns (next: Worker, now: nat)
      requires Trajectory(path, at) && done <= steps && (Stores(), w) == path(done)
      requires !phase.Over() && (done == steps || Rank(w.phase) <= Rank(phase))
      modifies this
      ensures done <= now <= steps && (Stores(), next) == path(now)
      ensures now == steps || Rank(next.phase) < Rank(phase)
    {
      next, now := w, done;
      if done < steps && Rank(w.phase) == Rank(phase) {
        StepLowersRank(Stores(), w, at);
        assert path(Succ(done)) == Step(path(done).0, path(done).1, at);
        next := Transact(w, at);
        now := done + 1;
      }
    }

    /** From the idempotency check to the durable request. */
    method AdmitRequest(arrived: Worker, done: nat, steps: nat, at: int, ghost path: Path)
      returns (w: Worker, now: nat)
      requires Trajectory(path, at) && done <= steps && (Stores(), arrived) == path(done)
      modifies this
      ensures done <= now <= steps && (Stores(), w) == path(now)
      ensures now == steps || Rank(w.phase) <= Rank(Messaging)
    {
      w, now := RunSessionId(arrived, done, steps, at, path);
      w, now := PrepareRunRequest(w, now, steps, at, path);
    }

    method RunSessionId(arrived: Worker, done: nat, steps: nat, at: int, ghost path: Path)
      returns (w: Worker, now: nat)
      requires Trajectory(path, at) && done <= steps && (Stores(), arrived) == path(done)
      modifies this
      ensures done <= now <= steps && (Stores(), w) == path(now)
      ensures now == steps || Rank(w.phase) <= Rank(Checking)
    {
      RanksBelowEntering(arrived.phase);
      w, now := Reach(Entering, arrived, done, steps, at, path);
      w, now := Reach(CreatingSession, w, now, steps, at, path);
    }

    method PrepareRunRequest(placed: Worker, done: nat, steps: nat, at: int, ghost path: Path)
      returns (w: Worker, now: nat)
      requires Trajectory(path, at) && done <= steps && (Stores(), placed) == path(done)
      requires done == steps || Rank(placed.phase) <= Rank(Checking)
      modifies this
      ensures done <= now <= steps && (Stores(), w) == path(now)
      ensures now == steps || Rank(w.phase) <= Rank(Messaging)
    {
      w, now := Reach(Checking, placed, done, steps, at, path);
      w, now := Reach(Inserting, w, now, steps, at, path);
    }

    /** From the durable request to the round on record: the message and the session it reopens, the
        decision and its status event, and the round. */
    method RecordRunIntent(prepared: Worker, done: nat, steps: nat, at: int, ghost path: Path)
      returns (w: Worker, now: nat)
      requires Trajectory(path, at) && done <= steps && (Stores(), prepared) == path(done)
      requires done == steps || Rank(prepared.phase) <= Rank(Messaging)
      modifies this
      ensures done <= now <= steps && (Stores(), w) == path(now)
      ensures now == steps || Rank(w.phase) <= Rank(Activating)
    {
      w, now := RecordMessage(prepared, done, steps, at, path);
      w, now := RecordDecision(w, now, steps, at, path);
      w, now := RecordRound(w, now, steps, at, path);
    }

    method RecordMessage(prepared: Worker, done: nat, steps: nat, at: int, ghost path: Path)
      returns (w: Worker, now: nat)
      requires Trajectory(path, at) && done <= steps && (Stores(), prepared) == path(done)
      requires done == steps || Rank(prepared.phase) <= Rank(Messaging)
      modifies this
      ensures done <= now <= steps && (Stores(), w) == path(now)
      ensures now == steps || Rank(w.phase) <= Rank(Deciding)
    {
      w, now := Reach(Messaging, prepared, done, steps, at, path);
      w, now := Reach(SendingMessage, w, now, steps, at, path);
      w, now := ContinueSession(w, now, steps, at, path);
    }

    method ContinueSession(sent: Worker, done: nat, steps: nat, at: int, ghost path: Path)
      returns (w: Worker, now: nat)
      requires Trajectory(path, at) && done <= steps && (Stores(), sent) == path(done)
      requires done == steps || Rank(sent.phase) <= Rank(Continuing)
      modifies this
      ensures done <= now <= steps && (Stores(), w) == path(now)
      ensures now == steps || Rank(w.phase) <= Rank(Deciding)
    {
      w, now := Reach(Continuing, sent, done, steps, at, path);
      w, now := Reach(Reopening, w, now, steps, at, path);
    }

    method RecordDecision(messaged: Worker, done: nat, steps: nat, at: int, ghost path: Path)
      returns (w: Worker, now: nat)
      requires Trajectory(path, at) && done <= steps && (Stores(), messaged) == path(done)
      requires done == steps || Rank(messaged.phase) <= Rank(Deciding)
      modifies this
      ensures done <= now <= steps && (Stores(), w) == path(now)
      ensures now == steps || Rank(w.phase) <= Rank(StartingRound)
    {
      w, now := Reach(Deciding, messaged, done, steps, at, path);
      w, now := Reach(RecordingDecision, w, now, steps, at, path);
      w, now := Reach(FollowingDecision, w, now, steps, at, path);
    }

    method RecordRound(decided: Worker, done: nat, steps: nat, at: int, ghost path: Path)
      returns (w: Worker, now: nat)
      requires Trajectory(path, at) && done <= steps && (Stores(), decided) == path(done)
      requires done == steps || Rank(decided.phase) <= Rank(StartingRound)
      modifies this
      ensures done <= now <= steps && (Stores(), w) == path(now)
      ensures now == steps || Rank(w.phase) <= Rank(Activating)
    {
      w, now := Reach(StartingRound, decided, done, steps, at, path);
      w, now := Reach(RecordingRound, w, now, steps, at, path);
    }

    /** From the round on record to the answer. */
    method ActivateRunRequest(recorded: Worker, done: nat, steps: nat, at: int, ghost path: Path)
      returns (w: Worker, now: nat)
      requires Trajectory(path, at) && done <= steps && (Stores(), recorded) == path(done)
      requires done == steps || Rank(recorded.phase) <= Rank(Activating)
      modifies this
      ensures done <= now <= steps && (Stores(), w) == path(now)
      ensures now == steps || w.phase.Over()
    {
      w, now := Reach(Activating, recorded, done, steps, at, path);
      w, now := Reach(Claiming, w, now, steps, at, path);
      w, now := Reach(Confirming, w, now, steps, at, path);
    }

    /** One call, stopped by a crash after a number of steps: exactly the first steps of the attempt,
        which leave the stores consistent and record nothing twice. */
    method RunSync(a: Attempt, steps: nat, at: int, ghost rounds: set<string>) returns (w: Worker)
      requires StoreOk(Stores(), rounds) && MarkedOnce(Stores()) && a.roundId !in rounds
      modifies this
      ensures (Stores(), w) == Partly(old(Stores()), Arrive(a), steps, at)
      ensures StoreOk(Stores(), rounds + {a.roundId}) && MarkedOnce(Stores())
    {
      PartlyKeeps(Stores(), rounds, a, steps, at);
      ghost var path := PathOf(Stores(), Arrive(a), at);
      PathIsTrajectory(Stores(), Arrive(a), at);
      var done := 0;
      w := Arrive(a);
      w, done := AdmitRequest(w, done, steps, at, path);
      w, done := RecordRunIntent(w, done, steps, at, path);
      w, done := ActivateRunRequest(w, done, steps, at, path);
      OverEndsThePath(old(Stores()), Arrive(a), done, steps, at);
    }
  }

  // ----- the path of one attempt

  /** Where an attempt stands after so many steps. */
  type Path = nat -> (Store, Worker)

  function Succ(n: nat): nat { n + 1 }

  ghost predicate Trajectory(path: Path, at: int) {
    forall n: nat {:trigger path(Succ(n))} ::
      path(Succ(n)) == if path(n).1.phase.Over() then path(n) else Step(path(n).0, path(n).1, at)
  }

  function PathOf(store: Store, w: Worker, at: int): Path {
    (n: nat) => Partly(store, w, n, at)
  }

  lemma {:induction false} IterateOneMore<T>(step: T -> T, here: T, n: nat)
    ensures Iterate(step, here, n + 1) == step(Iterate(step, here, n))
  {
    if n > 0 {
      IterateOneMore(step, step(here), n - 1);
    }
  }

  lemma PartlyOneMore(store: Store, w: Worker, n: nat, at: int)
    ensures
      var (here, worker) := Partly(store, w, n, at);
      Partly(store, w, n + 1, at) == if worker.phase.Over() then (here, worker) else Step(here, worker, at)
  {
    IterateOneMore(StepAt(at), (store, w), n);
  }

  lemma PathIsTrajectory(store: Store, w: Worker, at: int)
    ensures Trajectory(PathOf(store, w, at), at)
  {
    forall n: nat
      ensures
        var (here, worker) := Partly(store, w, n, at);
        Partly(store, w, n + 1, at) == if worker.phase.Over() then (here, worker) else Step(here, worker, at)
    {
      PartlyOneMore(store, w, n, at);
    }
  }

  lemma {:induction false} OverEndsThePath(store: Store, w: Worker, n: nat, steps: nat, at: int)
    requires n <= steps && (n == steps || Partly(store, w, n, at).1.phase.Over())
    ensures Partly(store, w, steps, at) == Partly(store, w, n, at)
    decreases steps
  {
    if n < steps {
      OverEndsThePath(store, w, n, steps - 1, at);
      PartlyOneMore(store, w, steps - 1, at);
    }
  }

  lemma RanksBelowEntering(phase: Phase)
    ensures Rank(phase) <= Rank(Entering)
  {
  }

  /** An attempt alone with consistent stores. */
  ghost predicate AloneOk(store: Store, rounds: set<string>, w: Worker) {
    StoreOk(store, rounds) && MarkedOnce(store) && WorkerOk(store, rounds, w) && PendingFresh(store, w)
  }

  lemma StepKeepsAlone(store: Store, rounds: set<string>, w: Worker, at: int)
    requires AloneOk(store, rounds, w) && !w.phase.Over()
    ensures AloneOk(Step(store, w, at).0, rounds, Step(store, w, at).1)
  {
    StepKeeps(store, rounds, w, at);
    WorkMarksOnce(store, w, at);
    NextIsFresh(store, w, at);
  }

  /** What holds where an attempt starts, and is kept by each step, holds wherever it stops. */
  lemma {:induction false} AlongThePath(path: Path, n: nat, holds: ((Store, Worker)) -> bool)
    requires holds(path(0)) && forall k: nat :: holds(path(k)) ==> holds(path(k + 1))
    ensures holds(path(n))
  {
    if n > 0 {
      AlongThePath(path, n - 1, holds);
      assert holds(path(n - 1 + 1));
    }
  }

  lemma OneMoreKeepsAlone(here: (Store, Worker), next: (Store, Worker), rounds: set<string>, at: int)
    requires AloneOk(here.0, rounds, here.1) && next == if here.1.phase.Over() then here else Step(here.0, here.1, at)
    ensures AloneOk(next.0, rounds, next.1)
  {
    if !here.1.phase.Over() {
      StepKeepsAlone(here.0, rounds, here.1, at);
    }
  }

  lemma ArrivesOk(store: Store, rounds: set<string>, a: Attempt)
    requires StoreOk(store, rounds) && MarkedOnce(store) && a.roundId !in rounds
    ensures AloneOk(store, rounds + {a.roundId}, Arrive(a))
  {
    MoreRoundsKeepStore(store, rounds, rounds + {a.roundId});
    NewRoundIsUnused(store, rounds, a.roundId);
  }

  /** However early a crash stops an attempt, the stores stay consistent. */
  lemma PartlyKeeps(store: Store, rounds: set<string>, a: Attempt, steps: nat, at: int)
    requires StoreOk(store, rounds) && MarkedOnce(store) && a.roundId !in rounds
    ensures
      var (after, w) := Partly(store, Arrive(a), steps, at);
      AloneOk(after, rounds + {a.roundId}, w)
  {
    ArrivesOk(store, rounds, a);
    var path, handed := PathOf(store, Arrive(a), at), rounds + {a.roundId};
    ghost var holds := (here: (Store, Worker)) => AloneOk(here.0, handed, here.1);
    PathIsTrajectory(store, Arrive(a), at);
    forall k: nat | holds(path(k))
      ensures holds(path(k + 1))
    {
      OneMoreKeepsAlone(path(k), path(Succ(k)), handed, at);
    }
    AlongThePath(path, steps, holds);
  }
}

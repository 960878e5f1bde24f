/** What an attempt that nobody interrupts puts on record: messages, decisions and rounds, counted
    over the whole attempt. */
module AdmissionRecords {
  import opened Wrappers
  import opened Admission
  import opened AdmissionSafety
  import opened AdmissionMarks
  import opened AdmissionBackend
  import opened AdmissionRecovery

  /** The events of a session that may not be there. */
  function EventsIn(store: Store, s: string): seq<Event> {
    if s in store.sessions then store.sessions[s].events else []
  }

  /** What the attempt is to record, said of the call and the stores it finds: nothing if its round is
      on record; else its message if it brings one, its decision if that is a rerun or an aimed
      handoff, each unless it is on record already, and its round. */
  ghost predicate Adds(store: Store, a: Attempt, mark: Mark) {
    && !Started(store, a)
    && match mark
       case MessageMark(id) =>
         && MessageDue(store, a) && !Has(EventsIn(store, Target(store, a)), mark)
         && id == (if a.userMessageId.GetOr("") != "" then a.userMessageId.value else "evt_" + a.requestId)
       case DecisionMark(id) =>
         && a.decision in {Some(Rerun), Some(Handoff)} && !Has(EventsIn(store, Target(store, a)), mark)
         && id == "dec_" + a.requestId
       case RoundMark(id) =>
         id == if a.requestId in store.requests then store.requests[a.requestId].roundId else a.roundId
  }

  // ----- what an attempt has still ahead of it

  predicate RoundAhead(w: Worker, events: seq<Event>, mark: Mark) {
    mark == RoundMark(w.roundId) && !Has(events, mark)
  }

  predicate DecisionAhead(w: Worker, events: seq<Event>, mark: Mark) {
    mark == DecisionMark(DecisionId(w.attempt.requestId)) && DecisionDue(w.attempt, events)
  }

  predicate MessageAhead(w: Worker, events: seq<Event>, mark: Mark) {
    mark == MessageMark(MessageId(w.attempt)) && SendsMessage(w) && !Has(events, mark)
  }

  /** By its phase, behind its entry. */
  predicate Ahead(w: Worker, events: seq<Event>, mark: Mark) {
    match w.phase
    case CreatingSession | Checking | Inserting | Messaging =>
      && !Has(events, RoundMark(w.roundId))
      && (MessageAhead(w, events, mark) || DecisionAhead(w, events, mark) || RoundAhead(w, events, mark))
    case SendingMessage =>
      || mark == MessageMark(MessageId(w.attempt))
      || DecisionAhead(w, events, mark) || RoundAhead(w, events, mark)
    case Continuing | Reopening | Deciding => DecisionAhead(w, events, mark) || RoundAhead(w, events, mark)
    case RecordingDecision => mark == DecisionMark(DecisionId(w.attempt.requestId)) || RoundAhead(w, events, mark)
    case FollowingDecision | StartingRound => RoundAhead(w, events, mark)
    case RecordingRound => mark == RoundMark(w.roundId)
    case _ => false
  }

  function Count(b: bool): nat { if b then 1 else 0 }

  /** A step records what it has pending and leaves the rest ahead, for the events as it leaves them. */
  ghost predicate LeavesTheRest(w: Worker, next: Worker, before: seq<Event>, events: seq<Event>, mark: Mark) {
    Count(Ahead(w, before, mark)) == Count(Pending(w) == Some(mark)) + Count(Ahead(next, events, mark))
  }

  lemma LookLeavesTheRest(s: Session, w: Worker, mark: Mark)
    requires LooksAtSession(w.phase) && w.phase != Confirming
    ensures LeavesTheRest(w, w.(phase := LookAtSession(s, w)), s.events, s.events, mark)
  {
  }

  lemma AppendLeavesTheRest(w: Worker, next: Worker, before: seq<Event>, events: seq<Event>, mark: Mark)
    requires Appends(w.phase) && next == w.(phase := next.phase)
    requires next.phase == match w.phase
                           case SendingMessage => Continuing
                           case Reopening => Deciding
                           case RecordingDecision => FollowingDecision
                           case FollowingDecision => StartingRound
                           case _ => Activating
    requires forall m :: Times(events, m) == Times(before, m) + Count(Pending(w) == Some(m))
    ensures LeavesTheRest(w, next, before, events, mark)
  {
  }

  // ----- where an attempt stands on its own

  /** Alone, behind its entry, and with the way to its durable request free. */
  ghost predicate Standing(store: Store, rounds: set<string>, w: Worker) {
    && AloneOk(store, rounds, w) && w.phase != Entering
    && (BeforeRequest(w.phase) ==> Opens(store, rounds, w))
    && (!w.phase.Over() && w.phase != CreatingSession ==> w.sessionId in store.sessions)
  }

  lemma BoundStands(store: Store, rounds: set<string>, w: Worker)
    requires AloneOk(store, rounds, w) && !BeforeRequest(w.phase)
    ensures Standing(store, rounds, w)
  {
  }

  lemma StepStands(store: Store, rounds: set<string>, w: Worker, at: int)
    requires Standing(store, rounds, w) && !w.phase.Over()
    ensures Standing(Step(store, w, at).0, rounds, Step(store, w, at).1)
    ensures Step(store, w, at).1.sessionId == w.sessionId && Step(store, w, at).1.attempt == w.attempt
  {
    StepKeepsAlone(store, rounds, w, at);
    match w.phase {
      case CreatingSession => CreationGoesOn(store, rounds, w, at);
      case Checking => CheckGoesOn(store, rounds, w, at);
      case Inserting => InsertingAdopts(store, rounds, w, at);
      case _ =>
        BoundOnward(Do(store, WriteDue(w, at)), w);
        BoundStands(Step(store, w, at).0, rounds, Step(store, w, at).1);
    }
  }

  lemma EventsBehind(store: Store, w: Worker, at: int, s: string, mark: Mark)
    ensures Times(EventsIn(Do(store, WriteDue(w, at)), s), mark) ==
      Times(EventsIn(store, s), mark) + Count(Pending(w) == Some(mark) && s == w.sessionId && s in store.sessions)
  {
    DoRemembers(store, WriteDue(w, at), "", s);
    if s in Do(store, WriteDue(w, at)).sessions {
      WorkMarks(store, w, at, s, mark);
    }
  }

  /** Up to the message everything is still ahead. */
  lemma OpeningKeepsAhead(w: Worker, next: Worker, before: seq<Event>, events: seq<Event>, mark: Mark)
    requires BeforeRequest(w.phase) && w.phase != Entering && next.phase in {Checking, Inserting, Messaging}
    requires next == w.(phase := next.phase) && forall m :: Times(events, m) == Times(before, m)
    ensures LeavesTheRest(w, next, before, events, mark)
  {
  }

  lemma OpeningGoesOn(store: Store, rounds: set<string>, w: Worker, at: int)
    requires Standing(store, rounds, w) && BeforeRequest(w.phase)
    ensures
      var next := Step(store, w, at).1;
      next.phase in {Checking, Inserting, Messaging} && next == w.(phase := next.phase)
  {
    match w.phase {
      case CreatingSession => CreationGoesOn(store, rounds, w, at);
      case Checking => CheckGoesOn(store, rounds, w, at);
      case Inserting => InsertingAdopts(store, rounds, w, at);
    }
  }

  lemma OpeningLeavesTheRest(store: Store, rounds: set<string>, w: Worker, at: int, mark: Mark)
    requires Standing(store, rounds, w) && BeforeRequest(w.phase)
    ensures LeavesTheRest(w, Step(store, w, at).1, EventsIn(store, w.sessionId),
                          EventsIn(Step(store, w, at).0, w.sessionId), mark)
  {
    OpeningGoesOn(store, rounds, w, at);
    forall m
      ensures Times(EventsIn(Step(store, w, at).0, w.sessionId), m) == Times(EventsIn(store, w.sessionId), m)
    {
      EventsBehind(store, w, at, w.sessionId, m);
    }
    OpeningKeepsAhead(w, Step(store, w, at).1, EventsIn(store, w.sessionId),
                      EventsIn(Step(store, w, at).0, w.sessionId), mark);
  }

  lemma BoundLeavesTheRest(store: Store, rounds: set<string>, w: Worker, at: int, mark: Mark)
    requires Standing(store, rounds, w) && Bound(w.phase)
    ensures LeavesTheRest(w, Step(store, w, at).1, EventsIn(store, w.sessionId),
                          EventsIn(Step(store, w, at).0, w.sessionId), mark)
  {
    if LooksAtSession(w.phase) && w.phase != Confirming {
      LookStays(store, w, at);
      LookLeavesTheRest(store.sessions[w.sessionId], w, mark);
    } else if Appends(w.phase) {
      AppendStays(store, w, at);
      forall m
        ensures Times(EventsIn(Step(store, w, at).0, w.sessionId), m) ==
          Times(EventsIn(store, w.sessionId), m) + Count(Pending(w) == Some(m))
      {
        EventsBehind(store, w, at, w.sessionId, m);
      }
      AppendLeavesTheRest(w, Step(store, w, at).1, EventsIn(store, w.sessionId),
                          EventsIn(Step(store, w, at).0, w.sessionId), mark);
    } else {
      EndingLeavesNothing(Do(store, WriteDue(w, at)), w, EventsIn(store, w.sessionId), mark);
    }
  }

  /** Behind the round nothing is ahead. */
  lemma EndingLeavesNothing(after: Store, w: Worker, events: seq<Event>, mark: Mark)
    requires w.phase in {Activating, Claiming, Confirming} || w.phase.Ending?
    ensures Pending(w).None? && !Ahead(w, events, mark) && !Ahead(Onward(after, w), EventsIn(after, w.sessionId), mark)
  {
  }

  // ----- along the path

  /** What is on record in a session and what is ahead of it, together. */
  function Account(here: (Store, Worker), s: string, mark: Mark): nat {
    Times(EventsIn(here.0, s), mark)
    + Count(s == here.1.sessionId && Ahead(here.1, EventsIn(here.0, s), mark))
  }

  lemma StepKeepsAccount(store: Store, rounds: set<string>, w: Worker, at: int, s: string, mark: Mark)
    requires Standing(store, rounds, w) && !w.phase.Over()
    ensures Account(Step(store, w, at), s, mark) == Account((store, w), s, mark)
  {
    StepStands(store, rounds, w, at);
    EventsBehind(store, w, at, s, mark);
    if s == w.sessionId {
      if BeforeRequest(w.phase) {
        OpeningLeavesTheRest(store, rounds, w, at, mark);
      } else {
        BoundLeavesTheRest(store, rounds, w, at, mark);
      }
    }
  }

  lemma {:induction false} PathKeepsAccount(path: Path, n: nat, rounds: set<string>, at: int, s: string, mark: Mark)
    requires Trajectory(path, at) && n >= 1 && Standing(path(1).0, rounds, path(1).1)
    ensures Standing(path(n).0, rounds, path(n).1) && Account(path(n), s, mark) == Account(path(1), s, mark)
  {
    if n > 1 {
      PathKeepsAccount(path, n - 1, rounds, at, s, mark);
      assert path(Succ(n - 1)) ==
        if path(n - 1).1.phase.Over() then path(n - 1) else Step(path(n - 1).0, path(n - 1).1, at);
      if !path(n - 1).1.phase.Over() {
        StepStands(path(n - 1).0, rounds, path(n - 1).1, at);
        StepKeepsAccount(path(n - 1).0, rounds, path(n - 1).1, at, s, mark);
      }
    }
  }

  // ----- on entry

  lemma EnteredStands(store: Store, rounds: set<string>, a: Attempt, at: int)
    requires AloneOk(store, rounds, Arrive(a)) && PassesChecks(store, a)
    ensures
      var w := Enter(store, Arrive(a));
      && Standing(store, rounds, w) && w.attempt == a && w.sessionId == Target(store, a)
      && w.phase in {CreatingSession, Checking, Messaging}
      && w.roundId == (if a.requestId in store.requests then store.requests[a.requestId].roundId else a.roundId)
      && (SendsMessage(w) <==> MessageDue(store, a))
  {
    EnterKeepsAlone(store, rounds, a, at);
    if a.requestId in store.requests {
      EntersKnown(store, rounds, a);
    } else if a.sessionId.Some? {
      ReplyEnters(store, rounds, a, at);
    }
  }

  lemma RoundIsMissing(store: Store, rounds: set<string>, a: Attempt)
    requires AloneOk(store, rounds, Arrive(a))
    ensures
      var x := if a.requestId in store.requests then store.requests[a.requestId].roundId else a.roundId;
      Has(EventsIn(store, Target(store, a)), RoundMark(x)) <==> Started(store, a)
  {
    assert Unused(store, a.roundId);
  }

  lemma EnteredAhead(store: Store, rounds: set<string>, a: Attempt, at: int, mark: Mark)
    requires AloneOk(store, rounds, Arrive(a)) && PassesChecks(store, a)
    ensures Ahead(Enter(store, Arrive(a)), EventsIn(store, Target(store, a)), mark) <==> Adds(store, a, mark)
  {
    EnteredStands(store, rounds, a, at);
    RoundIsMissing(store, rounds, a);
  }

  /** Exactly what an uninterrupted attempt records, in every session: what it is to add, once, and
      nothing else. */
  lemma RecordsExactly(store: Store, rounds: set<string>, a: Attempt, at: int, s: string, mark: Mark)
    requires StoreOk(store, rounds) && MarkedOnce(store) && a.roundId !in rounds && PassesChecks(store, a)
    ensures
      var after := Partly(store, Arrive(a), 16, at).0;
      Times(EventsIn(after, s), mark) ==
        Times(EventsIn(store, s), mark) + if s == Target(store, a) && Adds(store, a, mark) then 1 else 0
  {
    var path, handed := PathOf(store, Arrive(a), at), rounds + {a.roundId};
    ArrivesOk(store, rounds, a);
    PathIsTrajectory(store, Arrive(a), at);
    PathRecords(path, handed, a, at, s, mark);
  }

  lemma PathRecords(path: Path, rounds: set<string>, a: Attempt, at: int, s: string, mark: Mark)
    requires Trajectory(path, at) && path(0).1 == Arrive(a) && AloneOk(path(0).0, rounds, Arrive(a))
    requires PassesChecks(path(0).0, a)
    ensures Times(EventsIn(path(16).0, s), mark) ==
      Times(EventsIn(path(0).0, s), mark) + if s == Target(path(0).0, a) && Adds(path(0).0, a, mark) then 1 else 0
  {
    EnterAlong(path, at);
    EnteredStands(path(0).0, rounds, a, at);
    EnteredAhead(path(0).0, rounds, a, at, mark);
    PathKeepsAccount(path, 16, rounds, at, s, mark);
    PathEndsWell(path, rounds, a, at);
    NothingAheadOfOver(path(16).1, EventsIn(path(16).0, s), mark);
  }

  lemma NothingAheadOfOver(w: Worker, events: seq<Event>, mark: Mark)
    requires w.phase.Over()
    ensures !Ahead(w, events, mark)
  {
  }

  // ----- what the user said

  /** A reply without a decision whose text is new, or behind which no rerun or handoff stands, is on
      record once, and is admitted even if its thread was over. */
  lemma NewTextIsRecorded(store: Store, rounds: set<string>, a: Attempt, at: int)
    requires StoreOk(store, rounds) && MarkedOnce(store) && a.roundId !in rounds && PassesChecks(store, a)
    requires a.sessionId.Some? && a.decision.None? && !Started(store, a)
    requires Target(store, a) in store.sessions
    requires
      var session := store.sessions[Target(store, a)];
      || a.taskGoal != session.taskGoal
      || forall i :: 0 <= i < |session.events| && Follows(session, i) ==>
           session.events[i].body.kind !in {Rerun, Handoff, AimlessHandoff}
    ensures
      var (after, w) := Partly(store, Arrive(a), 16, at);
      var id := if a.userMessageId.GetOr("") != "" then a.userMessageId.value else "evt_" + a.requestId;
      && Times(EventsIn(after, Target(store, a)), MessageMark(id)) == 1
      && w.phase == Finished(Target(store, a)) && Admitted(after, a.requestId)
  {
    UninterruptedAttempt(store, rounds, a, at);
  }

  /** A rerun, a handoff, and the same text behind such a decision add no user message anywhere. */
  lemma RedispatchAddsNoMessage(store: Store, rounds: set<string>, a: Attempt, at: int, s: string, id: string)
    requires StoreOk(store, rounds) && MarkedOnce(store) && a.roundId !in rounds && PassesChecks(store, a)
    requires Target(store, a) in store.sessions
    requires
      var session := store.sessions[Target(store, a)];
      || a.decision in {Some(Rerun), Some(Handoff), Some(AimlessHandoff)}
      || (a.decision.None? && a.taskGoal == session.taskGoal && RerunStands(session))
    ensures
      var after := Partly(store, Arrive(a), 16, at).0;
      Times(EventsIn(after, s), MessageMark(id)) == Times(EventsIn(store, s), MessageMark(id))
  {
    RecordsExactly(store, rounds, a, at, s, MessageMark(id));
  }
}

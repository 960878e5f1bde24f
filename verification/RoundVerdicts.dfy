/** What becomes of each delivery, said of whole logs from the roster and the outcomes alone.
    Specifies backend/relay/collaboration/policy.py and the driver in
    backend/relay/daemon_registry/registry.py independently of the policy's own decisions. */
module RoundVerdicts {
  import opened Wrappers
  import opened Policy
  import opened Round

  /** A coordinator in action mode, which is also the absent mode, leads the roster. */
  predicate ActingLead(roster: seq<Assignment>) {
    roster != [] && roster[0].coordinator && (roster[0].mode == None || roster[0].mode == Some(Action))
  }

  predicate TakesPart(a: Assignment) { a.mode == Some(Ask) || a.mode == Some(Review) }

  /** Nobody repairs for the lead itself, without a task, or without a coordinator that acts. */
  predicate RepairLeft(hasTask: bool, roster: seq<Assignment>, index: nat, used: nat, maxRepairs: nat) {
    hasTask && ActingLead(roster) && index > 0 && used < maxRepairs
  }

  /** The verdict on an outcome, once this many repairs are used. */
  function VerdictOn(
    hasTask: bool, roster: seq<Assignment>, index: nat, outcome: Outcome, used: nat, maxRepairs: nat
  ): Verdict
    requires index < |roster|
  {
    match outcome
    case Succeeded(_) => Settled
    case RunCancelled(_) => RoundCancelled
    case ExitFailed(_) =>
      if RepairLeft(hasTask, roster, index, used, maxRepairs) then SentBack
      else if TakesPart(roster[index]) then SettledByFailure
      else RoundFailed
    case RunFailed(_) =>
      if !RepairLeft(hasTask, roster, index, used, maxRepairs) && TakesPart(roster[index]) then SettledByFailure
      else RoundFailed
  }

  /** A delivery is sent back exactly when its run exits with an error, the round has a task, an acting
      coordinator leads it, the delivery is not to the lead itself, and a repair is left. */
  lemma SentBackExactly(r: Round, outcome: Outcome, maxRepairs: nat)
    requires r.Deliverable()
    ensures Deliver(r, outcome, maxRepairs).1 == SentBack <==>
      && outcome.ExitFailed? && r.hasTask && r.currentIndex > 0 && r.state.RepairCount() < maxRepairs
      && r.roster[0].coordinator && r.roster[0].EffectiveMode() == Action
    ensures Deliver(r, outcome, maxRepairs).1 ==
      VerdictOn(r.hasTask, r.roster, r.currentIndex, outcome, r.state.RepairCount(), maxRepairs)
  {
  }

  /** What the coordinator is handed back: the failed index to resume at, and the failure in a note. */
  lemma SendBackHandsOver(r: Round, outcome: Outcome, maxRepairs: nat)
    requires r.Deliverable() && Deliver(r, outcome, maxRepairs).1 == SentBack
    ensures
      var after := Deliver(r, outcome, maxRepairs).0;
      && after.currentIndex == 0 && after.status == Running
      && after.state.resumeIndex == Some(r.currentIndex)
      && after.state.repairNote ==
         Some(outcome.detail + " You are the coordinator on this task: fix the cause so "
              + r.roster[r.currentIndex].Label() + " can run again. Do not repeat its work yourself.")
      && after.state == r.state.(repairs := Some(r.state.RepairCount() + 1), resumeIndex := after.state.resumeIndex,
                                 repairNote := after.state.repairNote)
  {
  }

  /** The name a failure is recorded under is the first that is not empty. */
  lemma LabelIsFirstName(a: Assignment) returns (i: nat)
    ensures
      var names := [a.displayName.GetOr(""), a.executorKind.GetOr(""), a.agent.GetOr(""), "Agent"];
      i < 4 && a.Label() == names[i] != "" && forall j :: 0 <= j < i ==> names[j] == ""
  {
    i := if a.displayName.GetOr("") != "" then 0 else if a.executorKind.GetOr("") != "" then 1
         else if a.agent.GetOr("") != "" then 2 else 3;
  }

  // ----- whole rounds

  ghost predicate ExplainedAt(hasTask: bool, roster: seq<Assignment>, log: seq<Delivery>, k: nat, maxRepairs: nat)
    requires k < |log|
  {
    && log[k].index < |roster|
    && log[k].verdict == VerdictOn(hasTask, roster, log[k].index, log[k].outcome, SendBacks(log[..k]), maxRepairs)
  }

  /** How the round stands follows from its last verdict. */
  ghost predicate StandsAs(run: Run) {
    && (run.log == [] ==> run.round.status == Running)
    && (run.log != [] ==>
          var last := run.log[|run.log| - 1].verdict;
          && (run.round.status == Failed <==> last == RoundFailed)
          && (run.round.status == Cancelled <==> last == RoundCancelled)
          && (run.round.status == Completed ==> last in {Settled, SettledByFailure}))
    && (run.round.status == Running && run.log != [] ==> run.round.currentIndex < |run.round.roster|)
  }

  predicate Ends(verdict: Verdict) { verdict == RoundFailed || verdict == RoundCancelled }

  /** Nothing is delivered behind a verdict that ends the round. */
  ghost predicate EndsLast(log: seq<Delivery>) {
    forall k :: 0 <= k < |log| - 1 ==> !Ends(log[k].verdict)
  }

  ghost predicate Explained(run: Run, rest: map<string, string>, maxRepairs: nat) {
    && (forall k :: 0 <= k < |run.log| ==>
          ExplainedAt(run.round.hasTask, run.round.roster, run.log, k, maxRepairs))
    && EndsLast(run.log) && StandsAs(run) && run.round.state.rest == rest
  }

  lemma DeliverStands(r: Round, outcome: Outcome, maxRepairs: nat)
    requires r.Deliverable()
    ensures
      var (after, verdict) := Deliver(r, outcome, maxRepairs);
      && (after.status == Failed <==> verdict == RoundFailed)
      && (after.status == Cancelled <==> verdict == RoundCancelled)
      && (after.status == Completed ==> verdict in {Settled, SettledByFailure})
      && (after.status == Running ==> after.currentIndex < |after.roster|)
      && after.state.rest == r.state.rest
  {
  }

  lemma StepStandsAs(run: Run, outcome: Outcome, maxRepairs: nat)
    requires run.round.Deliverable()
    ensures StandsAs(Step(run, outcome, maxRepairs))
    ensures Step(run, outcome, maxRepairs).round.state.rest == run.round.state.rest
  {
    DeliverStands(run.round, outcome, maxRepairs);
  }

  lemma StepKeepsExplained(run: Run, outcome: Outcome, rest: map<string, string>, maxRepairs: nat)
    requires run.round.Deliverable() && Valid(run, maxRepairs) && Explained(run, rest, maxRepairs)
    ensures Explained(Step(run, outcome, maxRepairs), rest, maxRepairs)
  {
    var next := Step(run, outcome, maxRepairs);
    StepKeepsValid(run, outcome, maxRepairs);
    StepStandsAs(run, outcome, maxRepairs);
    forall k | 0 <= k < |next.log|
      ensures ExplainedAt(next.round.hasTask, next.round.roster, next.log, k, maxRepairs)
    {
      if k < |run.log| {
        assert ExplainedAt(run.round.hasTask, run.round.roster, run.log, k, maxRepairs);
        assert next.log[..k] == run.log[..k];
      } else {
        SentBackExactly(run.round, outcome, maxRepairs);
        assert next.log[..k] == run.log;
      }
    }
  }

  lemma {:induction false} DriveKeepsExplained(
    run: Run, outcomes: seq<Outcome>, rest: map<string, string>, maxRepairs: nat
  )
    requires Valid(run, maxRepairs) && Explained(run, rest, maxRepairs)
    ensures Explained(Drive(run, outcomes, maxRepairs), rest, maxRepairs)
    decreases |outcomes|
  {
    if outcomes != [] && run.round.Deliverable() {
      StepKeepsValid(run, outcomes[0], maxRepairs);
      StepKeepsExplained(run, outcomes[0], rest, maxRepairs);
      DriveKeepsExplained(Step(run, outcomes[0], maxRepairs), outcomes[1..], rest, maxRepairs);
    }
  }

  /** Whatever the outcomes, every verdict of a round's log is the one that its member, its outcome and
      the repairs used before it call for, nothing is delivered behind one that ends the round, and the
      last says how the round stands. */
  lemma EveryVerdictIsDue(
    hasTask: bool, roster: seq<Assignment>, rest: map<string, string>, outcomes: seq<Outcome>, maxRepairs: nat
  )
    ensures
      var end := Drive(Start(hasTask, roster, rest), outcomes, maxRepairs);
      && (forall k :: 0 <= k < |end.log| ==> ExplainedAt(hasTask, roster, end.log, k, maxRepairs))
      && EndsLast(end.log) && StandsAs(end) && end.round.state.rest == rest
  {
    var start := Start(hasTask, roster, rest);
    StartIsWellLogged(hasTask, roster, rest, maxRepairs);
    DriveKeeps(start, outcomes, maxRepairs);
    DriveKeepsExplained(start, outcomes, rest, maxRepairs);
  }

  lemma {:induction false} NoSendBacks(log: seq<Delivery>)
    requires forall d :: d in log ==> d.verdict != SentBack
    ensures SendBacks(log) == 0
  {
    if log != [] {
      assert forall d :: d in log[..|log| - 1] ==> d in log;
      NoSendBacks(log[..|log| - 1]);
    }
  }

  /** A round without a task, or without an acting coordinator in the lead, is never repaired: it sends
      nothing back and delivers each index at most once, in order. */
  lemma RepairsNeedATaskAndALead(
    hasTask: bool, roster: seq<Assignment>, rest: map<string, string>, outcomes: seq<Outcome>, maxRepairs: nat
  )
    requires !hasTask || !ActingLead(roster)
    ensures
      var end := Drive(Start(hasTask, roster, rest), outcomes, maxRepairs);
      && SendBacks(end.log) == 0 == end.round.state.RepairCount()
      && |end.log| <= |roster| && forall k :: 0 <= k < |end.log| ==> end.log[k].index == k
  {
    var end := Drive(Start(hasTask, roster, rest), outcomes, maxRepairs);
    EveryVerdictIsDue(hasTask, roster, rest, outcomes, maxRepairs);
    forall d | d in end.log
      ensures d.verdict != SentBack
    {
      var k :| 0 <= k < |end.log| && end.log[k] == d;
      assert ExplainedAt(hasTask, roster, end.log, k, maxRepairs);
    }
    NoSendBacks(end.log);
    StartIsWellLogged(hasTask, roster, rest, maxRepairs);
    DriveKeeps(Start(hasTask, roster, rest), outcomes, maxRepairs);
    DeliversInOrder(end, maxRepairs);
  }

  lemma DeliversInOrder(run: Run, maxRepairs: nat)
    requires Valid(run, maxRepairs) && EndsLast(run.log) && forall d :: d in run.log ==> d.verdict != SentBack
    ensures |run.log| <= |run.round.roster| && forall k :: 0 <= k < |run.log| ==> run.log[k].index == k
  {
    forall k | 0 <= k < |run.log|
      ensures run.log[k].index == k
    {
      SettledEach(run.log, k);
      assert OrderedAt(run.log, k);
      assert k > 0 ==> run.log[k - 1] in run.log;
    }
    if run.log != [] {
      assert run.log[|run.log| - 1] in run.log;
    }
  }

  /** Up to its last delivery a round that sends nothing back has settled all it delivered. */
  lemma {:induction false} SettledEach(log: seq<Delivery>, k: nat)
    requires k < |log| && EndsLast(log) && forall d :: d in log ==> d.verdict != SentBack
    ensures |SettledBy(log[..k])| == k
  {
    if k > 0 {
      SettledEach(log, k - 1);
      assert log[..k][..k - 1] == log[..k - 1];
      assert log[k - 1] in log && (k > 1 ==> log[k - 2] in log);
    }
  }
}

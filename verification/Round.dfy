/** One round of sequential delivery, driven by the policy.
    Models the advance of a claimed run request in
    backend/relay/daemon_registry/registry.py over backend/relay/collaboration/policy.py. */
module Round {
  import opened Wrappers
  import opened Policy

  datatype Status = Running | Completed | Failed | Cancelled

  /** What the daemon reports for one delivery. A run that exits with a nonzero code
      and a run that could not be carried out arrive as different events. */
  datatype Outcome =
    | Succeeded(report: Option<RoundResult>)
    | ExitFailed(detail: string)
    | RunFailed(detail: string)
    | RunCancelled(reason: string)

  datatype Verdict = Settled | SettledByFailure | SentBack | RoundFailed | RoundCancelled

  datatype Delivery = Delivery(index: nat, outcome: Outcome, verdict: Verdict)

  datatype Round = Round(
    hasTask: bool,
    roster: seq<Assignment>,
    currentIndex: nat,
    state: State,
    status: Status
  ) {
    predicate Deliverable() { status == Running && currentIndex < |roster| }
  }

  /** A round together with the log of its deliveries. */
  datatype Run = Run(round: Round, log: seq<Delivery>)

  function EmptyState(rest: map<string, string>): State {
    State(None, None, None, None, None, rest)
  }

  function Start(hasTask: bool, roster: seq<Assignment>, rest: map<string, string>): Run {
    Run(Round(hasTask, roster, 0, EmptyState(rest), Running), [])
  }

  function Decide(r: Round, detail: string, maxRepairs: nat): FailureDecision
    requires r.Deliverable()
  {
    var assignment := r.roster[r.currentIndex];
    DecideFailure(r.hasTask, r.roster, r.currentIndex, r.state, detail, assignment.Label(),
                  assignment.EffectiveMode(), maxRepairs)
  }

  function MoveTo(r: Round, index: nat, state: State): Round {
    r.(currentIndex := index, state := state,
       status := if index >= |r.roster| then Completed else Running)
  }

  /** The state a success leaves behind: only the reporting assignment's result is kept. */
  function Reported(r: Round, report: Option<RoundResult>): State
    requires r.Deliverable()
  {
    if report.Some? && ReportsRoundResult(r.roster, r.currentIndex)
    then r.state.(roundResult := report) else r.state
  }

  /** One delivery and its outcome. */
  function Deliver(r: Round, outcome: Outcome, maxRepairs: nat): (Round, Verdict)
    requires r.Deliverable()
  {
    match outcome
    case Succeeded(report) =>
      var (next, state) := AdvanceAfterSuccess(r.currentIndex, Reported(r, report));
      (MoveTo(r, next, state), Settled)
    case ExitFailed(detail) =>
      (match Decide(r, detail, maxRepairs)
       case SendBack(state) => (MoveTo(r, 0, state), SentBack)
       case Continue(next, state) => (MoveTo(r, next, state), SettledByFailure)
       case Fail(state) => (r.(status := Failed), RoundFailed))
    case RunFailed(detail) =>
      // Only the decision to continue is acted on here; a decision to repair ends the round.
      (match Decide(r, detail, maxRepairs)
       case Continue(next, state) => (MoveTo(r, next, state), SettledByFailure)
       case SendBack(_) => (r.(status := Failed), RoundFailed)
       case Fail(_) => (r.(status := Failed), RoundFailed))
    case RunCancelled(_) =>
      (r.(status := Cancelled), RoundCancelled)
  }

  function Step(run: Run, outcome: Outcome, maxRepairs: nat): Run
    requires run.round.Deliverable()
  {
    var (next, verdict) := Deliver(run.round, outcome, maxRepairs);
    Run(next, run.log + [Delivery(run.round.currentIndex, outcome, verdict)])
  }

  /** Delivers until the outcomes are used up or the round ends. */
  function Drive(run: Run, outcomes: seq<Outcome>, maxRepairs: nat): Run
    decreases |outcomes|
  {
    if outcomes == [] || !run.round.Deliverable() then run
    else Drive(Step(run, outcomes[0], maxRepairs), outcomes[1..], maxRepairs)
  }

  // ----- reading a log

  /** A success that answers a send-back repairs; it settles nothing. */
  predicate IsRepair(log: seq<Delivery>, k: nat)
    requires k < |log|
  {
    k > 0 && log[k - 1].verdict == SentBack
  }

  /** The indices settled by a log, in the order they were settled. */
  function SettledBy(log: seq<Delivery>): seq<nat> {
    if log == [] then []
    else
      var last := |log| - 1;
      SettledBy(log[..last]) +
      if log[last].verdict in {Settled, SettledByFailure} && !IsRepair(log, last)
      then [log[last].index] else []
  }

  function SendBacks(log: seq<Delivery>): nat {
    if log == [] then 0
    else SendBacks(log[..|log| - 1]) + if log[|log| - 1].verdict == SentBack then 1 else 0
  }

  /** The participant failures a log records, with the member each one names. */
  function FailuresIn(roster: seq<Assignment>, log: seq<Delivery>): seq<FailureEntry>
    requires forall d :: d in log ==> d.index < |roster|
  {
    if log == [] then []
    else
      var d := log[|log| - 1];
      FailuresIn(roster, log[..|log| - 1]) +
      if d.verdict == SettledByFailure && (d.outcome.ExitFailed? || d.outcome.RunFailed?) then
        var a := roster[d.index];
        [FailureEntry(a.assignmentId, a.Label(), a.EffectiveMode(), d.outcome.detail)]
      else []
  }

  /** The last valid report made by the one assignment that may make it. */
  function LastReport(roster: seq<Assignment>, log: seq<Delivery>): Option<RoundResult> {
    if log == [] then None
    else
      var d := log[|log| - 1];
      if d.outcome.Succeeded? && d.outcome.report.Some? && ReportsRoundResult(roster, d.index)
      then d.outcome.report
      else LastReport(roster, log[..|log| - 1])
  }

  function Iota(n: nat): seq<nat> { seq(n, i requires 0 <= i < n => i) }

  // ----- the invariant of every run

  function HighWater(r: Round): nat { r.state.resumeIndex.GetOr(r.currentIndex) }

  function Outstanding(r: Round): nat { if r.state.resumeIndex.Some? then 1 else 0 }

  /** Bounds the deliveries that remain. */
  function Measure(r: Round, maxRepairs: nat): int {
    2 * (maxRepairs - r.state.RepairCount()) + (|r.roster| - HighWater(r)) + Outstanding(r)
  }

  /** The resume index and the repair note are present together, only while a send-back to
      the coordinator is unanswered. */
  ghost predicate RoundOk(r: Round, maxRepairs: nat) {
    && r.currentIndex <= |r.roster|
    && HighWater(r) <= |r.roster|
    && r.state.RepairCount() <= maxRepairs
    && (r.state.resumeIndex.Some? <==> r.state.repairNote.Some?)
    && (r.state.resumeIndex.Some? ==>
          && r.currentIndex == 0 < HighWater(r) < |r.roster|
          && r.roster[0].EffectiveMode() == Action)
    && (r.status == Completed ==> HighWater(r) == |r.roster| && r.state.resumeIndex.None?)
    && (r.status == Failed || r.status == Cancelled ==> HighWater(r) < |r.roster|)
  }

  /** The state says what the log says. */
  ghost predicate LogAgrees(run: Run) {
    var r := run.round;
    && (forall d :: d in run.log ==> d.index < |r.roster|)
    && SettledBy(run.log) == Iota(HighWater(r))
    && SendBacks(run.log) == r.state.RepairCount()
    && FailuresIn(r.roster, run.log) == r.state.Failures()
    && LastReport(r.roster, run.log) == r.state.roundResult
    && |run.log| == HighWater(r) + 2 * SendBacks(run.log) - Outstanding(r) +
                    (if r.status == Failed || r.status == Cancelled then 1 else 0)
    && (r.status == Running || r.status == Completed ==>
          (r.state.resumeIndex.Some? <==> AwaitsRepair(run.log)))
  }

  predicate AwaitsRepair(log: seq<Delivery>) {
    log != [] && log[|log| - 1].verdict == SentBack
  }

  ghost predicate WellLogged(run: Run, maxRepairs: nat) {
    RoundOk(run.round, maxRepairs) && LogAgrees(run)
  }

  lemma StartIsWellLogged(hasTask: bool, roster: seq<Assignment>, rest: map<string, string>, maxRepairs: nat)
    ensures WellLogged(Start(hasTask, roster, rest), maxRepairs)
  {
    assert Iota(0) == [];
  }

  /** What one more delivery adds to everything read off a log. */
  lemma LogGrows(roster: seq<Assignment>, log: seq<Delivery>, d: Delivery)
    requires forall e :: e in log ==> e.index < |roster|
    requires d.index < |roster|
    ensures forall e :: e in log + [d] ==> e.index < |roster|
    ensures SettledBy(log + [d]) == SettledBy(log) +
      (if d.verdict in {Settled, SettledByFailure} && !AwaitsRepair(log)
       then [d.index] else [])
    ensures SendBacks(log + [d]) == SendBacks(log) + if d.verdict == SentBack then 1 else 0
    ensures FailuresIn(roster, log + [d]) == FailuresIn(roster, log) +
      (if d.verdict == SettledByFailure && (d.outcome.ExitFailed? || d.outcome.RunFailed?) then
         var a := roster[d.index];
         [FailureEntry(a.assignmentId, a.Label(), a.EffectiveMode(), d.outcome.detail)]
       else [])
    ensures LastReport(roster, log + [d]) ==
      if d.outcome.Succeeded? && d.outcome.report.Some? && ReportsRoundResult(roster, d.index)
      then d.outcome.report else LastReport(roster, log)
  {
    var longer := log + [d];
    assert longer[..|longer| - 1] == log && longer[|longer| - 1] == d;
  }

  lemma DeliverKeepsRoundOk(r: Round, outcome: Outcome, maxRepairs: nat)
    requires r.Deliverable() && RoundOk(r, maxRepairs)
    ensures RoundOk(Deliver(r, outcome, maxRepairs).0, maxRepairs)
    ensures var after := Deliver(r, outcome, maxRepairs).0;
      after.Deliverable() ==> 0 <= Measure(after, maxRepairs) < Measure(r, maxRepairs)
  {
  }

  /** One delivery's effect on what the log must agree with. */
  lemma DeliverEffect(r: Round, outcome: Outcome, maxRepairs: nat)
    requires r.Deliverable() && RoundOk(r, maxRepairs)
    ensures
      var (after, verdict) := Deliver(r, outcome, maxRepairs);
      && after.roster == r.roster
      && (verdict == Settled || verdict == SettledByFailure ==>
            && after.state.resumeIndex.None? && after.status in {Running, Completed}
            && HighWater(after) == HighWater(r) + 1 - Outstanding(r))
      && (verdict == SettledByFailure ==> r.state.resumeIndex.None?)
      && (verdict == SentBack ==>
            && r.state.resumeIndex.None? && after.state.resumeIndex == Some(r.currentIndex)
            && after.status == Running)
      && (verdict == RoundFailed || verdict == RoundCancelled ==>
            after.state == r.state && after.currentIndex == r.currentIndex
            && (after.status == Failed || after.status == Cancelled))
      && after.state.RepairCount() == r.state.RepairCount() + (if verdict == SentBack then 1 else 0)
      && after.state.Failures() == r.state.Failures() +
         (if verdict == SettledByFailure && (outcome.ExitFailed? || outcome.RunFailed?) then
            var a := r.roster[r.currentIndex];
            [FailureEntry(a.assignmentId, a.Label(), a.EffectiveMode(), outcome.detail)]
          else [])
      && after.state.roundResult ==
         (if outcome.Succeeded? && outcome.report.Some? && ReportsRoundResult(r.roster, r.currentIndex)
          then outcome.report else r.state.roundResult)
  {
  }

  lemma StepKeepsWellLogged(run: Run, outcome: Outcome, maxRepairs: nat)
    requires run.round.Deliverable() && WellLogged(run, maxRepairs)
    ensures WellLogged(Step(run, outcome, maxRepairs), maxRepairs)
  {
    var r := run.round;
    var (after, verdict) := Deliver(r, outcome, maxRepairs);
    DeliverKeepsRoundOk(r, outcome, maxRepairs);
    DeliverEffect(r, outcome, maxRepairs);
    LogAgreesAfter(run, after, Delivery(r.currentIndex, outcome, verdict));
  }

  /** If a delivery changes the round as its verdict says, log and state still agree. */
  lemma LogAgreesAfter(run: Run, after: Round, d: Delivery)
    requires run.round.Deliverable() && LogAgrees(run)
    requires d.index == run.round.currentIndex && after.roster == run.round.roster
    requires d.verdict in {Settled, SettledByFailure} ==>
      && after.state.resumeIndex.None? && after.status in {Running, Completed}
      && HighWater(after) == HighWater(run.round) + 1 - Outstanding(run.round)
    requires d.verdict == SentBack ==>
      && run.round.state.resumeIndex.None? && after.state.resumeIndex == Some(d.index)
      && after.status == Running
    requires d.verdict in {RoundFailed, RoundCancelled} ==>
      && after.state.resumeIndex == run.round.state.resumeIndex && after.currentIndex == d.index
      && (after.status == Failed || after.status == Cancelled)
    requires after.state.RepairCount() == run.round.state.RepairCount() + if d.verdict == SentBack then 1 else 0
    requires after.state.Failures() == FailuresIn(after.roster, run.log + [d])
    requires after.state.roundResult == LastReport(after.roster, run.log + [d])
    ensures LogAgrees(Run(after, run.log + [d]))
  {
    LogGrows(run.round.roster, run.log, d);
    assert Iota(HighWater(run.round) + 1) == Iota(HighWater(run.round)) + [HighWater(run.round)];
  }

  // ----- whole rounds

  /** Every delivery of a log follows what its own past settled: a repair goes to index 0, and
      any other delivery to the least index not settled yet. */
  ghost predicate InOrder(log: seq<Delivery>) {
    forall k :: 0 <= k < |log| ==> OrderedAt(log, k)
  }

  ghost predicate OrderedAt(log: seq<Delivery>, k: nat)
    requires k < |log|
  {
    var settled := SettledBy(log[..k]);
    && settled == Iota(|settled|)
    && log[k].index == (if IsRepair(log, k) then 0 else |settled|)
    && (log[k].verdict == SentBack ==> log[k].index > 0)
  }

  lemma StepKeepsInOrder(run: Run, outcome: Outcome, maxRepairs: nat)
    requires run.round.Deliverable() && WellLogged(run, maxRepairs) && InOrder(run.log)
    ensures InOrder(Step(run, outcome, maxRepairs).log)
  {
    var log := Step(run, outcome, maxRepairs).log;
    forall k | 0 <= k < |log|
      ensures OrderedAt(log, k)
    {
      if k < |run.log| {
        assert OrderedAt(run.log, k) && log[..k] == run.log[..k];
        assert log[k] == run.log[k] && (k > 0 ==> log[k - 1] == run.log[k - 1]);
      } else {
        assert log[..k] == run.log;
        assert AwaitsRepair(run.log) <==> IsRepair(log, k);
      }
    }
  }

  ghost predicate Valid(run: Run, maxRepairs: nat) {
    WellLogged(run, maxRepairs) && InOrder(run.log)
  }

  ghost predicate SameRoster(run: Run, later: Run) {
    later.round.roster == run.round.roster && later.round.hasTask == run.round.hasTask
  }

  lemma StepKeepsValid(run: Run, outcome: Outcome, maxRepairs: nat)
    requires run.round.Deliverable() && Valid(run, maxRepairs)
    ensures Valid(Step(run, outcome, maxRepairs), maxRepairs)
    ensures SameRoster(run, Step(run, outcome, maxRepairs))
    ensures Step(run, outcome, maxRepairs).round.Deliverable() ==>
      0 <= Measure(Step(run, outcome, maxRepairs).round, maxRepairs) < Measure(run.round, maxRepairs)
  {
    StepKeepsWellLogged(run, outcome, maxRepairs);
    StepKeepsInOrder(run, outcome, maxRepairs);
    DeliverKeepsRoundOk(run.round, outcome, maxRepairs);
  }

  lemma {:induction false} DriveKeeps(run: Run, outcomes: seq<Outcome>, maxRepairs: nat)
    requires Valid(run, maxRepairs)
    ensures Valid(Drive(run, outcomes, maxRepairs), maxRepairs)
    ensures SameRoster(run, Drive(run, outcomes, maxRepairs))
    ensures Drive(run, outcomes, maxRepairs).round.Deliverable() ==>
      Measure(Drive(run, outcomes, maxRepairs).round, maxRepairs) <= Measure(run.round, maxRepairs) - |outcomes|
    decreases |outcomes|
  {
    if outcomes != [] && run.round.Deliverable() {
      StepKeepsValid(run, outcomes[0], maxRepairs);
      DriveKeeps(Step(run, outcomes[0], maxRepairs), outcomes[1..], maxRepairs);
    }
  }

  /** Whatever the outcomes, a round of n members ends within n + 2r deliveries, r being the
      repairs allowed, and never asks for more than r repairs. */
  lemma RoundTerminates(
    hasTask: bool, roster: seq<Assignment>, rest: map<string, string>, outcomes: seq<Outcome>, maxRepairs: nat
  )
    ensures
      var end := Drive(Start(hasTask, roster, rest), outcomes, maxRepairs);
      && |end.log| <= |roster| + 2 * maxRepairs
      && end.round.state.RepairCount() == SendBacks(end.log) <= maxRepairs
      && (|outcomes| >= |roster| + 2 * maxRepairs ==> !end.round.Deliverable())
  {
    StartIsWellLogged(hasTask, roster, rest, maxRepairs);
    DriveKeeps(Start(hasTask, roster, rest), outcomes, maxRepairs);
    var end := Drive(Start(hasTask, roster, rest), outcomes, maxRepairs).round;
    if end.Deliverable() {
      assert Measure(end, maxRepairs) >= 1;
    }
  }

  /** A completed round settled every index once, in increasing order, and recorded exactly one
      entry for each participant that settled by failing. After an index has succeeded, only
      index 0 is delivered again, and only in answer to a send-back. */
  lemma SettledExactlyOnce(
    hasTask: bool, roster: seq<Assignment>, rest: map<string, string>, outcomes: seq<Outcome>, maxRepairs: nat
  )
    ensures
      var end := Drive(Start(hasTask, roster, rest), outcomes, maxRepairs);
      && (forall d :: d in end.log ==> d.index < |roster|)
      && (end.round.status == Completed ==> SettledBy(end.log) == Iota(|roster|))
      && end.round.state.Failures() == FailuresIn(roster, end.log)
      && end.round.state.roundResult == LastReport(roster, end.log)
      && (end.round.status in {Running, Completed} ==>
            (end.round.state.resumeIndex.Some? <==> AwaitsRepair(end.log))
            && (end.round.state.repairNote.Some? <==> AwaitsRepair(end.log)))
      && (forall j, k ::
            (0 <= j < k < |end.log| && end.log[j].verdict in {Settled, SettledByFailure} &&
             end.log[k].index == end.log[j].index) ==>
              end.log[k].index == 0 && IsRepair(end.log, k))
  {
    StartIsWellLogged(hasTask, roster, rest, maxRepairs);
    DriveKeeps(Start(hasTask, roster, rest), outcomes, maxRepairs);
    ValidSays(Drive(Start(hasTask, roster, rest), outcomes, maxRepairs), maxRepairs);
  }

  lemma ValidSays(run: Run, maxRepairs: nat)
    requires Valid(run, maxRepairs)
    ensures run.round.status == Completed ==> SettledBy(run.log) == Iota(|run.round.roster|)
    ensures run.round.status in {Running, Completed} ==>
      && (run.round.state.resumeIndex.Some? <==> AwaitsRepair(run.log))
      && (run.round.state.repairNote.Some? <==> AwaitsRepair(run.log))
    ensures forall j, k ::
      (0 <= j < k < |run.log| && run.log[j].verdict in {Settled, SettledByFailure} &&
       run.log[k].index == run.log[j].index) ==> run.log[k].index == 0 && IsRepair(run.log, k)
  {
    OnlyRepairsRedeliver(run.log);
  }

  lemma OnlyRepairsRedeliver(log: seq<Delivery>)
    requires InOrder(log)
    ensures forall j, k ::
      (0 <= j < k < |log| && log[j].verdict in {Settled, SettledByFailure} && log[k].index == log[j].index) ==>
        log[k].index == 0 && IsRepair(log, k)
  {
    forall j, k | 0 <= j < k < |log| && log[j].verdict in {Settled, SettledByFailure}
      && log[k].index == log[j].index
      ensures log[k].index == 0 && IsRepair(log, k)
    {
      SettlesBelow(log, j);
      SettledGrows(log, j + 1, k);
      assert OrderedAt(log, k);
    }
  }

  lemma SettlesBelow(log: seq<Delivery>, j: nat)
    requires InOrder(log) && j < |log| && log[j].verdict in {Settled, SettledByFailure}
    ensures log[j].index < |SettledBy(log[..j + 1])|
  {
    assert OrderedAt(log, j);
    assert log[..j + 1][..j] == log[..j];
    if IsRepair(log, j) {
      assert OrderedAt(log, j - 1);
      assert log[..j][..j - 1] == log[..j - 1];
    }
  }

  lemma {:induction false} SettledGrows(log: seq<Delivery>, j: nat, k: nat)
    requires j <= k <= |log|
    ensures |SettledBy(log[..j])| <= |SettledBy(log[..k])|
    decreases k
  {
    if j < k {
      SettledGrows(log, j, k - 1);
      assert log[..k][..k - 1] == log[..k - 1];
    }
  }

  // ----- the bound is attained

  const DONE := Succeeded(None)
  const FAILS := ExitFailed("")

  /** Succeed once, spend every repair on the second member, then succeed to the end. */
  function WorstOutcomes(members: nat, repairs: nat): seq<Outcome>
    requires members >= 2
  {
    [DONE] + RepairRounds(repairs) + seq(members - 1, _ => DONE)
  }

  function RepairRounds(repairs: nat): seq<Outcome> {
    if repairs == 0 then [] else [FAILS, DONE] + RepairRounds(repairs - 1)
  }

  lemma {:induction false} DriveAppend(run: Run, a: seq<Outcome>, b: seq<Outcome>, maxRepairs: nat)
    ensures Drive(run, a + b, maxRepairs) == Drive(Drive(run, a, maxRepairs), b, maxRepairs)
    decreases |a|
  {
    if a == [] {
      assert a + b == b;
    } else if run.round.Deliverable() {
      assert (a + b)[0] == a[0] && (a + b)[1..] == a[1..] + b;
      DriveAppend(Step(run, a[0], maxRepairs), a[1..], b, maxRepairs);
    }
  }

  lemma {:induction false} RepairRoundsSpend(run: Run, repairs: nat, maxRepairs: nat)
    requires run.round.status == Running && run.round.hasTask && run.round.currentIndex == 1 < |run.round.roster|
    requires run.round.roster[0].coordinator && run.round.roster[0].EffectiveMode() == Action
    requires run.round.state.resumeIndex.None? && run.round.state.RepairCount() + repairs == maxRepairs
    ensures
      var end := Drive(run, RepairRounds(repairs), maxRepairs);
      && SameRoster(run, end) && |end.log| == |run.log| + 2 * repairs
      && end.round.status == Running && end.round.currentIndex == 1 && end.round.state.resumeIndex.None?
    decreases repairs
  {
    if repairs > 0 {
      var sent := Step(run, FAILS, maxRepairs);
      var back := Step(sent, DONE, maxRepairs);
      var outcomes := RepairRounds(repairs);
      assert outcomes[0] == FAILS && outcomes[1..][0] == DONE && outcomes[1..][1..] == RepairRounds(repairs - 1);
      assert Drive(run, outcomes, maxRepairs) == Drive(sent, outcomes[1..], maxRepairs)
          == Drive(back, RepairRounds(repairs - 1), maxRepairs);
      RepairRoundsSpend(back, repairs - 1, maxRepairs);
    }
  }

  lemma {:induction false} SuccessesFinish(run: Run, left: nat, maxRepairs: nat)
    requires run.round.status == Running && run.round.state.resumeIndex.None?
    requires 0 < left && run.round.currentIndex + left == |run.round.roster|
    ensures
      var end := Drive(run, seq(left, _ => DONE), maxRepairs);
      |end.log| == |run.log| + left && end.round.status == Completed
    decreases left
  {
    var outcomes := seq(left, _ => DONE);
    assert outcomes[1..] == seq(left - 1, _ => DONE);
    if left > 1 {
      SuccessesFinish(Step(run, DONE, maxRepairs), left - 1, maxRepairs);
    }
  }

  /** Successes alone log the indices in order. */
  lemma {:induction false} SuccessesInOrder(run: Run, n: nat, maxRepairs: nat)
    requires run.round.status == Running && run.round.state.resumeIndex.None?
    requires run.round.currentIndex + n <= |run.round.roster|
    ensures
      var log := Drive(run, seq(n, _ => DONE), maxRepairs).log;
      && |log| == |run.log| + n && log[..|run.log|] == run.log
      && forall p :: |run.log| <= p < |log| ==> log[p].index == run.round.currentIndex + p - |run.log|
    decreases n
  {
    var outcomes := seq(n, _ => DONE);
    if n == 1 {
      assert outcomes[1..] == [];
      assert Drive(run, outcomes, maxRepairs) == Step(run, DONE, maxRepairs);
    } else if n > 1 {
      assert outcomes[1..] == seq(n - 1, _ => DONE);
      var next := Step(run, DONE, maxRepairs);
      SuccessesInOrder(next, n - 1, maxRepairs);
      var log := Drive(next, outcomes[1..], maxRepairs).log;
      assert log[..|run.log|] == log[..|next.log|][..|run.log|] == run.log;
      assert log[|run.log|] == log[..|next.log|][|run.log|];
    }
  }

  /** Every delivery settles at most one index. */
  lemma {:induction false} SettledIsNoLonger(log: seq<Delivery>)
    ensures |SettledBy(log)| <= |log|
  {
    if log != [] {
      SettledIsNoLonger(log[..|log| - 1]);
    }
  }

  /** n + 2r is reached by every task round of two or more members led by an acting coordinator. */
  lemma BoundIsTight(roster: seq<Assignment>, rest: map<string, string>, maxRepairs: nat)
    requires |roster| >= 2 && roster[0].coordinator && roster[0].EffectiveMode() == Action
    ensures
      var end := Drive(Start(true, roster, rest), WorstOutcomes(|roster|, maxRepairs), maxRepairs);
      |end.log| == |roster| + 2 * maxRepairs && end.round.status == Completed
  {
    var start, tail := Start(true, roster, rest), seq(|roster| - 1, _ => DONE);
    var first := FirstSuccess(roster, rest, maxRepairs);
    DriveAppend(start, [DONE] + RepairRounds(maxRepairs), tail, maxRepairs);
    DriveAppend(start, [DONE], RepairRounds(maxRepairs), maxRepairs);
    RepairRoundsSpend(first, maxRepairs, maxRepairs);
    SuccessesFinish(Drive(first, RepairRounds(maxRepairs), maxRepairs), |roster| - 1, maxRepairs);
  }

  lemma FirstSuccess(roster: seq<Assignment>, rest: map<string, string>, maxRepairs: nat) returns (first: Run)
    requires |roster| >= 2
    ensures first == Drive(Start(true, roster, rest), [DONE], maxRepairs) && |first.log| == 1
    ensures first.round == Round(true, roster, 1, EmptyState(rest), Running)
  {
    first := Step(Start(true, roster, rest), DONE, maxRepairs);
  }

  // ----- which participant failures a round survives

  /** A discussion or review member that exits with an error never ends the round. One whose run
      could not be carried out ends it exactly when a repair is still available. */
  lemma ParticipantFailureSurvival(r: Round, detail: string, maxRepairs: nat)
    requires r.Deliverable() && r.roster[r.currentIndex].EffectiveMode() != Action
    ensures Deliver(r, ExitFailed(detail), maxRepairs).1 != RoundFailed
    ensures Deliver(r, RunFailed(detail), maxRepairs).1 == RoundFailed <==>
      && r.hasTask && r.currentIndex > 0 && r.state.RepairCount() < maxRepairs
      && r.roster[0].coordinator && r.roster[0].EffectiveMode() == Action
  {
  }

  /** A round can reach that ending: a coordinator succeeds, then the run of a discussion member
      cannot be carried out, and the round fails although one repair is allowed. */
  lemma RunFailureEndsDiscussion(lead: Assignment, member: Assignment, rest: map<string, string>)
    requires lead.coordinator && lead.EffectiveMode() == Action && member.EffectiveMode() == Ask
    ensures
      var end := Drive(Start(true, [lead, member], rest), [DONE, RunFailed("unreachable")], 1);
      end.round.status == Failed && SettledBy(end.log) == [0] && end.round.state.Failures() == []
  {
    var roster := [lead, member];
    var first := Run(Round(true, roster, 1, EmptyState(rest), Running), [Delivery(0, DONE, Settled)]);
    var outcome := RunFailed("unreachable");
    assert Step(Start(true, roster, rest), DONE, 1) == first;
    TwoSteps(Start(true, roster, rest), DONE, outcome, 1);
    RunFailureHere(first, "unreachable", 1);
    assert first.log[..0] == [] && SettledBy(first.log) == [0];
  }

  lemma RunFailureHere(run: Run, detail: string, maxRepairs: nat)
    requires run.round.Deliverable() && run.round.roster[run.round.currentIndex].EffectiveMode() != Action
    requires CanRepair(run.round.hasTask, run.round.roster, run.round.currentIndex, run.round.state.RepairCount(),
                       maxRepairs)
    ensures
      var end := Step(run, RunFailed(detail), maxRepairs);
      end.round == run.round.(status := Failed) && SettledBy(end.log) == SettledBy(run.log)
  {
    var end := Step(run, RunFailed(detail), maxRepairs);
    assert end.log[..|run.log|] == run.log && end.log[|run.log|].verdict == RoundFailed;
  }

  lemma TwoSteps(run: Run, first: Outcome, second: Outcome, maxRepairs: nat)
    requires run.round.Deliverable() && Step(run, first, maxRepairs).round.Deliverable()
    ensures Drive(run, [first, second], maxRepairs) == Step(Step(run, first, maxRepairs), second, maxRepairs)
  {
    assert [first, second][1..] == [second] && [second][1..] == [];
    var middle := Step(run, first, maxRepairs);
    assert Drive(middle, [second], maxRepairs) == Drive(Step(middle, second, maxRepairs), [], maxRepairs);
  }

  /** The first k answers of a daemon. */
  function Answers(answer: nat -> Outcome, k: nat): seq<Outcome> {
    if k == 0 then [] else Answers(answer, k - 1) + [answer(k - 1)]
  }

  /** One delivery more of a round that answers drive. */
  lemma NextRun(start: Run, answer: nat -> Outcome, k: nat, run: Run, maxRepairs: nat)
    requires Valid(run, maxRepairs) && run.round.Deliverable() && run == Drive(start, Answers(answer, k), maxRepairs)
    ensures Step(run, answer(k), maxRepairs) == Drive(start, Answers(answer, k + 1), maxRepairs)
    ensures |Step(run, answer(k), maxRepairs).log| == |run.log| + 1
    ensures Step(run, answer(k), maxRepairs).round.Deliverable() ==>
      0 <= Measure(Step(run, answer(k), maxRepairs).round, maxRepairs) < Measure(run.round, maxRepairs)
  {
    StepKeepsValid(run, answer(k), maxRepairs);
    DriveOneMore(start, answer, k, maxRepairs);
  }

  lemma DriveOneMore(start: Run, answer: nat -> Outcome, k: nat, maxRepairs: nat)
    requires Drive(start, Answers(answer, k), maxRepairs).round.Deliverable()
    ensures Drive(start, Answers(answer, k + 1), maxRepairs)
         == Step(Drive(start, Answers(answer, k), maxRepairs), answer(k), maxRepairs)
  {
    DriveAppend(start, Answers(answer, k), [answer(k)], maxRepairs);
    assert [answer(k)][1..] == [];
  }
}

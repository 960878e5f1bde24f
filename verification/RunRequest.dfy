/** The stored run request that the registry advances in place, one terminal event at a time. */
module RunRequest {
  import opened Wrappers
  import opened Policy
  import opened Round

  class RunRequest {
    const hasTask: bool
    const roster: seq<Assignment>
    const maxRepairs: nat
    var currentIndex: nat
    var state: State
    var status: Status
    var deliveries: seq<Delivery>

    ghost function Value(): Run
      reads this
    {
      Run(Round(hasTask, roster, currentIndex, state, status), deliveries)
    }

    constructor (hasTask: bool, roster: seq<Assignment>, maxRepairs: nat, rest: map<string, string>)
      ensures this.hasTask == hasTask && this.roster == roster && this.maxRepairs == maxRepairs
      ensures Value() == Start(hasTask, roster, rest)
      ensures Valid(Value(), maxRepairs)
    {
      this.hasTask, this.roster, this.maxRepairs := hasTask, roster, maxRepairs;
      currentIndex, state, status := 0, EmptyState(rest), Running;
      deliveries := [];
      new;
      StartIsWellLogged(hasTask, roster, rest, maxRepairs);
    }

    /** Hands the round back to the coordinator when the policy decides on a repair. */
    method SendBackForRepair(detail: string) returns (sent: bool)
      requires Value().round.Deliverable()
      modifies this`currentIndex, this`state, this`status
      ensures sent <==>
        && hasTask && old(currentIndex) > 0 && old(state).RepairCount() < maxRepairs
        && roster[0].coordinator && roster[0].EffectiveMode() == Action
      ensures sent <==> Decide(old(Value().round), detail, maxRepairs).SendBack?
      ensures Value().round ==
        if sent then MoveTo(old(Value().round), 0, Decide(old(Value().round), detail, maxRepairs).state)
        else old(Value().round)
      ensures sent ==> currentIndex == 0 && state.resumeIndex == Some(old(currentIndex))
    {
      var assignment := roster[currentIndex];
      var decision := DecideFailure(hasTask, roster, currentIndex, state, detail, assignment.Label(),
                                    assignment.EffectiveMode(), maxRepairs);
      sent := decision.SendBack?;
      if sent {
        currentIndex, state := 0, decision.state;
      }
    }

    /** Moves past a failed participant when the policy decides to go on. */
    method ContinueAfterNonActionFailure(detail: string) returns (continued: bool)
      requires Value().round.Deliverable()
      modifies this`currentIndex, this`state, this`status
      ensures continued <==>
        && roster[old(currentIndex)].EffectiveMode() != Action
        && !(hasTask && old(currentIndex) > 0 && old(state).RepairCount() < maxRepairs
             && roster[0].coordinator && roster[0].EffectiveMode() == Action)
      ensures continued ==> currentIndex == old(currentIndex) + 1
      ensures continued <==> Decide(old(Value().round), detail, maxRepairs).Continue?
      ensures continued ==>
        var decision := Decide(old(Value().round), detail, maxRepairs);
        Value().round == MoveTo(old(Value().round), decision.nextIndex, decision.state)
      ensures !continued ==> Value().round == old(Value().round)
    {
      var assignment := roster[currentIndex];
      var decision := DecideFailure(hasTask, roster, currentIndex, state, detail, assignment.Label(),
                                    assignment.EffectiveMode(), maxRepairs);
      continued := decision.Continue?;
      if continued {
        currentIndex, state := decision.nextIndex, decision.state;
        if currentIndex >= |roster| {
          status := Completed;
        }
      }
    }

    /** Moves the round as the policy prescribes for one terminal event. */
    method ApplyEvent(event: Outcome) returns (verdict: Verdict)
      requires Value().round.Deliverable()
      modifies this`currentIndex, this`state, this`status
      ensures (Value().round, verdict) == Deliver(old(Value().round), event, maxRepairs)
    {
      match event {
        case RunFailed(detail) =>
          var continued := ContinueAfterNonActionFailure(detail);
          if !continued {
            status := Failed;
          }
          return if continued then SettledByFailure else RoundFailed;
        case RunCancelled(_) =>
          status := Cancelled;
          return RoundCancelled;
        case ExitFailed(detail) =>
          var sent := SendBackForRepair(detail);
          if sent {
            return SentBack;
          }
          var continued := ContinueAfterNonActionFailure(detail);
          if !continued {
            status := Failed;
          }
          return if continued then SettledByFailure else RoundFailed;
        case Succeeded(report) =>
          if report.Some? && ReportsRoundResult(roster, currentIndex) {
            state := state.(roundResult := report);
          }
          var (nextIndex, nextState) := AdvanceAfterSuccess(currentIndex, state);
          currentIndex, state := nextIndex, nextState;
          if currentIndex >= |roster| {
            status := Completed;
          }
          return Settled;
      }
    }

    /** Applies one terminal event and logs it. The round after it is the one the policy prescribes,
        and everything the log proves about a round still holds. */
    method Advance(event: Outcome)
      requires Value().round.Deliverable() && Valid(Value(), maxRepairs)
      modifies this
      ensures Value() == Step(old(Value()), event, maxRepairs)
      ensures Valid(Value(), maxRepairs)
    {
      StepKeepsValid(Value(), event, maxRepairs);
      var index := currentIndex;
      var verdict := ApplyEvent(event);
      deliveries := deliveries + [Delivery(index, event, verdict)];
    }

    /** Delivers until the round ends, whatever the daemon answers to the k-th delivery. */
    method DeliverRound(answer: nat -> Outcome)
      requires Valid(Value(), maxRepairs) && deliveries == []
      modifies this
      ensures Valid(Value(), maxRepairs) && !Value().round.Deliverable()
      ensures Value() == Drive(old(Value()), Answers(answer, |deliveries|), maxRepairs)
      ensures |deliveries| <= |roster| + 2 * maxRepairs
    {
      ghost var start := Value();
      while status == Running && currentIndex < |roster|
        invariant Valid(Value(), maxRepairs)
        invariant Value() == Drive(start, Answers(answer, |deliveries|), maxRepairs)
        decreases if Value().round.Deliverable() then Measure(Value().round, maxRepairs) else -1
      {
        NextRun(start, answer, |deliveries|, Value(), maxRepairs);
        Advance(answer(|deliveries|));
      }
    }
  }
}

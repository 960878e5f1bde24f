/** The collaboration policy: what a round does after each delivery.
    Models backend/relay/collaboration/policy.py. */
module Policy {
  import opened Wrappers

  datatype Mode = Action | Ask | Review

  /** One member of the roster. The work fields are absent until the work graph is compiled. */
  datatype Assignment = Assignment(
    assignmentId: string,
    agentId: Option<string>,
    executorKind: Option<string>,
    agent: Option<string>,
    displayName: Option<string>,
    mode: Option<Mode>,
    role: Option<Role>,
    brief: Option<string>,
    coordinator: bool,
    synthesizer: bool,
    work: Work
  ) {
    /** An absent mode means "action". */
    function EffectiveMode(): Mode { mode.GetOr(Action) }

    /** The first name that is present and not empty. */
    function Label(): string {
      if displayName.GetOr("") != "" then displayName.value
      else if executorKind.GetOr("") != "" then executorKind.value
      else if agent.GetOr("") != "" then agent.value
      else "Agent"
    }
  }

  datatype Role = Implementer | Reviewer | Planner | Tester | Fixer

  datatype Work = Work(
    itemId: Option<string>,
    ownerAgentId: Option<string>,
    kind: Option<WorkKind>,
    objective: Option<string>,
    dependsOn: Option<seq<string>>,
    conductorDelegates: bool
  )

  datatype WorkKind =
    | Synthesis | Discussion | ReviewWork | Coordination | Verification | Planning | Repair | Implementation

  datatype FailureEntry = FailureEntry(assignmentId: string, agent: string, mode: Mode, outcome: string)

  datatype ResultStatus = Done | ToContinue | Blocked

  datatype RoundResult = RoundResult(status: ResultStatus, note: Option<string>)

  /** The agent state: the keys the policy owns, and everything else. */
  datatype State = State(
    repairs: Option<nat>,
    resumeIndex: Option<nat>,
    repairNote: Option<string>,
    failures: Option<seq<FailureEntry>>,
    roundResult: Option<RoundResult>,
    rest: map<string, string>
  ) {
    function RepairCount(): nat { repairs.GetOr(0) }
    function Failures(): seq<FailureEntry> { failures.GetOr([]) }
  }

  datatype FailureDecision =
    | SendBack(state: State)
    | Continue(nextIndex: nat, state: State)
    | Fail(state: State)

  predicate CanRepair(hasTask: bool, roster: seq<Assignment>, index: nat, repairs: nat, maxRepairs: nat) {
    && hasTask
    && index > 0
    && |roster| >= 2
    && repairs < maxRepairs
    && roster[0].coordinator
    && roster[0].EffectiveMode() == Action
  }

  function RepairNote(outcome: string, agentLabel: string): string {
    outcome + " You are the coordinator on this task: fix the cause so " + agentLabel
    + " can run again. Do not repeat its work yourself."
  }

  function DecideFailure(
    hasTask: bool, roster: seq<Assignment>, index: nat, state: State,
    outcome: string, agentLabel: string, mode: Mode, maxRepairs: nat
  ): FailureDecision
    requires index < |roster|
  {
    if CanRepair(hasTask, roster, index, state.RepairCount(), maxRepairs) then
      SendBack(state.(
        repairs := Some(state.RepairCount() + 1),
        resumeIndex := Some(index),
        repairNote := Some(RepairNote(outcome, agentLabel))))
    else if mode != Action then
      var entry := FailureEntry(roster[index].assignmentId, agentLabel, mode, outcome);
      Continue(index + 1, state.(failures := Some(state.Failures() + [entry])))
    else
      Fail(state)
  }

  /** The next index, and the state with a finished repair's keys removed. */
  function AdvanceAfterSuccess(index: nat, state: State): (nat, State) {
    if index != 0 || state.resumeIndex.None? then
      (index + 1, state)
    else
      (state.resumeIndex.value, state.(resumeIndex := None, repairNote := None))
  }

  /** The positions, in order, whose assignment is a synthesizer. */
  function SynthesizerPositions(roster: seq<Assignment>): seq<nat> {
    if roster == [] then []
    else
      var last := |roster| - 1;
      SynthesizerPositions(roster[..last]) + if roster[last].synthesizer then [last] else []
  }

  /** Whether the assignment at this index owns the round's aggregate result. */
  predicate ReportsRoundResult(roster: seq<Assignment>, index: int) {
    if index < 0 || index >= |roster| then false
    else if roster[index].EffectiveMode() == Ask then false
    else
      var synthesizers := SynthesizerPositions(roster);
      if synthesizers != [] then
        index == synthesizers[|synthesizers| - 1]
      else
        !exists later :: index < later < |roster| && roster[later].EffectiveMode() != Ask
  }
}

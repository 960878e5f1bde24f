/** What the manifest of a round says of each member, in terms of the roster it was made from.
    Specifies backend/relay/collaboration/service.py independently of how the graph is compiled. */
module WorkGraphItems {
  import opened Wrappers
  import opened Policy
  import opened WorkGraph
  import Text

  ghost predicate DistinctIds(roster: seq<Assignment>) {
    forall i, j :: 0 <= i < j < |roster| ==> roster[i].assignmentId != roster[j].assignmentId
  }

  lemma ItemIs(roster: seq<Assignment>, purpose: Purpose, address: Address, i: nat)
    requires !AllCompiled(roster) && i < |roster|
    ensures
      var items := CreateRoundManifest(roster, purpose, address).items;
      |items| == |roster| && items[i] == ItemOf(CompileOne(roster, purpose, i))
  {
  }

  // ----- who waits for whom

  /** Items stand for the members in their order, and each depends on all items before it, in order,
      if its member synthesizes or the round accomplishes work, and else on none. */
  lemma DependsOnAllOrNone(roster: seq<Assignment>, purpose: Purpose, address: Address, i: nat)
    requires !AllCompiled(roster) && i < |roster|
    ensures
      var items := CreateRoundManifest(roster, purpose, address).items;
      && |items| == |roster|
      && items[i].itemId == items[i].assignmentId == roster[i].assignmentId && items[i].delegated
      && (roster[i].synthesizer || purpose == Accomplish ==>
            && |items[i].dependsOn| == i
            && forall j :: 0 <= j < i ==> items[i].dependsOn[j] == roster[j].assignmentId)
      && (!roster[i].synthesizer && purpose != Accomplish ==> items[i].dependsOn == [])
  {
    ItemIs(roster, purpose, address, i);
  }

  /** Among members with ids of their own, an item depends on another exactly when that comes before
      it and its own member synthesizes or the round accomplishes work. */
  lemma DependsExactly(roster: seq<Assignment>, purpose: Purpose, address: Address, i: nat, j: nat)
    requires !AllCompiled(roster) && DistinctIds(roster) && i < |roster| && j < |roster|
    ensures
      var items := CreateRoundManifest(roster, purpose, address).items;
      && |items| == |roster|
      && (items[j].itemId in items[i].dependsOn <==> j < i && (roster[i].synthesizer || purpose == Accomplish))
  {
    DependsOnAllOrNone(roster, purpose, address, i);
    DependsOnAllOrNone(roster, purpose, address, j);
    var dependsOn := CreateRoundManifest(roster, purpose, address).items[i].dependsOn;
    if j < i && (roster[i].synthesizer || purpose == Accomplish) {
      assert dependsOn[j] == roster[j].assignmentId;
    } else {
      assert forall k :: 0 <= k < |dependsOn| ==> k < i && dependsOn[k] == roster[k].assignmentId;
    }
  }

  // ----- what each member is to do

  /** A member's mode and role as the work calls for them: asked, reviewing, or acting. */
  predicate Asked(a: Assignment) { a.mode == Some(Ask) }

  predicate Reviewing(a: Assignment) { a.mode == Some(Policy.Review) }

  predicate Acts(a: Assignment, role: Option<Role>) {
    !a.synthesizer && !Asked(a) && !Reviewing(a) && !a.coordinator && a.role == role
  }

  /** Each kind of work, and the members that are given it. */
  lemma KindSays(roster: seq<Assignment>, purpose: Purpose, address: Address, i: nat)
    requires !AllCompiled(roster) && i < |roster|
    ensures |CreateRoundManifest(roster, purpose, address).items| == |roster|
    ensures
      var kind, a := CreateRoundManifest(roster, purpose, address).items[i].kind, roster[i];
      && (kind == Synthesis <==> a.synthesizer)
      && (kind == Discussion <==> !a.synthesizer && Asked(a))
      && (kind == ReviewWork <==> (!a.synthesizer && Reviewing(a)) || Acts(a, Some(Reviewer)))
      && (kind == Coordination <==> !a.synthesizer && !Asked(a) && !Reviewing(a) && a.coordinator)
      && (kind == Verification <==> Acts(a, Some(Tester)))
      && (kind == Planning <==> Acts(a, Some(Planner)))
      && (kind == Repair <==> Acts(a, Some(Fixer)))
      && (kind == Implementation <==> Acts(a, None) || Acts(a, Some(Implementer)))
  {
    ItemIs(roster, purpose, address, i);
  }

  /** The owner is the agent, else a stand-in for the executor. */
  lemma OwnerSays(roster: seq<Assignment>, purpose: Purpose, address: Address, i: nat)
    requires !AllCompiled(roster) && i < |roster|
    ensures |CreateRoundManifest(roster, purpose, address).items| == |roster|
    ensures
      var owner, a := CreateRoundManifest(roster, purpose, address).items[i].ownerAgentId, roster[i];
      && owner != ""
      && (a.agentId.GetOr("") != "" ==> Some(owner) == a.agentId)
      && (a.agentId.GetOr("") == "" ==>
            && "legacy-executor:" <= owner
            && (a.executorKind.GetOr("") != "" ==> Some(owner[16..]) == a.executorKind)
            && (a.executorKind.GetOr("") == "" && a.agent.GetOr("") != "" ==> Some(owner[16..]) == a.agent)
            && (a.executorKind.GetOr("") == "" && a.agent.GetOr("") == "" ==> owner[16..] == "unknown"))
  {
    ItemIs(roster, purpose, address, i);
  }

  const ALONE := " as an independently eligible contribution; do not duplicate another item."
  const BEHIND := "; use predecessor results and do not duplicate another item."

  /** An objective that is given stands. Else it is the brief, or a default for the kind of work,
      followed for all but a lone member, the coordinator and a synthesizer by the item's number and
      whether it builds on others. The compiled brief is the objective. */
  lemma ObjectiveSays(roster: seq<Assignment>, purpose: Purpose, address: Address, i: nat)
    requires !AllCompiled(roster) && i < |roster|
    ensures |CreateRoundManifest(roster, purpose, address).items| == |roster| == |Compile(roster, purpose)|
    ensures
      var item, a := CreateRoundManifest(roster, purpose, address).items[i], roster[i];
      var brief := Text.Strip(a.brief.GetOr(""));
      var opening := if brief == "" then DefaultObjective(item.kind) else brief;
      && item.objective != "" && Compile(roster, purpose)[i].brief == Some(item.objective)
      && (a.work.objective.GetOr("") != "" ==> Some(item.objective) == a.work.objective)
      && (a.work.objective.GetOr("") == "" && (|roster| == 1 || a.coordinator || a.synthesizer) ==>
            item.objective == opening)
      && (a.work.objective.GetOr("") == "" && !(|roster| == 1 || a.coordinator || a.synthesizer) ==>
            var place := " Own delegated work item " + Text.Decimal(i + 1) + " of " + Text.Decimal(|roster|);
            item.objective == opening + place + if item.dependsOn == [] then ALONE else BEHIND)
  {
    ItemIs(roster, purpose, address, i);
  }

  // ----- the round as a whole

  /** A lone addressed member is served directly. Otherwise the purpose decides, and discussions and
      reviews end in a synthesis. */
  lemma StrategySays(roster: seq<Assignment>, purpose: Purpose, address: Address)
    ensures
      var m, lone := CreateRoundManifest(roster, purpose, address), address.Members? && |roster| == 1;
      && (m.strategy == Direct <==> lone)
      && (m.strategy == RoomStrategy <==> !lone && purpose == Discuss)
      && (m.strategy == ReviewStrategy <==> !lone && purpose == ReviewPurpose)
      && (m.strategy == Coordinate <==> !lone && purpose == Accomplish)
      && (m.completion == Synthesize <==> !lone && purpose != Accomplish)
  {
  }

  /** A roster that arrives compiled is recorded as it is. */
  lemma CompiledIsRecorded(roster: seq<Assignment>, purpose: Purpose, address: Address, i: nat)
    requires AllCompiled(roster) && i < |roster|
    ensures
      var items := CreateRoundManifest(roster, purpose, address).items;
      && |items| == |roster| && items[i].assignmentId == roster[i].assignmentId
      && Some(items[i].itemId) == roster[i].work.itemId && Some(items[i].ownerAgentId) == roster[i].work.ownerAgentId
      && Some(items[i].kind) == roster[i].work.kind && Some(items[i].objective) == roster[i].work.objective
      && Some(items[i].dependsOn) == roster[i].work.dependsOn
      && items[i].delegated == roster[i].work.conductorDelegates
  {
    assert roster[i] in roster;
  }
}

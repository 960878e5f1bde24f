/** The delegated-work graph of a round, its manifest, and who owns the result.
    Models backend/relay/collaboration/service.py. */
module WorkGraph {
  import opened Wrappers
  import opened Policy
  import Text
  import Round

  datatype Purpose = Accomplish | Discuss | ReviewPurpose

  predicate IsCompiled(a: Assignment) {
    && a.work.itemId.Some? && a.work.ownerAgentId.Some? && a.work.kind.Some?
    && a.work.objective.Some? && a.work.dependsOn.Some?
  }

  function KindOf(a: Assignment): WorkKind {
    if a.synthesizer then Synthesis
    else if a.EffectiveMode() == Ask then Discussion
    else if a.EffectiveMode() == Review then ReviewWork
    else if a.coordinator then Coordination
    else
      match a.role
      case Some(Reviewer) => ReviewWork
      case Some(Tester) => Verification
      case Some(Planner) => Planning
      case Some(Fixer) => Repair
      case _ => Implementation
  }

  function OwnerAgentId(a: Assignment): string {
    if a.agentId.GetOr("") != "" then a.agentId.value
    else
      "legacy-executor:" +
      if a.executorKind.GetOr("") != "" then a.executorKind.value
      else if a.agent.GetOr("") != "" then a.agent.value
      else "unknown"
  }

  function DefaultObjective(kind: WorkKind): (s: string)
    ensures s != ""
  {
    match kind
    case Discussion => "Contribute to the team's discussion."
    case ReviewWork => "Review the accumulated team result."
    case Verification => "Verify the accumulated implementation."
    case Planning => "Plan the delegated team work."
    case Repair => "Repair confirmed defects in the accumulated work."
    case Coordination => "Coordinate the delegated team work."
    case Synthesis => "Synthesize the team's contributions into one result."
    case Implementation => "Implement a distinct part of the shared goal."
  }

  function ObjectiveFor(a: Assignment, index: nat, total: nat, dependencies: seq<string>): (s: string)
    ensures s != ""
  {
    var brief := Text.Strip(a.brief.GetOr(""));
    var objective := if brief != "" then brief else DefaultObjective(KindOf(a));
    var place := " Own delegated work item " + Text.Decimal(index + 1) + " of " + Text.Decimal(total);
    if total <= 1 || a.coordinator || a.synthesizer then objective
    else if dependencies == [] then
      objective + place + " as an independently eligible contribution; do not duplicate another item."
    else
      objective + place + "; use predecessor results and do not duplicate another item."
  }

  /** A synthesizer, and every member of working rounds, waits for all members before it. */
  predicate Waits(a: Assignment, purpose: Purpose) {
    a.synthesizer || purpose == Accomplish
  }

  function Ids(roster: seq<Assignment>): seq<string> {
    seq(|roster|, i requires 0 <= i < |roster| => roster[i].assignmentId)
  }

  function CompileOne(roster: seq<Assignment>, purpose: Purpose, index: nat): (c: Assignment)
    requires index < |roster|
  {
    var a := roster[index];
    var dependencies := if Waits(a, purpose) then Ids(roster)[..index] else [];
    var objective :=
      if a.work.objective.GetOr("") != "" then a.work.objective.value
      else ObjectiveFor(a, index, |roster|, dependencies);
    a.(brief := Some(objective),
       work := Work(Some(a.assignmentId), Some(OwnerAgentId(a)), Some(KindOf(a)), Some(objective),
                    Some(dependencies), true))
  }

  function CompileEach(roster: seq<Assignment>, purpose: Purpose): seq<Assignment> {
    seq(|roster|, i requires 0 <= i < |roster| => CompileOne(roster, purpose, i))
  }

  predicate AllCompiled(roster: seq<Assignment>) {
    roster != [] && forall a :: a in roster ==> IsCompiled(a)
  }

  function Compile(roster: seq<Assignment>, purpose: Purpose): seq<Assignment> {
    if AllCompiled(roster) then roster else CompileEach(roster, purpose)
  }

  /** The compiling loop. */
  method CompileAssignmentWorkGraph(roster: seq<Assignment>, purpose: Purpose) returns (compiled: seq<Assignment>)
    ensures compiled == Compile(roster, purpose)
  {
    if roster != [] && forall a :: a in roster ==> IsCompiled(a) {
      return roster;
    }
    compiled := [];
    for index := 0 to |roster|
      invariant compiled == CompileEach(roster, purpose)[..index]
    {
      compiled := compiled + [CompileOne(roster, purpose, index)];
    }
  }

  /** Taking a compiled roster straight back gives exactly what compiling it again would. */
  lemma RecompilingChangesNothing(roster: seq<Assignment>, purpose: Purpose)
    ensures CompileEach(CompileEach(roster, purpose), purpose) == CompileEach(roster, purpose)
    ensures Compile(Compile(roster, purpose), purpose) == Compile(roster, purpose)
  {
    var once := CompileEach(roster, purpose);
    assert Ids(once) == Ids(roster);
    forall i | 0 <= i < |once|
      ensures CompileOne(once, purpose, i) == once[i]
    {
      assert once[i] == CompileOne(roster, purpose, i);
    }
    assert CompileEach(once, purpose) == once;
  }

  // ----- the graph is acyclic exactly when no waiting member repeats an id

  function DependenciesOf(a: Assignment): seq<string> { a.work.dependsOn.GetOr([]) }

  ghost predicate Edge(graph: seq<Assignment>, from: string, to: string) {
    exists i :: 0 <= i < |graph| && graph[i].work.itemId == Some(to) && from in DependenciesOf(graph[i])
  }

  ghost predicate IsPath(graph: seq<Assignment>, path: seq<string>) {
    |path| >= 2 && forall i :: 0 <= i < |path| - 1 ==> Edge(graph, path[i], path[i + 1])
  }

  ghost predicate Acyclic(graph: seq<Assignment>) {
    forall path :: IsPath(graph, path) ==> path[0] != path[|path| - 1]
  }

  predicate NoWaitingRepeat(roster: seq<Assignment>, purpose: Purpose) {
    forall i, j :: 0 <= i < j < |roster| && roster[i].assignmentId == roster[j].assignmentId ==>
      !Waits(roster[j], purpose)
  }

  /** Where an id first appears. */
  function Rank(roster: seq<Assignment>, id: string): (r: nat)
    ensures r <= |roster|
    ensures r < |roster| ==> roster[r].assignmentId == id
    ensures forall i :: 0 <= i < r ==> roster[i].assignmentId != id
  {
    if roster == [] || roster[0].assignmentId == id then 0 else 1 + Rank(roster[1..], id)
  }

  lemma EdgeRaisesRank(roster: seq<Assignment>, purpose: Purpose, from: string, to: string)
    requires NoWaitingRepeat(roster, purpose)
    requires Edge(CompileEach(roster, purpose), from, to)
    ensures Rank(roster, from) < Rank(roster, to)
  {
    var i, j := EdgeEnds(roster, purpose, from, to);
    assert Rank(roster, from) <= i;
    assert Rank(roster, to) == j;
  }

  /** An edge leads from a member to a waiting one behind it. */
  lemma EdgeEnds(roster: seq<Assignment>, purpose: Purpose, from: string, to: string) returns (i: nat, j: nat)
    requires Edge(CompileEach(roster, purpose), from, to)
    ensures i < j < |roster| && Waits(roster[j], purpose)
    ensures roster[i].assignmentId == from && roster[j].assignmentId == to
  {
    var graph := CompileEach(roster, purpose);
    j :| 0 <= j < |graph| && graph[j].work.itemId == Some(to) && from in DependenciesOf(graph[j]);
    assert graph[j] == CompileOne(roster, purpose, j) && Waits(roster[j], purpose);
    i :| 0 <= i < j && Ids(roster)[i] == from;
  }

  lemma {:induction false} PathRaisesRank(roster: seq<Assignment>, purpose: Purpose, path: seq<string>)
    requires NoWaitingRepeat(roster, purpose) && IsPath(CompileEach(roster, purpose), path)
    ensures Rank(roster, path[0]) < Rank(roster, path[|path| - 1])
    decreases |path|
  {
    EdgeRaisesRank(roster, purpose, path[0], path[1]);
    if |path| > 2 {
      forall i | 0 <= i < |path[1..]| - 1
        ensures Edge(CompileEach(roster, purpose), path[1..][i], path[1..][i + 1])
      {
        assert Edge(CompileEach(roster, purpose), path[i + 1], path[i + 1 + 1]);
      }
      PathRaisesRank(roster, purpose, path[1..]);
    }
  }

  lemma AcyclicExactlyWhen(roster: seq<Assignment>, purpose: Purpose)
    ensures Acyclic(CompileEach(roster, purpose)) <==> NoWaitingRepeat(roster, purpose)
  {
    var graph := CompileEach(roster, purpose);
    if NoWaitingRepeat(roster, purpose) {
      forall path | IsPath(graph, path)
        ensures path[0] != path[|path| - 1]
      {
        PathRaisesRank(roster, purpose, path);
      }
    } else {
      var i, j :| 0 <= i < j < |roster| && roster[i].assignmentId == roster[j].assignmentId
                  && Waits(roster[j], purpose);
      var id := roster[j].assignmentId;
      assert graph[j] == CompileOne(roster, purpose, j) && Ids(roster)[..j][i] == id;
      assert Edge(graph, id, id);
      assert IsPath(graph, [id, id]);
    }
  }

  // ----- every delivery finds its dependencies settled

  ghost predicate DependenciesSettled(graph: seq<Assignment>, log: seq<Round.Delivery>, k: nat)
    requires k < |log|
  {
    && log[k].index < |graph|
    && forall id :: id in DependenciesOf(graph[log[k].index]) ==>
         exists j :: j in Round.SettledBy(log[..k]) && 0 <= j < |graph| && graph[j].work.itemId == Some(id)
  }

  /** However a round on the graph goes, every item delivered depends only on settled items. */
  ghost predicate Respected(graph: seq<Assignment>) {
    forall hasTask, rest, outcomes, maxRepairs: nat, k: nat ::
      k < |LogOf(hasTask, graph, rest, outcomes, maxRepairs)| ==>
        DependenciesSettled(graph, LogOf(hasTask, graph, rest, outcomes, maxRepairs), k)
  }

  function LogOf(
    hasTask: bool, graph: seq<Assignment>, rest: map<string, string>, outcomes: seq<Round.Outcome>, maxRepairs: nat
  ): seq<Round.Delivery> {
    Round.Drive(Round.Start(hasTask, graph, rest), outcomes, maxRepairs).log
  }

  ghost predicate IsItem(graph: seq<Assignment>, j: nat, id: string) {
    j < |graph| && graph[j].work.itemId == Some(id)
  }

  /** Every item depends only on items before it. */
  ghost predicate Backward(graph: seq<Assignment>) {
    forall i, id :: 0 <= i < |graph| && id in DependenciesOf(graph[i]) ==>
      exists j: nat :: j < i && IsItem(graph, j, id)
  }

  lemma CompiledIsBackward(roster: seq<Assignment>, purpose: Purpose)
    ensures Backward(CompileEach(roster, purpose))
  {
    var graph := CompileEach(roster, purpose);
    forall i, id | 0 <= i < |graph| && id in DependenciesOf(graph[i])
      ensures exists j: nat :: j < i && IsItem(graph, j, id)
    {
      assert graph[i] == CompileOne(roster, purpose, i);
      var j :| 0 <= j < i && Ids(roster)[..i][j] == id;
      assert IsItem(graph, j, id);
    }
  }

  /** A delivery of index i, not counting repairs, comes when just the items before i are settled. */
  lemma SettledBefore(
    hasTask: bool, graph: seq<Assignment>, rest: map<string, string>, outcomes: seq<Round.Outcome>, maxRepairs: nat,
    k: nat
  )
    requires k < |LogOf(hasTask, graph, rest, outcomes, maxRepairs)|
    ensures
      var log := LogOf(hasTask, graph, rest, outcomes, maxRepairs);
      log[k].index < |graph| && forall j: nat :: j < log[k].index ==> j in Round.SettledBy(log[..k])
  {
    var start := Round.Start(hasTask, graph, rest);
    Round.StartIsWellLogged(hasTask, graph, rest, maxRepairs);
    Round.DriveKeeps(start, outcomes, maxRepairs);
    var log := LogOf(hasTask, graph, rest, outcomes, maxRepairs);
    assert Round.OrderedAt(log, k) && log[k] in log;
    forall j: nat | j < log[k].index
      ensures j in Round.SettledBy(log[..k])
    {
      assert Round.SettledBy(log[..k])[j] == j;
    }
  }

  /** However a round on a backward graph goes, repairs and resumed retries included, every item
      delivered depends only on items settled before that delivery. */
  lemma BackwardIsRespected(graph: seq<Assignment>)
    requires Backward(graph)
    ensures Respected(graph)
  {
    forall hasTask, rest, outcomes, maxRepairs: nat, k: nat | k < |LogOf(hasTask, graph, rest, outcomes, maxRepairs)|
      ensures DependenciesSettled(graph, LogOf(hasTask, graph, rest, outcomes, maxRepairs), k)
    {
      SettledBefore(hasTask, graph, rest, outcomes, maxRepairs, k);
      var log := LogOf(hasTask, graph, rest, outcomes, maxRepairs);
      forall id | id in DependenciesOf(graph[log[k].index])
        ensures exists j :: j in Round.SettledBy(log[..k]) && 0 <= j < |graph| && graph[j].work.itemId == Some(id)
      {
        var j: nat :| j < log[k].index && IsItem(graph, j, id);
      }
    }
  }

  /** Successes alone deliver the items in order. */
  lemma SuccessesDeliver(graph: seq<Assignment>, i: nat)
    requires i < |graph|
    ensures
      var log := LogOf(false, graph, map[], seq(i + 1, _ => Round.DONE), 0);
      && i < |log| && forall j :: j in Round.SettledBy(log[..i]) ==> 0 <= j < i
  {
    var start, outcomes := Round.Start(false, graph, map[]), seq(i + 1, _ => Round.DONE);
    Round.SuccessesInOrder(start, i + 1, 0);
    Round.StartIsWellLogged(false, graph, map[], 0);
    Round.DriveKeeps(start, outcomes, 0);
    var log := Round.Drive(start, outcomes, 0).log;
    assert Round.OrderedAt(log, i);
    Round.SettledIsNoLonger(log[..i]);
  }

  lemma RespectedIsBackward(graph: seq<Assignment>)
    requires Respected(graph)
    ensures Backward(graph)
  {
    forall i: nat, id | i < |graph| && id in DependenciesOf(graph[i])
      ensures exists j: nat :: j < i && IsItem(graph, j, id)
    {
      SuccessesDeliver(graph, i);
      var log := LogOf(false, graph, map[], seq(i + 1, _ => Round.DONE), 0);
      SuccessesIndex(graph, i);
      assert DependenciesSettled(graph, log, i);
      var j :| j in Round.SettledBy(log[..i]) && 0 <= j < |graph| && graph[j].work.itemId == Some(id);
      assert IsItem(graph, j, id);
    }
  }

  lemma SuccessesIndex(graph: seq<Assignment>, i: nat)
    requires i < |graph|
    ensures
      var log := LogOf(false, graph, map[], seq(i + 1, _ => Round.DONE), 0);
      i < |log| && log[i].index == i
  {
    Round.SuccessesInOrder(Round.Start(false, graph, map[]), i + 1, 0);
  }

  /** Whatever graph a round runs on, its deliveries respect the dependencies, however the round
      goes, exactly when every item depends only on items before it. */
  lemma RespectedExactlyWhenBackward(graph: seq<Assignment>)
    ensures Respected(graph) <==> Backward(graph)
  {
    if Backward(graph) {
      BackwardIsRespected(graph);
    } else if Respected(graph) {
      RespectedIsBackward(graph);
    }
  }

  /** A roster that arrives uncompiled is always safe; one that arrives compiled is taken as it is,
      and is safe exactly when its items depend only on items before them. */
  lemma DeliveriesRespectDependencies(roster: seq<Assignment>, purpose: Purpose)
    ensures Respected(Compile(roster, purpose)) <==> (AllCompiled(roster) ==> Backward(roster))
  {
    RespectedExactlyWhenBackward(Compile(roster, purpose));
    CompiledIsBackward(roster, purpose);
  }

  lemma ItemsApart(graph: seq<Assignment>, i: nat, j: nat, id: string)
    requires DistinctItems(graph) && IsItem(graph, i, id) && IsItem(graph, j, id)
    ensures i == j
  {
  }

  ghost predicate DistinctItems(graph: seq<Assignment>) {
    forall i, j :: 0 <= i < j < |graph| && graph[i].work.itemId.Some? ==> graph[i].work.itemId != graph[j].work.itemId
  }

  lemma {:induction false} BackwardPath(graph: seq<Assignment>, path: seq<string>) returns (first: nat, last: nat)
    requires Backward(graph) && DistinctItems(graph) && IsPath(graph, path)
    ensures first < last && IsItem(graph, first, path[0]) && IsItem(graph, last, path[|path| - 1])
    decreases |path|
  {
    assert Edge(graph, path[0], path[1]);
    var next: nat :|
      next < |graph| && graph[next].work.itemId == Some(path[1]) && path[0] in DependenciesOf(graph[next]);
    var j: nat :| j < next && IsItem(graph, j, path[0]);
    first, last := j, next;
    if |path| > 2 {
      forall i | 0 <= i < |path[1..]| - 1
        ensures Edge(graph, path[1..][i], path[1..][i + 1])
      {
        assert Edge(graph, path[i + 1], path[i + 1 + 1]);
      }
      var second, end := BackwardPath(graph, path[1..]);
      ItemsApart(graph, next, second, path[1]);
      last := end;
    }
  }

  /** A graph that arrives compiled has no cycle when its items are distinct and depend only on items
      before them. */
  lemma BackwardIsAcyclic(graph: seq<Assignment>)
    requires Backward(graph) && DistinctItems(graph)
    ensures Acyclic(graph)
  {
    forall path | IsPath(graph, path)
      ensures path[0] != path[|path| - 1]
    {
      var first, last := BackwardPath(graph, path);
    }
  }

  // ----- the manifest and the owner of the result

  datatype Address = Members(agentIds: seq<string>) | Room

  datatype Strategy = Direct | RoomStrategy | ReviewStrategy | Coordinate

  datatype Completion = Synthesize | AllRequired

  datatype WorkItem = WorkItem(
    itemId: string, assignmentId: string, ownerAgentId: string, delegated: bool, kind: WorkKind,
    objective: string, dependsOn: seq<string>)

  datatype Manifest = Manifest(
    strategy: Strategy, items: seq<WorkItem>, completion: Completion, resultOwner: Option<string>)

  function StrategyFor(address: Address, members: nat, purpose: Purpose): Strategy {
    if address.Members? && members == 1 then Direct
    else match purpose
      case Discuss => RoomStrategy
      case ReviewPurpose => ReviewStrategy
      case Accomplish => Coordinate
  }

  function ItemOf(a: Assignment): WorkItem
    requires IsCompiled(a)
  {
    WorkItem(a.work.itemId.value, a.assignmentId, a.work.ownerAgentId.value, a.work.conductorDelegates,
             a.work.kind.value, a.work.objective.value, a.work.dependsOn.value)
  }

  function Keep(roster: seq<Assignment>, p: Assignment -> bool): seq<Assignment> {
    if roster == [] then []
    else
      var last := roster[|roster| - 1];
      Keep(roster[..|roster| - 1], p) + if p(last) then [last] else []
  }

  predicate Synthesizes(a: Assignment) { a.synthesizer }

  predicate Writes(a: Assignment) { a.EffectiveMode() != Ask }

  function ResultOwnerWorkItem(roster: seq<Assignment>): Option<string> {
    var synthesizers := Keep(roster, Synthesizes);
    if synthesizers != [] then synthesizers[|synthesizers| - 1].work.itemId
    else
      var writable := Keep(roster, Writes);
      if writable != [] then writable[|writable| - 1].work.itemId
      else if roster != [] then roster[|roster| - 1].work.itemId
      else None
  }

  function CreateRoundManifest(roster: seq<Assignment>, purpose: Purpose, address: Address): Manifest {
    var compiled := Compile(roster, purpose);
    var strategy := StrategyFor(address, |roster|, purpose);
    Manifest(
      strategy,
      seq(|compiled|, i requires 0 <= i < |compiled| => assert compiled[i] in compiled; ItemOf(compiled[i])),
      if strategy in {RoomStrategy, ReviewStrategy} then Synthesize else AllRequired,
      ResultOwnerWorkItem(compiled))
  }

  ghost predicate LastWith(roster: seq<Assignment>, p: Assignment -> bool, i: nat) {
    i < |roster| && p(roster[i]) && forall j :: i < j < |roster| ==> !p(roster[j])
  }

  lemma {:induction false} KeepEndsWithLast(roster: seq<Assignment>, p: Assignment -> bool, i: nat)
    requires LastWith(roster, p, i)
    ensures Keep(roster, p) != [] && Keep(roster, p)[|Keep(roster, p)| - 1] == roster[i]
    decreases |roster|
  {
    if i < |roster| - 1 {
      KeepEndsWithLast(roster[..|roster| - 1], p, i);
    }
  }

  lemma {:induction false} KeepsNone(roster: seq<Assignment>, p: Assignment -> bool)
    requires forall i :: 0 <= i < |roster| ==> !p(roster[i])
    ensures Keep(roster, p) == []
  {
    if roster != [] {
      KeepsNone(roster[..|roster| - 1], p);
    }
  }

  lemma {:induction false} PositionsEndWithLast(roster: seq<Assignment>)
    ensures SynthesizerPositions(roster) == [] <==> forall a :: a in roster ==> !a.synthesizer
    ensures SynthesizerPositions(roster) != [] ==>
      LastWith(roster, Synthesizes, SynthesizerPositions(roster)[|SynthesizerPositions(roster)| - 1])
  {
    if roster != [] {
      var front := roster[..|roster| - 1];
      PositionsEndWithLast(front);
      assert roster == front + [roster[|roster| - 1]];
    }
  }

  /** The member both files mean: the last synthesizer, else the last writer, else the last member. */
  ghost predicate IsOwner(roster: seq<Assignment>, o: nat) {
    if exists a :: a in roster && a.synthesizer then LastWith(roster, Synthesizes, o)
    else if exists a :: a in roster && a.EffectiveMode() != Ask then LastWith(roster, Writes, o)
    else roster != [] && o == |roster| - 1
  }

  lemma {:induction false} LastExists(roster: seq<Assignment>, p: Assignment -> bool) returns (i: nat)
    requires exists a :: a in roster && p(a)
    ensures LastWith(roster, p, i)
    decreases |roster|
  {
    i := |roster| - 1;
    if !p(roster[i]) {
      var a :| a in roster && p(a);
      assert roster == roster[..i] + [roster[i]];
      i := LastExists(roster[..i], p);
    }
  }

  lemma OwnerExists(roster: seq<Assignment>) returns (o: nat)
    requires roster != []
    ensures IsOwner(roster, o)
  {
    if a :| a in roster && a.synthesizer {
      assert Synthesizes(a);
      o := LastExists(roster, Synthesizes);
    } else if a :| a in roster && a.EffectiveMode() != Ask {
      assert Writes(a);
      o := LastExists(roster, Writes);
    } else {
      o := |roster| - 1;
    }
  }

  /** The policy and the manifest name the same owner. The manifest's owner is the only member
      that can report, and it does report exactly when it is not in ask mode. */
  lemma ResultOwnersAgree(roster: seq<Assignment>, o: nat, index: int)
    requires IsOwner(roster, o)
    ensures o < |roster| && ResultOwnerWorkItem(roster) == roster[o].work.itemId
    ensures ReportsRoundResult(roster, index) <==> index == o && roster[o].EffectiveMode() != Ask
  {
    PositionsEndWithLast(roster);
    if exists a :: a in roster && a.synthesizer {
      KeepEndsWithLast(roster, Synthesizes, o);
    } else {
      KeepsNone(roster, Synthesizes);
      if exists a :: a in roster && a.EffectiveMode() != Ask {
        KeepEndsWithLast(roster, Writes, o);
      } else {
        KeepsNone(roster, Writes);
      }
    }
  }

  /** In a manifest over distinct ids the owner's id picks out the one member that reports, whether
      the roster arrives compiled or not, if work items carry the ids of their assignments. */
  lemma ManifestOwnerReports(roster: seq<Assignment>, purpose: Purpose, address: Address, index: nat)
    requires index < |roster|
    requires forall i, j :: 0 <= i < j < |roster| ==> roster[i].assignmentId != roster[j].assignmentId
    requires forall i :: 0 <= i < |roster| && roster[i].work.itemId.Some? ==>
      roster[i].work.itemId == Some(roster[i].assignmentId)
    ensures ReportsRoundResult(Compile(roster, purpose), index) <==>
      && CreateRoundManifest(roster, purpose, address).resultOwner == Some(roster[index].assignmentId)
      && roster[index].EffectiveMode() != Ask
  {
    var graph := Compile(roster, purpose);
    var o := OwnerExists(graph);
    ResultOwnersAgree(graph, o, index);
    CompiledKeepsRoles(roster, purpose, index);
    CompiledKeepsRoles(roster, purpose, o);
    assert AllCompiled(roster) ==> roster[o] in roster && roster[index] in roster;
  }

  /** With no synthesizer and some member that writes, exactly one member reports. */
  lemma JustOneReports(roster: seq<Assignment>, writer: Assignment) returns (o: nat)
    requires forall a :: a in roster ==> !a.synthesizer
    requires writer in roster && writer.EffectiveMode() != Ask
    ensures forall i: int :: ReportsRoundResult(roster, i) <==> i == o
  {
    o := OwnerExists(roster);
    forall i: int
      ensures ReportsRoundResult(roster, i) <==> i == o
    {
      ResultOwnersAgree(roster, o, i);
    }
  }

  lemma CompiledKeepsRoles(roster: seq<Assignment>, purpose: Purpose, i: nat)
    requires i < |roster|
    ensures
      var c := CompileEach(roster, purpose)[i];
      && c.EffectiveMode() == roster[i].EffectiveMode() && c.synthesizer == roster[i].synthesizer
      && c.work.itemId == Some(roster[i].assignmentId)
      && IsCompiled(c)
  {
  }
}

/** The canonical payload whose digest identifies a message intent.
    Models _prepare and _request_fingerprint in backend/relay/collaboration/service.py; the
    digest itself is injective, so the payload is compared. */
module Fingerprint {
  import opened Wrappers
  import opened Sequences
  import Policy
  import WorkGraph
  import Text

  datatype MessageIntent = MessageIntent(
    threadId: string,
    text: string,
    purpose: WorkGraph.Purpose,
    addressAgentIds: seq<string>,
    idempotencyKey: Option<string>,
    userMessageId: Option<string>)

  datatype RawAssignment = RawAssignment(agentId: string, mode: Policy.Mode)

  datatype PreparedRound = PreparedRound(
    taskGoal: string,
    sessionId: string,
    rawAssignments: Option<seq<RawAssignment>>,
    mode: Policy.Mode,
    idempotencyKey: Option<string>,
    userMessageId: Option<string>,
    purpose: WorkGraph.Purpose,
    address: WorkGraph.Address)

  function PurposeMode(purpose: WorkGraph.Purpose): Policy.Mode {
    match purpose
    case Accomplish => Policy.Action
    case Discuss => Policy.Ask
    case ReviewPurpose => Policy.Review
  }

  function AssignAll(ids: seq<string>, mode: Policy.Mode): seq<RawAssignment> {
    if ids == [] then [] else [RawAssignment(ids[0], mode)] + AssignAll(ids[1..], mode)
  }

  function Prepare(intent: MessageIntent): PreparedRound {
    var addressed := Dedup(intent.addressAgentIds);
    var mode := PurposeMode(intent.purpose);
    PreparedRound(
      intent.text,
      intent.threadId,
      if addressed != [] then Some(AssignAll(addressed, mode)) else None,
      mode,
      if intent.idempotencyKey.GetOr("") != "" then intent.idempotencyKey else intent.userMessageId,
      intent.userMessageId,
      intent.purpose,
      if addressed != [] then WorkGraph.Members(addressed) else WorkGraph.Room)
  }

  /** A message becomes a round in the mode of its purpose, for the agents it addresses, each once, or
      for the room if it addresses none; its key is the one it carries, else its message id. */
  lemma PreparedSays(intent: MessageIntent)
    ensures
      var round := Prepare(intent);
      && round.taskGoal == intent.text && round.sessionId == intent.threadId
      && round.userMessageId == intent.userMessageId && round.purpose == intent.purpose
      && (round.mode == Policy.Ask <==> intent.purpose == WorkGraph.Discuss)
      && (round.mode == Policy.Review <==> intent.purpose == WorkGraph.ReviewPurpose)
      && (round.idempotencyKey ==
          if intent.idempotencyKey == None || intent.idempotencyKey == Some("") then intent.userMessageId
          else intent.idempotencyKey)
      && (intent.addressAgentIds == [] ==> round.rawAssignments == None && round.address == WorkGraph.Room)
      && (intent.addressAgentIds != [] ==>
            && round.address.Members? && round.rawAssignments.Some?
            && |round.rawAssignments.value| == |round.address.agentIds|
            && Distinct(round.address.agentIds)
            && (forall x :: x in round.address.agentIds <==> x in intent.addressAgentIds)
            && forall i :: 0 <= i < |round.address.agentIds| ==>
                 round.rawAssignments.value[i] == RawAssignment(round.address.agentIds[i], round.mode))
  {
    DedupKeepsElements(intent.addressAgentIds);
    if intent.addressAgentIds != [] {
      assert intent.addressAgentIds[0] in intent.addressAgentIds;
    }
    AssignAllAt(Dedup(intent.addressAgentIds), PurposeMode(intent.purpose));
  }

  lemma {:induction false} AssignAllAt(ids: seq<string>, mode: Policy.Mode)
    ensures |AssignAll(ids, mode)| == |ids|
    ensures forall i :: 0 <= i < |ids| ==> AssignAll(ids, mode)[i] == RawAssignment(ids[i], mode)
  {
    if ids != [] {
      AssignAllAt(ids[1..], mode);
    }
  }

  /** sorted() with the agent id as key keeps the order of equal keys. */
  function InsertRaw(x: RawAssignment, s: seq<RawAssignment>): seq<RawAssignment> {
    if s == [] || Text.Before(x.agentId, s[0].agentId) then [x] + s else [s[0]] + InsertRaw(x, s[1..])
  }

  function SortRaw(s: seq<RawAssignment>): seq<RawAssignment> {
    if s == [] then [] else InsertRaw(s[0], SortRaw(s[1..]))
  }

  /** What is hashed: the intent without its key, its addressed agents in a fixed order. */
  function Payload(round: PreparedRound): PreparedRound {
    round.(
      idempotencyKey := None,
      address :=
        if round.address.Members? then WorkGraph.Members(Sort(round.address.agentIds)) else round.address,
      rawAssignments :=
        if round.rawAssignments.Some? then Some(SortRaw(round.rawAssignments.value)) else None)
  }

  lemma {:induction false} InsertRawIsInsert(x: string, ids: seq<string>, mode: Policy.Mode)
    ensures InsertRaw(RawAssignment(x, mode), AssignAll(ids, mode)) == AssignAll(Insert(x, ids), mode)
  {
    if ids != [] && !Text.Before(x, ids[0]) {
      InsertRawIsInsert(x, ids[1..], mode);
      assert Insert(x, ids)[1..] == Insert(x, ids[1..]);
    } else {
      assert ([x] + ids)[1..] == ids;
    }
  }

  lemma {:induction false} SortRawIsSort(ids: seq<string>, mode: Policy.Mode)
    ensures SortRaw(AssignAll(ids, mode)) == AssignAll(Sort(ids), mode)
  {
    if ids != [] {
      assert AssignAll(ids, mode)[1..] == AssignAll(ids[1..], mode);
      SortRawIsSort(ids[1..], mode);
      InsertRawIsInsert(ids[0], Sort(ids[1..]), mode);
    }
  }

  /** Two message intents are the same request exactly when they say the same thing, carry the
      same message id, and address the same set of agents, whatever the order, the repetitions
      and the idempotency keys. */
  lemma FingerprintIsCanonical(a: MessageIntent, b: MessageIntent)
    ensures Payload(Prepare(a)) == Payload(Prepare(b)) <==>
      && a.threadId == b.threadId && a.text == b.text && a.purpose == b.purpose
      && a.userMessageId == b.userMessageId
      && (forall x :: x in a.addressAgentIds <==> x in b.addressAgentIds)
  {
    var idsA, idsB := Dedup(a.addressAgentIds), Dedup(b.addressAgentIds);
    SortedDedupIsCanonical(a.addressAgentIds, b.addressAgentIds);
    SortRawIsSort(idsA, PurposeMode(a.purpose));
    SortRawIsSort(idsB, PurposeMode(b.purpose));
    SortSorts(idsA);
    SortSorts(idsB);
    assert idsA == [] <==> Sort(idsA) == [] by {
      assert |multiset(Sort(idsA))| == |multiset(idsA)|;
    }
    assert idsB == [] <==> Sort(idsB) == [] by {
      assert |multiset(Sort(idsB))| == |multiset(idsB)|;
    }
  }
}

/** What an update, an archive and a creation leave in a project, field by field, and what a field
    holds after any run. Specifies backend/relay/persistence/project_store.py independently of how a
    change is applied. */
module ProjectChanges {
  import opened Wrappers
  import opened Projects
  import opened ProjectLedger
  import Text

  // ----- one change

  /** Every field the patch names has the patch's value; every other field is as it was. */
  ghost predicate Patched(was: Project, patch: Patch, at: Time, now: Project) {
    && (patch.name.Some? ==> now.name == patch.name.value) && (patch.name.None? ==> now.name == was.name)
    && (patch.lead.Some? ==> now.lead == patch.lead.value) && (patch.lead.None? ==> now.lead == was.lead)
    && (patch.members.Some? ==> now.members == patch.members.value)
    && (patch.members.None? ==> now.members == was.members)
    && (patch.enabled.Some? ==> now.enabled == patch.enabled.value)
    && (patch.enabled.None? ==> now.enabled == was.enabled)
    && now.version == was.version + 1 && now.updatedAt == at
    && SameIdentity(was, now) && now.archivedAt == was.archivedAt
  }

  /** Disabled and dated; nothing else is different. */
  ghost predicate ArchivedAs(was: Project, at: Time, now: Project) {
    && !now.enabled && now.archivedAt == Some(at) && now.updatedAt == at && now.version == was.version + 1
    && SameIdentity(was, now) && now.name == was.name && now.lead == was.lead && now.members == was.members
  }

  /** The tables hold the project, its columns, its member rows and its last event. */
  ghost predicate Stored(db: Db, fold: Fold, p: Project, event: Event) {
    && p.id in db.projects && p.version > 0
    && var row := db.projects[p.id];
       && row.snapshot == p && row.eventVersion == p.version
       && row.owner == p.owner && row.name == p.name && row.nameKey == fold(p.name) && row.lead == p.lead
       && row.computerId == p.computerId && row.workspaceSubpath == p.workspaceSubpath && row.enabled == p.enabled
       && row.createdAt == p.createdAt && row.updatedAt == p.updatedAt && row.archivedAt == p.archivedAt
       && (p.id, p.version - 1) in db.events && db.events[(p.id, p.version - 1)] == event
       && RowsAre(db.members, p)
  }

  /** A project's member rows are its members at their positions, enabled unless they say otherwise. */
  ghost predicate RowsAre(rows: map<(string, string), MemberRow>, p: Project) {
    && (forall agent :: (p.id, agent) in rows <==> exists i :: 0 <= i < |p.members| && p.members[i].agentId == agent)
    && forall i :: 0 <= i < |p.members| ==>
         var m := p.members[i];
         && (p.id, m.agentId) in rows
         && rows[(p.id, m.agentId)] == MemberRow(m.role, m.functionTitle, m.responsibilities, m.instructions,
                                                 m.enabled != Some(false), i)
  }

  lemma MembersAreRows(rows: map<(string, string), MemberRow>, p: Project)
    requires MembersOk(rows, p.id, p.members)
    ensures RowsAre(rows, p)
  {
    forall i | 0 <= i < |p.members|
      ensures
        var m := p.members[i];
        MemberRowOf(m, i)
        == MemberRow(m.role, m.functionTitle, m.responsibilities, m.instructions, m.enabled != Some(false), i)
    {
    }
  }

  lemma CommitStores(db: Db, fold: Fold, p: Project, event: Event)
    requires p.version > 0 && Commit(db, fold, p, p.version - 1, event).Ok?
    ensures Stored(Commit(db, fold, p, p.version - 1, event).value, fold, p, event)
  {
    ReplaceMembersIs(db.members, p);
    MembersAreRows(Commit(db, fold, p, p.version - 1, event).value.members, p);
  }

  lemma AppliedSays(change: Change, was: Project)
    ensures change.Update? ==> Patched(was, change.patch, change.at, Apply(change, was))
    ensures change.Archive? ==> ArchivedAs(was, change.at, Apply(change, was))
  {
  }

  lemma MutationCommits(db: Db, fold: Fold, id: string, expected: nat, change: Change)
    requires Valid(db, fold) && Mutate(db, fold, id, expected, change).1.Ok?
    ensures id in db.projects && db.projects[id].snapshot.archivedAt.None? && db.projects[id].snapshot.id == id
    ensures
      var (after, result) := Mutate(db, fold, id, expected, change);
      var was, p := db.projects[id].snapshot, result.value;
      && p == Apply(change, was) && was.version == expected && p.version == expected + 1
      && Commit(db, fold, p, expected, EventFor(change, p)) == Ok(after)
  {
    assert ProjectOk(db, fold, id);
  }

  /** A mutation that succeeds: what it made of the project it read, and what it stored. */
  lemma MutationSays(db: Db, fold: Fold, id: string, expected: nat, change: Change)
    requires Valid(db, fold) && Mutate(db, fold, id, expected, change).1.Ok?
    ensures
      var (after, result) := Mutate(db, fold, id, expected, change);
      && id in db.projects && db.projects[id].snapshot.archivedAt.None?
      && var was, now := db.projects[id].snapshot, result.value;
         && was.version == expected && now.id == id
         && (change.Update? ==>
               Patched(was, change.patch, change.at, now) && Stored(after, fold, now, Updated(change.patch, now)))
         && (change.Archive? ==> ArchivedAs(was, change.at, now) && Stored(after, fold, now, Archived(now)))
  {
    MutationCommits(db, fold, id, expected, change);
    var p := Mutate(db, fold, id, expected, change).1.value;
    AppliedSays(change, db.projects[id].snapshot);
    CommitStores(db, fold, p, EventFor(change, p));
  }

  /** Another live project of this owner has the name. */
  ghost predicate NameTakenBy(db: Db, fold: Fold, owner: string, id: string, name: string) {
    exists q :: q in db.projects && q != id && db.projects[q].archivedAt.None?
      && db.projects[q].owner == owner && db.projects[q].nameKey == fold(name)
  }

  /** Two of these members are one agent. */
  ghost predicate RepeatsAgent(members: seq<Member>) {
    exists i, j :: 0 <= i < |members| && 0 <= j < |members| && i != j && members[i].agentId == members[j].agentId
  }

  lemma RepeatsOrNot(members: seq<Member>)
    ensures RepeatsAgent(members) <==> !DistinctAgents(members)
  {
  }

  /** Why an update is refused, in the order of the checks. */
  lemma UpdateRefusedExactly(db: Db, fold: Fold, id: string, expected: nat, patch: Patch, at: Time)
    requires Valid(db, fold)
    ensures
      var result := Mutate(db, fold, id, expected, Update(patch, at)).1;
      if id !in db.projects then result == Err(NotFound)
      else
        var was := db.projects[id].snapshot;
        var lead, name, members :=
          patch.lead.GetOr(was.lead), patch.name.GetOr(was.name), patch.members.GetOr(was.members);
        if was.archivedAt.Some? || was.version != expected then result == Err(VersionConflict)
        else if lead.None? then result == Err(IntegrityFailure)
        else if NameTakenBy(db, fold, was.owner, id, name) then result == Err(NameTaken)
        else if RepeatsAgent(members) then result == Err(IntegrityFailure)
        else result.Ok?
  {
    if id in db.projects {
      assert ProjectOk(db, fold, id);
      RepeatsOrNot(patch.members.GetOr(db.projects[id].snapshot.members));
    }
  }

  /** An archive of a live project at the expected version is never refused. */
  lemma ArchiveRefusedExactly(db: Db, fold: Fold, id: string, expected: nat, at: Time)
    requires Valid(db, fold)
    ensures
      var result := Mutate(db, fold, id, expected, Archive(at)).1;
      if id !in db.projects then result == Err(NotFound)
      else if db.projects[id].snapshot.archivedAt.Some? || db.projects[id].snapshot.version != expected
      then result == Err(VersionConflict)
      else result.Ok?
  {
    if id in db.projects {
      assert ProjectOk(db, fold, id);
    }
  }

  // ----- what arrives

  /** A text once stripped, if it is one, and neither empty nor too long. */
  ghost predicate NameReads(value: Json, name: string) {
    value.Str? && name == Text.Strip(value.s) && 1 <= |name| <= 120
  }

  /** When a patch is accepted, and what is made of it: its name stripped and nothing else changed. */
  lemma NormalizedExactly(raw: RawPatch)
    ensures NormalizePatch(raw).Ok? <==>
      && !raw.unknownKeys
      && (raw.name.Some? ==> raw.name.value.Str? && NameReads(raw.name.value, Text.Strip(raw.name.value.s)))
      && (raw.enabled.Some? ==> raw.enabled.value.Bool?)
    ensures NormalizePatch(raw).Ok? ==>
      var patch := NormalizePatch(raw).value;
      && (patch.name.Some? <==> raw.name.Some?) && (raw.name.Some? ==> NameReads(raw.name.value, patch.name.value))
      && patch.lead == raw.lead && patch.members == raw.members
      && (patch.enabled.Some? <==> raw.enabled.Some?)
      && (raw.enabled.Some? ==> raw.enabled.value == Bool(patch.enabled.value))
    ensures raw.unknownKeys ==> NormalizePatch(raw) == Err(PatchUnsupported)
    ensures NormalizePatch(raw).Err? && !raw.unknownKeys ==>
      var error := NormalizePatch(raw).error;
      var noText := raw.name.Some? && (!raw.name.value.Str? || Text.Strip(raw.name.value.s) == "");
      var tooLong := raw.name.Some? && raw.name.value.Str? && |Text.Strip(raw.name.value.s)| > 120;
      && (error == NameRequired <==> noText) && (error == NameTooLong <==> tooLong)
      && (error == EnabledInvalid <==> !noText && !tooLong)
  {
  }

  /** When a payload makes a project, and the project it makes. */
  lemma NewProjectSays(id: string, owner: string, now: Time, payload: Payload)
    ensures NewProject(id, owner, now, payload).Ok? <==>
      && payload.name.Str? && NameReads(payload.name, Text.Strip(payload.name.s))
      && payload.computerId.Str? && Text.Strip(payload.computerId.s) != ""
    ensures NewProject(id, owner, now, payload).Ok? ==>
      var p := NewProject(id, owner, now, payload).value;
      && p.id == id && p.owner == owner && NameReads(payload.name, p.name)
      && p.computerId == Text.Strip(payload.computerId.s) && p.lead == payload.lead && p.members == payload.members
      && (p.enabled <==> payload.enabled != Some(Bool(false)))
      && p.version == 1 && p.createdAt == now == p.updatedAt && p.archivedAt == None
      && (payload.workspaceSubpath.GetOr("") != "" ==> Some(p.workspaceSubpath) == payload.workspaceSubpath)
      && (payload.workspaceSubpath.GetOr("") == "" ==> p.workspaceSubpath == "projects/" + id)
  {
  }

  /** A creation that succeeds stores the new project with its first event. */
  lemma CreationSays(db: Db, fold: Fold, id: string, owner: string, at: Time, payload: Payload)
    requires Create(db, fold, id, owner, at, payload).1.Ok?
    ensures
      var (after, result) := Create(db, fold, id, owner, at, payload);
      && id !in db.projects && Ok(result.value) == NewProject(id, owner, at, payload)
      && Stored(after, fold, result.value, Created(result.value))
  {
    CommitStores(db, fold, Create(db, fold, id, owner, at, payload).1.value,
                 Created(Create(db, fold, id, owner, at, payload).1.value));
  }

  /** Why a creation is refused, in the order of the checks. */
  lemma CreationRefusedExactly(db: Db, fold: Fold, id: string, owner: string, at: Time, payload: Payload)
    requires Valid(db, fold)
    ensures
      var result := Create(db, fold, id, owner, at, payload).1;
      if NewProject(id, owner, at, payload).Err? then result == Err(NewProject(id, owner, at, payload).error)
      else if id in db.projects || payload.lead.None? then result == Err(IntegrityFailure)
      else if NameTakenBy(db, fold, owner, id, NewProject(id, owner, at, payload).value.name)
      then result == Err(NameTaken)
      else if RepeatsAgent(payload.members) then result == Err(IntegrityFailure)
      else result.Ok?
  {
    RepeatsOrNot(payload.members);
  }

  // ----- whole runs

  /** The transaction commits a change of the project. */
  ghost predicate Commits(db: Db, fold: Fold, tx: Tx, id: string) {
    tx.MutateTx? && tx.id == id && Execute(db, fold, tx).1.Ok?
  }

  /** The value that the last committed change to name a field gives it; else its first value. */
  ghost function LastNamed<T>(
    db: Db, fold: Fold, txs: seq<Tx>, id: string, named: Change -> Option<T>, first: T
  ): T
    decreases |txs|
  {
    if txs == [] then first
    else
      LastNamed(Execute(db, fold, txs[0]).0, fold, txs[1..], id, named,
                if Commits(db, fold, txs[0], id) then named(txs[0].change).GetOr(first) else first)
  }

  function NameIn(change: Change): Option<string> { if change.Update? then change.patch.name else None }

  function LeadIn(change: Change): Option<Option<string>> { if change.Update? then change.patch.lead else None }

  function MembersIn(change: Change): Option<seq<Member>> { if change.Update? then change.patch.members else None }

  /** An archive disables. */
  function EnabledIn(change: Change): Option<bool> { if change.Update? then change.patch.enabled else Some(false) }

  function ArchivedIn(change: Change): Option<Option<Time>> {
    if change.Archive? then Some(Some(change.at)) else None
  }

  function TimeIn(change: Change): Option<Time> { Some(change.at) }

  /** Every field is the one last named. */
  ghost predicate HoldsLastNamed(db: Db, fold: Fold, txs: seq<Tx>, id: string, was: Project, now: Project) {
    && now.name == LastNamed(db, fold, txs, id, NameIn, was.name)
    && now.lead == LastNamed(db, fold, txs, id, LeadIn, was.lead)
    && now.members == LastNamed(db, fold, txs, id, MembersIn, was.members)
    && now.enabled == LastNamed(db, fold, txs, id, EnabledIn, was.enabled)
    && now.archivedAt == LastNamed(db, fold, txs, id, ArchivedIn, was.archivedAt)
    && now.updatedAt == LastNamed(db, fold, txs, id, TimeIn, was.updatedAt)
  }

  /** The value of a field behind one transaction. */
  function OneNamed<T>(commits: bool, tx: Tx, named: Change -> Option<T>, first: T): T
    requires commits ==> tx.MutateTx?
  {
    if commits then named(tx.change).GetOr(first) else first
  }

  /** The fields behind a transaction that commits a change of the project or does not. */
  ghost predicate Names(commits: bool, tx: Tx, was: Project, now: Project)
    requires commits ==> tx.MutateTx?
  {
    && now.name == OneNamed(commits, tx, NameIn, was.name) && now.lead == OneNamed(commits, tx, LeadIn, was.lead)
    && now.members == OneNamed(commits, tx, MembersIn, was.members)
    && now.enabled == OneNamed(commits, tx, EnabledIn, was.enabled)
    && now.archivedAt == OneNamed(commits, tx, ArchivedIn, was.archivedAt)
    && now.updatedAt == OneNamed(commits, tx, TimeIn, was.updatedAt)
  }

  lemma AppliedNames(tx: Tx, was: Project)
    requires tx.MutateTx?
    ensures Names(true, tx, was, Apply(tx.change, was))
  {
  }

  lemma OneTransaction(db: Db, fold: Fold, tx: Tx, id: string)
    requires Valid(db, fold) && id in db.projects
    ensures id in Execute(db, fold, tx).0.projects
    ensures Names(Commits(db, fold, tx, id), tx, db.projects[id].snapshot,
                  Execute(db, fold, tx).0.projects[id].snapshot)
  {
    if Execute(db, fold, tx).1.Err? {
      NothingCommitted(db, fold, tx);
    } else if tx.CreateTx? {
      CreateWrites(db, fold, tx);
    } else {
      MutateWrites(db, fold, tx);
      AppliedNames(tx, db.projects[tx.id].snapshot);
    }
  }

  /** Over any run each field of a project holds what the last committed change that names it says,
      and is as it was if none does. */
  lemma {:induction false} FieldsHoldTheLastNamed(db: Db, fold: Fold, txs: seq<Tx>, id: string)
    requires Valid(db, fold) && id in db.projects
    ensures id in ExecuteAll(db, fold, txs).projects
    ensures HoldsLastNamed(db, fold, txs, id, db.projects[id].snapshot, ExecuteAll(db, fold, txs).projects[id].snapshot)
    decreases |txs|
  {
    if txs != [] {
      OneTransaction(db, fold, txs[0], id);
      ExecuteKeepsValid(db, fold, txs[0]);
      FieldsHoldTheLastNamed(Execute(db, fold, txs[0]).0, fold, txs[1..], id);
    }
  }

  /** From its creation on: a field never named since is the one it was created with. */
  lemma FieldsSinceCreation(
    db: Db, fold: Fold, id: string, owner: string, at: Time, payload: Payload, later: seq<Tx>
  )
    requires Valid(db, fold) && Create(db, fold, id, owner, at, payload).1.Ok?
    ensures
      var (created, result) := Create(db, fold, id, owner, at, payload);
      var end := ExecuteAll(created, fold, later);
      && id in end.projects && Ok(result.value) == NewProject(id, owner, at, payload)
      && HoldsLastNamed(created, fold, later, id, result.value, end.projects[id].snapshot)
      && SameIdentity(result.value, end.projects[id].snapshot)
  {
    var (created, result) := Create(db, fold, id, owner, at, payload);
    ExecuteKeepsValid(db, fold, CreateTx(id, owner, at, payload));
    CreationSays(db, fold, id, owner, at, payload);
    FieldsHoldTheLastNamed(created, fold, later, id);
    RunEvolves(created, fold, later, id);
  }
}

/** The project store over its tables, with other writers committing at its weakest moment.
    Models DatabaseProjectStore in backend/relay/persistence/project_store.py. */
module ProjectStore {
  import opened Wrappers
  import opened Projects
  import opened ProjectLedger
  import opened ProjectChanges

  class DatabaseProjectStore {
    const fold: Fold
    var projects: map<string, ProjectRow>
    var members: map<(string, string), MemberRow>
    var events: map<(string, nat), Event>

    ghost function Tables(): Db
      reads this
    {
      Db(projects, members, events)
    }

    constructor (fold: Fold)
      ensures this.fold == fold && Tables() == Db(map[], map[], map[]) && Valid(Tables(), fold)
    {
      this.fold := fold;
      projects, members, events := map[], map[], map[];
      new;
      EmptyIsValid(fold);
    }

    /** Deletes a project's member rows and inserts the new ones; two rows for one agent are
        rejected. */
    method ReplaceMemberRows(p: Project) returns (ok: bool)
      modifies this`members
      ensures ok <==> DistinctAgents(p.members)
      ensures ok ==> members == ReplaceMembers(old(members), p)
    {
      members := map k | k in members && k.0 != p.id :: members[k];
      var rows := MemberRows(p.id, p.members);
      ok := DistinctAgents(p.members);
      if ok {
        members := members + rows;
      }
    }

    /** The writes of one transaction; a rejected one leaves the tables as they were. */
    method Write(p: Project, sequence: nat, event: Event) returns (rejected: Option<Error>)
      modifies this`projects, this`members, this`events
      ensures
        match Commit(old(Tables()), fold, p, sequence, event)
        case Ok(after) => rejected == None && Tables() == after
        case Err(e) => rejected == Some(e) && Tables() == old(Tables())
    {
      if p.lead.None? {
        return Some(IntegrityFailure);
      }
      if NameClash(projects, p.id, RowOf(fold, p)) {
        return Some(NameTaken);
      }
      var savepoint := members;
      var ok := ReplaceMemberRows(p);
      if !ok || (p.id, sequence) in events {
        members := savepoint;
        return Some(IntegrityFailure);
      }
      projects := projects[p.id := RowOf(fold, p)];
      events := events[(p.id, sequence) := event];
      return None;
    }

    method CreateProject(id: string, owner: string, now: Time, payload: Payload)
      returns (result: Result<Project, Error>)
      requires Valid(Tables(), fold)
      modifies this`projects, this`members, this`events
      ensures (Tables(), result) == Create(old(Tables()), fold, id, owner, now, payload)
      ensures Valid(Tables(), fold)
      ensures result.Ok? ==> Stored(Tables(), fold, result.value, Created(result.value))
    {
      ExecuteKeepsValid(Tables(), fold, CreateTx(id, owner, now, payload));
      if Create(Tables(), fold, id, owner, now, payload).1.Ok? {
        CreationSays(Tables(), fold, id, owner, now, payload);
      }
      var created := NewProject(id, owner, now, payload);
      if created.Err? {
        return Err(created.error);
      }
      var p := created.value;
      if p.id in projects {
        return Err(IntegrityFailure);
      }
      var rejected := Write(p, 0, Created(p));
      result := if rejected.Some? then Err(rejected.value) else Ok(p);
    }

    /** Other writers' transactions. */
    method OthersCommit(txs: seq<Tx>)
      requires Valid(Tables(), fold)
      modifies this`projects, this`members, this`events
      ensures Tables() == ExecuteAll(old(Tables()), fold, txs) && Valid(Tables(), fold)
    {
      var k := 0;
      ghost var start := Tables();
      while k < |txs|
        invariant k <= |txs| && Valid(Tables(), fold)
        invariant ExecuteAll(start, fold, txs) == ExecuteAll(Tables(), fold, txs[k..])
      {
        ExecuteKeepsValid(Tables(), fold, txs[k]);
        var (db, _) := Execute(Db(projects, members, events), fold, txs[k]);
        assert txs[k..][1..] == txs[k + 1..];
        projects, members, events := db.projects, db.members, db.events;
        k := k + 1;
      }
    }

    /** One attempt: the read, then whatever others commit, then the claim. None is a write
        conflict. Any other answer is that of a mutation after the others, and so is a conflict's
        loss. */
    method Attempt(id: string, expected: nat, change: Change, others: seq<Tx>)
      returns (answer: Option<Result<Project, Error>>)
      requires Valid(Tables(), fold)
      modifies this`projects, this`members, this`events
      ensures Valid(Tables(), fold)
      ensures Read(old(Tables()), id, expected).Err? ==>
        Tables() == old(Tables()) && answer == Some(Err(Read(old(Tables()), id, expected).error))
      ensures Read(old(Tables()), id, expected).Ok? ==>
        var now := ExecuteAll(old(Tables()), fold, others);
        if answer.Some? then (Tables(), answer.value) == ProjectLedger.Mutate(now, fold, id, expected, change)
        else
          && Tables() == now && Read(now, id, expected) == Err(VersionConflict)
          && ProjectLedger.Mutate(now, fold, id, expected, change) == (now, Err(VersionConflict))
    {
      var read := Read(Db(projects, members, events), id, expected);
      if read.Err? {
        return Some(Err(read.error));
      }
      ClaimIsLinearizable(Tables(), fold, id, expected, change, others);
      OthersCommit(others);
      ExecuteKeepsValid(Tables(), fold, MutateTx(id, expected, change));
      answer := ClaimRow(id, read.value, change);
    }

    /** The conditional update on the version that was read, and the writes behind it. */
    method ClaimRow(id: string, row: ProjectRow, change: Change) returns (answer: Option<Result<Project, Error>>)
      modifies this`projects, this`members, this`events
      ensures
        match Claim(old(Tables()), fold, id, row, change)
        case Ok(after) => Tables() == after && answer == Some(Ok(Apply(change, row.snapshot)))
        case Err(e) => Tables() == old(Tables()) && answer == if e == WriteConflict then None else Some(Err(e))
    {
      if id !in projects || projects[id].eventVersion != row.eventVersion {
        return None;
      }
      var p := Apply(change, row.snapshot);
      CommitIsNoConflict(Tables(), fold, p, row.eventVersion, EventFor(change, p));
      var rejected := Write(p, row.eventVersion, EventFor(change, p));
      answer := Some(if rejected.Some? then Err(rejected.value) else Ok(p));
    }

    /** The three-attempt loop, with any transactions of others committing between the read and the
        claim of each attempt. It does what one uninterrupted mutation after the first attempt's
        interference does: no update is lost, the write conflict never escapes, and the second
        attempt never writes. */
    method Mutate(id: string, expected: nat, change: nat -> Change, others: nat -> seq<Tx>)
      returns (result: Result<Project, Error>)
      requires Valid(Tables(), fold)
      modifies this`projects, this`members, this`events
      ensures Valid(Tables(), fold)
      ensures Read(old(Tables()), id, expected).Err? ==>
        Tables() == old(Tables()) && result == Err(Read(old(Tables()), id, expected).error)
      ensures Read(old(Tables()), id, expected).Ok? ==>
        (Tables(), result)
        == ProjectLedger.Mutate(ExecuteAll(old(Tables()), fold, others(0)), fold, id, expected, change(0))
    {
      ghost var start := Tables();
      var attempt: nat := 0;
      while attempt < 3
        invariant attempt <= 1 && Valid(Tables(), fold)
        invariant attempt == 0 ==> Tables() == start
        invariant attempt == 1 ==>
          && Read(start, id, expected).Ok? && Read(Tables(), id, expected) == Err(VersionConflict)
          && ProjectLedger.Mutate(ExecuteAll(start, fold, others(0)), fold, id, expected, change(0))
             == (Tables(), Err(VersionConflict))
        decreases 3 - attempt
      {
        var answer := Attempt(id, expected, change(attempt), others(attempt));
        if answer.Some? {
          return answer.value;
        }
        attempt := attempt + 1;
      }
      assert false;
      result := Err(WriteConflict);
    }

    /** A change of the project by its patch, after whatever others committed before the claim. If it
        succeeds, the fields the patch names hold its values, in the answer, in the row and in its
        columns, and no other field is different. */
    method UpdateProject(id: string, raw: RawPatch, expected: nat, clock: nat -> Time, others: nat -> seq<Tx>)
      returns (result: Result<Project, Error>)
      requires Valid(Tables(), fold)
      modifies this`projects, this`members, this`events
      ensures Valid(Tables(), fold)
      ensures NormalizePatch(raw).Err? ==> Tables() == old(Tables()) && result == Err(NormalizePatch(raw).error)
      ensures NormalizePatch(raw).Ok? && Read(old(Tables()), id, expected).Ok? ==>
        (Tables(), result) == ProjectLedger.Mutate(ExecuteAll(old(Tables()), fold, others(0)), fold, id, expected,
                                                   Update(NormalizePatch(raw).value, clock(0)))
      ensures NormalizePatch(raw).Ok? && Read(old(Tables()), id, expected).Err? ==>
        Tables() == old(Tables()) && result == Err(Read(old(Tables()), id, expected).error)
      ensures result.Ok? ==>
        var was := ExecuteAll(old(Tables()), fold, others(0));
        && NormalizePatch(raw).Ok? && id in was.projects && was.projects[id].snapshot.version == expected
        && Patched(was.projects[id].snapshot, NormalizePatch(raw).value, clock(0), result.value)
        && Stored(Tables(), fold, result.value, Updated(NormalizePatch(raw).value, result.value))
    {
      var normalized := NormalizePatch(raw);
      if normalized.Err? {
        return Err(normalized.error);
      }
      ghost var start := Tables();
      result := Mutate(id, expected, (attempt: nat) => Update(normalized.value, clock(attempt)), others);
      if result.Ok? {
        ExecuteAllKeepsValid(start, fold, others(0));
        MutationSays(ExecuteAll(start, fold, others(0)), fold, id, expected, Update(normalized.value, clock(0)));
      }
    }

    method ArchiveProject(id: string, expected: nat, clock: nat -> Time, others: nat -> seq<Tx>)
      returns (result: Result<Project, Error>)
      requires Valid(Tables(), fold)
      modifies this`projects, this`members, this`events
      ensures Valid(Tables(), fold)
      ensures Read(old(Tables()), id, expected).Ok? ==>
        (Tables(), result) == ProjectLedger.Mutate(ExecuteAll(old(Tables()), fold, others(0)), fold, id, expected,
                                                   Archive(clock(0)))
      ensures Read(old(Tables()), id, expected).Err? ==>
        Tables() == old(Tables()) && result == Err(Read(old(Tables()), id, expected).error)
      ensures result.Ok? ==>
        var was := ExecuteAll(old(Tables()), fold, others(0));
        && id in was.projects && was.projects[id].snapshot.version == expected
        && ArchivedAs(was.projects[id].snapshot, clock(0), result.value)
        && Stored(Tables(), fold, result.value, Archived(result.value))
    {
      ghost var start := Tables();
      result := Mutate(id, expected, (attempt: nat) => Archive(clock(attempt)), others);
      if result.Ok? {
        ExecuteAllKeepsValid(start, fold, others(0));
        MutationSays(ExecuteAll(start, fold, others(0)), fold, id, expected, Archive(clock(0)));
      }
    }
  }
}

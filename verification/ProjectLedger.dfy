/** The project tables as a value, and what every transaction on them keeps.
    Specifies backend/relay/persistence/project_store.py. */
module ProjectLedger {
  import opened Wrappers
  import opened Projects

  /** Each map's key is the table's unique key: the project id, (project, agent), (project, sequence). */
  datatype Db = Db(
    projects: map<string, ProjectRow>,
    members: map<(string, string), MemberRow>,
    events: map<(string, nat), Event>)

  // ----- transactions

  predicate DistinctAgents(members: seq<Member>) {
    forall i, j :: 0 <= i < j < |members| ==> members[i].agentId != members[j].agentId
  }

  function MemberRows(id: string, members: seq<Member>): map<(string, string), MemberRow> {
    if members == [] then map[]
    else
      var n := |members| - 1;
      MemberRows(id, members[..n])[(id, members[n].agentId) := MemberRowOf(members[n], n)]
  }

  function ReplaceMembers(rows: map<(string, string), MemberRow>, p: Project): map<(string, string), MemberRow> {
    (map k | k in rows && k.0 != p.id :: rows[k]) + MemberRows(p.id, p.members)
  }

  /** The partial unique index: another live project of the owner has this name key. */
  predicate NameClash(projects: map<string, ProjectRow>, id: string, row: ProjectRow) {
    && row.archivedAt.None?
    && exists q :: q in projects && q != id && projects[q].archivedAt.None?
         && projects[q].owner == row.owner && projects[q].nameKey == row.nameKey
  }

  /** The writes every transaction ends with, or the constraint that rejects them. A project must
      have a lead. */
  function Commit(db: Db, fold: Fold, p: Project, sequence: nat, event: Event): Result<Db, Error> {
    if p.lead.None? then Err(IntegrityFailure)
    else if NameClash(db.projects, p.id, RowOf(fold, p)) then Err(NameTaken)
    else if !DistinctAgents(p.members) || (p.id, sequence) in db.events then Err(IntegrityFailure)
    else
      Ok(Db(db.projects[p.id := RowOf(fold, p)], ReplaceMembers(db.members, p),
            db.events[(p.id, sequence) := event]))
  }

  datatype Tx =
    | CreateTx(id: string, owner: string, at: Time, payload: Payload)
    | MutateTx(id: string, expected: nat, change: Change)

  function Create(
    db: Db, fold: Fold, id: string, owner: string, at: Time, payload: Payload
  ): (Db, Result<Project, Error>) {
    match NewProject(id, owner, at, payload)
    case Err(e) => (db, Err(e))
    case Ok(p) =>
      if p.id in db.projects then (db, Err(IntegrityFailure))
      else
        match Commit(db, fold, p, 0, Created(p))
        case Err(e) => (db, Err(e))
        case Ok(after) => (after, Ok(p))
  }

  /** The locking read and the checks behind it. */
  function Read(db: Db, id: string, expected: nat): Result<ProjectRow, Error> {
    if id !in db.projects then Err(NotFound)
    else if db.projects[id].snapshot.archivedAt.Some? then Err(VersionConflict)
    else if db.projects[id].snapshot.version != expected then Err(VersionConflict)
    else Ok(db.projects[id])
  }

  /** The conditional update on the event version that was read, and the writes behind it. */
  function Claim(db: Db, fold: Fold, id: string, row: ProjectRow, change: Change): Result<Db, Error> {
    if id !in db.projects || db.projects[id].eventVersion != row.eventVersion then Err(WriteConflict)
    else
      var p := Apply(change, row.snapshot);
      Commit(db, fold, p, row.eventVersion, EventFor(change, p))
  }

  /** A read and a claim with nothing in between. */
  function Mutate(db: Db, fold: Fold, id: string, expected: nat, change: Change): (Db, Result<Project, Error>) {
    match Read(db, id, expected)
    case Err(e) => (db, Err(e))
    case Ok(row) =>
      match Claim(db, fold, id, row, change)
      case Err(e) => (db, Err(e))
      case Ok(after) => (after, Ok(Apply(change, row.snapshot)))
  }

  function Execute(db: Db, fold: Fold, tx: Tx): (Db, Result<Project, Error>) {
    match tx
    case CreateTx(id, owner, at, payload) => Create(db, fold, id, owner, at, payload)
    case MutateTx(id, expected, change) => Mutate(db, fold, id, expected, change)
  }

  function ExecuteAll(db: Db, fold: Fold, txs: seq<Tx>): Db
    decreases |txs|
  {
    if txs == [] then db else ExecuteAll(Execute(db, fold, txs[0]).0, fold, txs[1..])
  }

  // ----- the invariant

  /** A project rebuilt from its first n events: created, then changed as each event records. */
  function Replay(events: map<(string, nat), Event>, id: string, n: nat): Option<Project>
    requires forall s :: 0 <= s < n ==> (id, s) in events
  {
    if n == 0 then None
    else
      var event := events[(id, n - 1)];
      if n == 1 then (if event.Created? then Some(event.project) else None)
      else
        var before, change := Replay(events, id, n - 1), Recorded(event);
        if before.None? || change.None? then None else Some(Apply(change.value, before.value))
  }

  /** Events 0 to version - 1 and no others; each carries the project its replay rebuilds; an
      archive, if any, is the last. */
  ghost predicate HistoryOk(events: map<(string, nat), Event>, id: string, p: Project) {
    && p.version >= 1
    && (forall s :: (id, s) in events <==> 0 <= s < p.version)
    && (forall n :: 1 <= n <= p.version ==> Replay(events, id, n) == Some(events[(id, n - 1)].project))
    && events[(id, p.version - 1)].project == p
    && (forall s :: 0 <= s < p.version - 1 ==> !events[(id, s)].Archived?)
    && (p.archivedAt.Some? <==> events[(id, p.version - 1)].Archived?)
  }

  /** The rows of a project are its members, each at its position, and no others. */
  ghost predicate MembersOk(rows: map<(string, string), MemberRow>, id: string, members: seq<Member>) {
    && DistinctAgents(members)
    && (forall i :: 0 <= i < |members| ==>
          (id, members[i].agentId) in rows && rows[(id, members[i].agentId)] == MemberRowOf(members[i], i))
    && (forall agent :: (id, agent) in rows ==> exists i :: 0 <= i < |members| && members[i].agentId == agent)
  }

  ghost predicate ProjectOk(db: Db, fold: Fold, id: string)
    requires id in db.projects
  {
    var p := db.projects[id].snapshot;
    && p.id == id && p.lead.Some? && db.projects[id] == RowOf(fold, p)
    && HistoryOk(db.events, id, p) && MembersOk(db.members, id, p.members)
  }

  ghost predicate NamesUnique(projects: map<string, ProjectRow>) {
    forall p, q ::
      (p in projects && q in projects && p != q && projects[p].archivedAt.None? && projects[q].archivedAt.None?
       && projects[p].owner == projects[q].owner) ==> projects[p].nameKey != projects[q].nameKey
  }

  ghost predicate Valid(db: Db, fold: Fold) {
    && (forall id :: id in db.projects ==> ProjectOk(db, fold, id))
    && (forall id, s :: (id, s) in db.events ==> id in db.projects)
    && (forall id, agent :: (id, agent) in db.members ==> id in db.projects)
    && NamesUnique(db.projects)
  }

  lemma EmptyIsValid(fold: Fold)
    ensures Valid(Db(map[], map[], map[]), fold)
  {
  }

  lemma {:induction false} MemberRowsAre(id: string, members: seq<Member>)
    requires DistinctAgents(members)
    ensures forall i :: 0 <= i < |members| ==>
      (id, members[i].agentId) in MemberRows(id, members)
      && MemberRows(id, members)[(id, members[i].agentId)] == MemberRowOf(members[i], i)
    ensures forall k :: k in MemberRows(id, members) ==>
      k.0 == id && exists i :: 0 <= i < |members| && members[i].agentId == k.1
  {
    if members != [] {
      MemberRowsAre(id, members[..|members| - 1]);
    }
  }

  /** Replacing a project's rows gives exactly its members and touches nobody else's. */
  lemma ReplaceMembersIs(rows: map<(string, string), MemberRow>, p: Project)
    requires DistinctAgents(p.members)
    ensures MembersOk(ReplaceMembers(rows, p), p.id, p.members)
    ensures forall k: (string, string) :: k.0 != p.id ==>
      (k in ReplaceMembers(rows, p) <==> k in rows) && (k in rows ==> ReplaceMembers(rows, p)[k] == rows[k])
  {
    MemberRowsAre(p.id, p.members);
  }

  lemma {:induction false} ReplayReadsItsOwn(
    events: map<(string, nat), Event>, later: map<(string, nat), Event>, id: string, n: nat
  )
    requires forall s :: 0 <= s < n ==> (id, s) in events && (id, s) in later && later[(id, s)] == events[(id, s)]
    ensures Replay(later, id, n) == Replay(events, id, n)
  {
    if n > 1 {
      ReplayReadsItsOwn(events, later, id, n - 1);
    }
  }

  lemma HistoryUntouched(
    events: map<(string, nat), Event>, key: (string, nat), event: Event, id: string, q: Project
  )
    requires HistoryOk(events, id, q) && key.0 != id
    ensures HistoryOk(events[key := event], id, q)
  {
    var later := events[key := event];
    forall n | 1 <= n <= q.version
      ensures Replay(later, id, n) == Some(later[(id, n - 1)].project)
    {
      ReplayReadsItsOwn(events, later, id, n);
    }
  }

  lemma MembersUntouched(rows: map<(string, string), MemberRow>, p: Project, id: string, members: seq<Member>)
    requires MembersOk(rows, id, members) && p.id != id && DistinctAgents(p.members)
    ensures MembersOk(ReplaceMembers(rows, p), id, members)
  {
    ReplaceMembersIs(rows, p);
  }

  lemma OthersUntouched(db: Db, fold: Fold, p: Project, sequence: nat, event: Event, id: string)
    requires Commit(db, fold, p, sequence, event).Ok? && id in db.projects && id != p.id && ProjectOk(db, fold, id)
    ensures ProjectOk(Commit(db, fold, p, sequence, event).value, fold, id)
  {
    HistoryUntouched(db.events, (p.id, sequence), event, id, db.projects[id].snapshot);
    MembersUntouched(db.members, p, id, db.projects[id].snapshot.members);
  }

  lemma FirstEvent(events: map<(string, nat), Event>, p: Project)
    requires (forall s :: (p.id, s) !in events) && p.version == 1 && p.archivedAt.None?
    ensures HistoryOk(events[(p.id, 0) := Created(p)], p.id, p)
  {
    var later := events[(p.id, 0) := Created(p)];
    forall n | 1 <= n <= 1
      ensures Replay(later, p.id, n) == Some(later[(p.id, n - 1)].project)
    {
    }
  }

  lemma ReplayOneMore(events: map<(string, nat), Event>, before: Project, event: Event, n: nat)
    requires HistoryOk(events, before.id, before) && 1 <= n <= before.version + 1
    requires Recorded(event).Some? && event.project == Apply(Recorded(event).value, before)
    ensures
      var later := events[(before.id, before.version) := event];
      && (forall s :: 0 <= s < n ==> (before.id, s) in later)
      && Replay(later, before.id, n) == Some(later[(before.id, n - 1)].project)
  {
    var later := events[(before.id, before.version) := event];
    if n <= before.version {
      ReplayReadsItsOwn(events, later, before.id, n);
    } else {
      ReplayReadsItsOwn(events, later, before.id, n - 1);
    }
  }

  lemma OneMoreEvent(events: map<(string, nat), Event>, before: Project, event: Event)
    requires HistoryOk(events, before.id, before) && before.archivedAt.None?
    requires Recorded(event).Some? && event.project == Apply(Recorded(event).value, before)
    ensures HistoryOk(events[(before.id, before.version) := event], before.id, event.project)
  {
    var later, p := events[(before.id, before.version) := event], event.project;
    forall n | 1 <= n <= p.version
      ensures Replay(later, before.id, n) == Some(later[(before.id, n - 1)].project)
    {
      ReplayOneMore(events, before, event, n);
    }
  }

  lemma CommitKeepsNames(db: Db, fold: Fold, p: Project, sequence: nat, event: Event)
    requires NamesUnique(db.projects) && Commit(db, fold, p, sequence, event).Ok?
    ensures NamesUnique(Commit(db, fold, p, sequence, event).value.projects)
  {
  }

  /** Committing a project whose history and member rows are right keeps everything right. */
  lemma CommitKeepsValid(db: Db, fold: Fold, p: Project, sequence: nat, event: Event)
    requires Valid(db, fold) && Commit(db, fold, p, sequence, event).Ok?
    requires HistoryOk(db.events[(p.id, sequence) := event], p.id, p)
    ensures Valid(Commit(db, fold, p, sequence, event).value, fold)
  {
    var after := Commit(db, fold, p, sequence, event).value;
    ReplaceMembersIs(db.members, p);
    CommitKeepsNames(db, fold, p, sequence, event);
    forall id | id in after.projects
      ensures ProjectOk(after, fold, id)
    {
      if id != p.id {
        OthersUntouched(db, fold, p, sequence, event, id);
      } else {
        assert after.projects[id] == RowOf(fold, p);
      }
    }
  }

  /** A transaction either commits or changes nothing, and keeps the tables consistent. */
  lemma ExecuteKeepsValid(db: Db, fold: Fold, tx: Tx)
    requires Valid(db, fold)
    ensures Valid(Execute(db, fold, tx).0, fold)
    ensures Execute(db, fold, tx).1.Err? ==> Execute(db, fold, tx).0 == db
  {
    var (after, result) := Execute(db, fold, tx);
    if result.Ok? {
      match tx
      case CreateTx(id, owner, at, payload) =>
        FirstEvent(db.events, result.value);
        CommitKeepsValid(db, fold, result.value, 0, Created(result.value));
      case MutateTx(id, expected, change) =>
        MutateCommits(db, fold, id, expected, change);
    }
  }

  /** A claim that succeeds extends the history of the project it read. */
  lemma MutateCommits(db: Db, fold: Fold, id: string, expected: nat, change: Change)
    requires Valid(db, fold) && Mutate(db, fold, id, expected, change).1.Ok?
    ensures Valid(Mutate(db, fold, id, expected, change).0, fold)
  {
    assert ProjectOk(db, fold, id);
    var before := db.projects[id].snapshot;
    var p := Apply(change, before);
    OneMoreEvent(db.events, before, EventFor(change, p));
    CommitKeepsValid(db, fold, p, before.version, EventFor(change, p));
  }

  lemma {:induction false} ExecuteAllKeepsValid(db: Db, fold: Fold, txs: seq<Tx>)
    requires Valid(db, fold)
    ensures Valid(ExecuteAll(db, fold, txs), fold)
    decreases |txs|
  {
    if txs != [] {
      ExecuteKeepsValid(db, fold, txs[0]);
      ExecuteAllKeepsValid(Execute(db, fold, txs[0]).0, fold, txs[1..]);
    }
  }

  // ----- whole runs

  /** What no transaction changes about a project. */
  predicate SameIdentity(p: Project, q: Project) {
    && p.id == q.id && p.owner == q.owner && p.computerId == q.computerId
    && p.workspaceSubpath == q.workspaceSubpath && p.createdAt == q.createdAt
  }

  /** A project stays as it was, or, unless it was archived, moves to a higher version. */
  ghost predicate Evolves(db: Db, later: Db, id: string) {
    id in db.projects ==>
      && id in later.projects
      && SameIdentity(db.projects[id].snapshot, later.projects[id].snapshot)
      && (later.projects[id] == db.projects[id] ||
          (later.projects[id].eventVersion > db.projects[id].eventVersion
           && db.projects[id].snapshot.archivedAt.None?))
  }

  /** What a committed creation writes. */
  lemma CreateWrites(db: Db, fold: Fold, tx: Tx)
    requires tx.CreateTx? && Execute(db, fold, tx).1.Ok?
    ensures
      var p := Execute(db, fold, tx).1.value;
      p.id !in db.projects && Execute(db, fold, tx).0.projects == db.projects[p.id := RowOf(fold, p)]
  {
  }

  /** What a committed mutation writes. */
  lemma MutateWrites(db: Db, fold: Fold, tx: Tx)
    requires Valid(db, fold) && tx.MutateTx? && Execute(db, fold, tx).1.Ok?
    ensures
      && tx.id in db.projects && db.projects[tx.id].snapshot.archivedAt.None? && VersionsAgree(db.projects[tx.id])
      && db.projects[tx.id].snapshot.id == tx.id
      && Execute(db, fold, tx).0.projects ==
         db.projects[tx.id := RowOf(fold, Apply(tx.change, db.projects[tx.id].snapshot))]
  {
    assert ProjectOk(db, fold, tx.id);
  }

  lemma NothingCommitted(db: Db, fold: Fold, tx: Tx)
    requires Execute(db, fold, tx).1.Err?
    ensures Execute(db, fold, tx).0 == db
  {
  }

  lemma ExecuteEvolves(db: Db, fold: Fold, tx: Tx, id: string)
    requires Valid(db, fold)
    ensures Evolves(db, Execute(db, fold, tx).0, id)
  {
    if Execute(db, fold, tx).1.Err? {
      NothingCommitted(db, fold, tx);
    } else if tx.CreateTx? {
      CreateWrites(db, fold, tx);
    } else {
      MutateWrites(db, fold, tx);
      ChangedRowEvolves(db, Execute(db, fold, tx).0, fold, tx.id, tx.change, id);
    }
  }

  lemma ChangedRowEvolves(db: Db, after: Db, fold: Fold, changed: string, change: Change, id: string)
    requires changed in db.projects && db.projects[changed].snapshot.archivedAt.None?
    requires VersionsAgree(db.projects[changed])
    requires after.projects == db.projects[changed := RowOf(fold, Apply(change, db.projects[changed].snapshot))]
    ensures Evolves(db, after, id)
  {
  }

  /** Over any run a project keeps its identity, never loses a version, and is never touched again
      once archived. */
  lemma {:induction false} RunEvolves(db: Db, fold: Fold, txs: seq<Tx>, id: string)
    requires Valid(db, fold)
    ensures Evolves(db, ExecuteAll(db, fold, txs), id)
    decreases |txs|
  {
    if txs != [] {
      var next := Execute(db, fold, txs[0]).0;
      ExecuteKeepsValid(db, fold, txs[0]);
      ExecuteEvolves(db, fold, txs[0], id);
      RunEvolves(next, fold, txs[1..], id);
    }
  }

  /** No two live projects of one owner share a case-folded name, in any run from empty tables;
      versions, event versions and numbers of events agree; and every snapshot is its replay. */
  lemma EveryRunIsConsistent(fold: Fold, txs: seq<Tx>, id: string, other: string)
    ensures
      var db := ExecuteAll(Db(map[], map[], map[]), fold, txs);
      && Valid(db, fold)
      && (id in db.projects ==>
            var p := db.projects[id].snapshot;
            && p.version == db.projects[id].eventVersion
            && (forall s :: (id, s) in db.events <==> 0 <= s < p.version)
            && Replay(db.events, id, p.version) == Some(p))
      && (id in db.projects && other in db.projects && id != other ==>
            var p, q := db.projects[id].snapshot, db.projects[other].snapshot;
            p.archivedAt.None? && q.archivedAt.None? && p.owner == q.owner ==> fold(p.name) != fold(q.name))
  {
    var db := ExecuteAll(Db(map[], map[], map[]), fold, txs);
    ExecuteAllKeepsValid(Db(map[], map[], map[]), fold, txs);
    if id in db.projects {
      assert ProjectOk(db, fold, id);
    }
    if other in db.projects {
      assert ProjectOk(db, fold, other);
    }
  }

  function ResultAt(db: Db, fold: Fold, txs: seq<Tx>, i: nat): Result<Project, Error>
    requires i < |txs|
  {
    Execute(ExecuteAll(db, fold, txs[..i]), fold, txs[i]).1
  }

  lemma {:induction false} ExecuteAllSplits(db: Db, fold: Fold, a: seq<Tx>, b: seq<Tx>)
    ensures ExecuteAll(db, fold, a + b) == ExecuteAll(ExecuteAll(db, fold, a), fold, b)
    decreases |a|
  {
    if a == [] {
      assert a + b == b;
    } else {
      assert (a + b)[0] == a[0] && (a + b)[1..] == a[1..] + b;
      ExecuteAllSplits(Execute(db, fold, a[0]).0, fold, a[1..], b);
    }
  }

  lemma SuccessRaisesVersion(db: Db, fold: Fold, tx: Tx)
    requires Valid(db, fold) && tx.MutateTx? && Execute(db, fold, tx).1.Ok?
    ensures
      var after := Execute(db, fold, tx).0;
      && tx.id in db.projects && db.projects[tx.id].snapshot.version == tx.expected
      && tx.id in after.projects && after.projects[tx.id].snapshot.version == tx.expected + 1
  {
    assert ProjectOk(db, fold, tx.id);
  }

  lemma LaterWriterLoses(db: Db, fold: Fold, between: seq<Tx>, tx: Tx)
    requires Valid(db, fold) && tx.MutateTx?
    requires tx.id in db.projects && db.projects[tx.id].snapshot.version > tx.expected
    ensures Execute(ExecuteAll(db, fold, between), fold, tx).1.Err?
  {
    VersionsNeverFall(db, fold, between, tx.id);
  }

  /** A row carries its snapshot's version, which only rises; at the same version it is the same row. */
  lemma VersionsNeverFall(db: Db, fold: Fold, txs: seq<Tx>, id: string)
    requires Valid(db, fold) && id in db.projects
    ensures
      var later := ExecuteAll(db, fold, txs);
      && id in later.projects
      && VersionsAgree(db.projects[id]) && VersionsAgree(later.projects[id])
      && (later.projects[id] == db.projects[id]
          || later.projects[id].eventVersion > db.projects[id].eventVersion)
  {
    RunEvolves(db, fold, txs, id);
    ExecuteAllKeepsValid(db, fold, txs);
    RowVersionsAgree(db, fold, id);
    RowVersionsAgree(ExecuteAll(db, fold, txs), fold, id);
  }

  predicate VersionsAgree(row: ProjectRow) { row.eventVersion == row.snapshot.version }

  lemma RowVersionsAgree(db: Db, fold: Fold, id: string)
    requires Valid(db, fold) && id in db.projects
    ensures VersionsAgree(db.projects[id])
  {
    assert ProjectOk(db, fold, id);
  }

  lemma RunUpTo(db: Db, fold: Fold, txs: seq<Tx>, i: nat, j: nat)
    requires i < j < |txs|
    ensures ExecuteAll(db, fold, txs[..j])
         == ExecuteAll(Execute(ExecuteAll(db, fold, txs[..i]), fold, txs[i]).0, fold, txs[i + 1..j])
  {
    var between := txs[i + 1..j];
    assert txs[..j] == txs[..i] + ([txs[i]] + between);
    ExecuteAllSplits(db, fold, txs[..i], [txs[i]] + between);
    assert ([txs[i]] + between)[1..] == between;
  }

  /** Of any number of writers that expect the same version of a project, at most one commits. */
  lemma AtMostOneCommits(db: Db, fold: Fold, txs: seq<Tx>, i: nat, j: nat)
    requires Valid(db, fold) && i < j < |txs|
    requires txs[i].MutateTx? && txs[j].MutateTx?
    requires txs[i].id == txs[j].id && txs[i].expected == txs[j].expected
    ensures ResultAt(db, fold, txs, i).Err? || ResultAt(db, fold, txs, j).Err?
  {
    var before := ExecuteAll(db, fold, txs[..i]);
    ExecuteAllKeepsValid(db, fold, txs[..i]);
    ExecuteKeepsValid(before, fold, txs[i]);
    if ResultAt(db, fold, txs, i).Ok? {
      SuccessRaisesVersion(before, fold, txs[i]);
      RunUpTo(db, fold, txs, i, j);
      LaterWriterLoses(Execute(before, fold, txs[i]).0, fold, txs[i + 1..j], txs[j]);
    }
  }

  // ----- a read and a claim with other writers in between

  /** If other transactions commit between a read and its claim, the claim succeeds exactly when the
      whole mutation would succeed after them: it loses to a changed version and is otherwise not
      affected. */
  lemma ClaimIsLinearizable(db: Db, fold: Fold, id: string, expected: nat, change: Change, others: seq<Tx>)
    requires Valid(db, fold) && Read(db, id, expected).Ok?
    ensures
      var row, now := Read(db, id, expected).value, ExecuteAll(db, fold, others);
      var claimed, whole := Claim(now, fold, id, row, change), Mutate(now, fold, id, expected, change);
      && (claimed.Ok? ==> whole == (claimed.value, Ok(Apply(change, row.snapshot))))
      && (claimed.Err? && claimed.error != WriteConflict ==> whole == (now, Err(claimed.error)))
      && (claimed == Err(WriteConflict) ==>
            Read(now, id, expected) == Err(VersionConflict) && whole == (now, Err(VersionConflict)))
  {
    VersionsNeverFall(db, fold, others, id);
    ClaimOrMutate(db, ExecuteAll(db, fold, others), fold, id, expected, change);
  }

  lemma ClaimOrMutate(db: Db, now: Db, fold: Fold, id: string, expected: nat, change: Change)
    requires Read(db, id, expected).Ok? && id in now.projects
    requires VersionsAgree(db.projects[id]) && VersionsAgree(now.projects[id])
    requires now.projects[id] == db.projects[id] || now.projects[id].eventVersion > db.projects[id].eventVersion
    ensures
      var row := Read(db, id, expected).value;
      var claimed, whole := Claim(now, fold, id, row, change), Mutate(now, fold, id, expected, change);
      && (claimed.Ok? ==> whole == (claimed.value, Ok(Apply(change, row.snapshot))))
      && (claimed.Err? && claimed.error != WriteConflict ==> whole == (now, Err(claimed.error)))
      && (claimed == Err(WriteConflict) ==>
            Read(now, id, expected) == Err(VersionConflict) && whole == (now, Err(VersionConflict)))
  {
    CommitIsNoConflict(now, fold, Apply(change, db.projects[id].snapshot), db.projects[id].eventVersion,
                       EventFor(change, Apply(change, db.projects[id].snapshot)));
  }

  lemma CommitIsNoConflict(db: Db, fold: Fold, p: Project, sequence: nat, event: Event)
    ensures Commit(db, fold, p, sequence, event) != Err(WriteConflict)
  {
  }
}

/** The two-phase rewrite of legacy public ids to row ids.
    Models backend/migrations/versions/20260728_0039_backfill_entity_uuid_ids.py. */
module IdBackfill {
  import opened Wrappers

  datatype Row = Row(id: string, publicId: Option<string>) {
    predicate Legacy() { publicId.Some? && publicId.value != id }
  }

  type Mapping = map<string, string>

  const PREFIX := "uuid_migration_"

  // ----- the form of row ids

  predicate IsHex(c: char) { '0' <= c <= '9' || 'a' <= c <= 'f' }

  predicate IsDash(i: int) { i == 8 || i == 13 || i == 18 || i == 23 }

  /** The canonical text of a UUID: 8-4-4-4-12 hexadecimal digits. */
  predicate IsUuid(s: string) {
    |s| == 36 && forall i :: 0 <= i < 36 ==> if IsDash(i) then s[i] == '-' else IsHex(s[i])
  }

  function Undash(s: string): string {
    if s == "" then ""
    else Undash(s[..|s| - 1]) + if s[|s| - 1] == '-' then "" else [s[|s| - 1]]
  }

  function Staged(newId: string): string { PREFIX + Undash(newId) }

  /** Strings with dashes in the same places lose no information by dropping them. */
  lemma {:induction false} UndashInjective(a: string, b: string)
    requires |a| == |b| && forall i :: 0 <= i < |a| ==> (a[i] == '-' <==> b[i] == '-')
    requires Undash(a) == Undash(b)
    ensures a == b
  {
    if a != "" {
      var n := |a| - 1;
      UndashLengths(a[..n], b[..n]);
      if a[n] == '-' {
        assert Undash(a) == Undash(a[..n]) && Undash(b) == Undash(b[..n]);
      } else {
        var shorter := |Undash(a)| - 1;
        assert Undash(a)[..shorter] == Undash(a[..n]) && Undash(b)[..shorter] == Undash(b[..n]);
        assert Undash(a)[shorter] == a[n] && Undash(b)[shorter] == b[n];
      }
      UndashInjective(a[..n], b[..n]);
      assert a == a[..n] + [a[n]] && b == b[..n] + [b[n]];
    }
  }

  lemma {:induction false} UndashLengths(a: string, b: string)
    requires |a| == |b| && forall i :: 0 <= i < |a| ==> (a[i] == '-' <==> b[i] == '-')
    ensures |Undash(a)| == |Undash(b)|
  {
    if a != "" {
      UndashLengths(a[..|a| - 1], b[..|b| - 1]);
    }
  }

  lemma StagedInjective(a: string, b: string)
    requires IsUuid(a) && IsUuid(b) && Staged(a) == Staged(b)
    ensures a == b
  {
    assert Staged(a)[|PREFIX|..] == Undash(a) && Staged(b)[|PREFIX|..] == Undash(b);
    UndashInjective(a, b);
  }

  lemma UuidIsNotStaged(a: string, b: string)
    requires IsUuid(a)
    ensures a != Staged(b)
  {
    assert Staged(b)[0] == 'u';
  }

  // ----- the mapping

  function EntityMapping(rows: seq<Row>): Mapping {
    if rows == [] then map[]
    else
      var last := rows[|rows| - 1];
      var front := EntityMapping(rows[..|rows| - 1]);
      if last.Legacy() then front[last.publicId.value := last.id] else front
  }

  ghost predicate UniquePublicIds(rows: seq<Row>) {
    forall i, j :: 0 <= i < j < |rows| && rows[i].publicId.Some? ==> rows[i].publicId != rows[j].publicId
  }

  ghost predicate UniqueIds(rows: seq<Row>) {
    forall i, j :: 0 <= i < j < |rows| ==> rows[i].id != rows[j].id
  }

  /** Row ids are UUIDs, and no public id already looks staged. */
  ghost predicate Presentable(rows: seq<Row>) {
    && (forall i :: 0 <= i < |rows| ==> IsUuid(rows[i].id))
    && (forall i :: 0 <= i < |rows| && rows[i].publicId.Some? ==> !(PREFIX <= rows[i].publicId.value))
  }

  /** The mapping rewrites every legacy public id of these rows to its row's id, and no other. */
  ghost predicate Faithful(m: Mapping, rows: seq<Row>) {
    && (forall i :: 0 <= i < |rows| && rows[i].Legacy() ==>
          rows[i].publicId.value in m && m[rows[i].publicId.value] == rows[i].id)
    && (forall i :: 0 <= i < |rows| && rows[i].publicId.Some? && !rows[i].Legacy() ==> rows[i].publicId.value !in m)
    && (forall p :: p in m ==> IsUuid(m[p]))
  }

  ghost predicate Ready(m: Mapping, rows: seq<Row>) {
    UniqueIds(rows) && UniquePublicIds(rows) && Presentable(rows) && Faithful(m, rows)
  }

  // ----- one UPDATE statement changes its rows in some order

  /** The first statement, once it has reached the rows in `done`. */
  function StageSome(rows: seq<Row>, m: Mapping, done: set<int>): seq<Row> {
    seq(|rows|, i requires 0 <= i < |rows| =>
      if i in done && rows[i].publicId.Some? && rows[i].publicId.value in m
      then rows[i].(publicId := Some(Staged(m[rows[i].publicId.value]))) else rows[i])
  }

  /** The new id that the second statement's subquery finds for a staged value. */
  ghost function Unstage(m: Mapping, value: string): Option<string> {
    if p :| p in m && Staged(m[p]) == value then Some(m[p]) else None
  }

  /** The second statement, once it has reached the rows in `done`. */
  ghost function UnstageSome(rows: seq<Row>, m: Mapping, done: set<int>): seq<Row> {
    seq(|rows|, i requires 0 <= i < |rows| =>
      if i in done && rows[i].publicId.Some? && Unstage(m, rows[i].publicId.value).Some?
      then rows[i].(publicId := Unstage(m, rows[i].publicId.value)) else rows[i])
  }

  /** Every row that had a public id now has its own id as public id. */
  function Settled(rows: seq<Row>): seq<Row> {
    seq(|rows|, i requires 0 <= i < |rows| =>
      if rows[i].publicId.Some? then rows[i].(publicId := Some(rows[i].id)) else rows[i])
  }

  function UpTo(n: nat): (s: set<int>)
    ensures forall i :: i in s <==> 0 <= i < n
  {
    if n == 0 then {} else UpTo(n - 1) + {n - 1}
  }

  lemma UnstageFinds(m: Mapping, newId: string)
    requires forall p :: p in m ==> IsUuid(m[p])
    requires IsUuid(newId)
    ensures Unstage(m, newId).None?
    ensures (exists p :: p in m && m[p] == newId) ==> Unstage(m, Staged(newId)) == Some(newId)
  {
    forall p | p in m
      ensures Staged(m[p]) != newId
      ensures Staged(m[p]) == Staged(newId) ==> m[p] == newId
    {
      UuidIsNotStaged(newId, m[p]);
      if Staged(m[p]) == Staged(newId) {
        StagedInjective(m[p], newId);
      }
    }
  }

  /** Whatever order the first statement takes, the public ids are unique at every step. */
  lemma StagingStaysUnique(rows: seq<Row>, m: Mapping, done: set<int>)
    requires UniqueIds(rows) && UniquePublicIds(rows) && Presentable(rows) && Faithful(m, rows)
    ensures UniquePublicIds(StageSome(rows, m, done))
  {
    var now := StageSome(rows, m, done);
    forall i, j | 0 <= i < j < |now| && now[i].publicId.Some?
      ensures now[i].publicId != now[j].publicId
    {
      if Staged(rows[i].id) == Staged(rows[j].id) {
        StagedInjective(rows[i].id, rows[j].id);
      }
    }
  }

  ghost function FullyStaged(rows: seq<Row>, m: Mapping): seq<Row> { StageSome(rows, m, UpTo(|rows|)) }

  /** What the second statement has made of a row. */
  lemma UnstageRow(rows: seq<Row>, m: Mapping, done: set<int>, i: int)
    requires Presentable(rows) && Faithful(m, rows) && 0 <= i < |rows|
    ensures
      var now := UnstageSome(FullyStaged(rows, m), m, done);
      && |now| == |rows|
      && now[i] == (if rows[i].Legacy()
                    then rows[i].(publicId := Some(if i in done then rows[i].id else Staged(rows[i].id)))
                    else rows[i])
  {
    UnstageFinds(m, rows[i].id);
    if rows[i].Legacy() {
      assert rows[i].publicId.value in m && m[rows[i].publicId.value] == rows[i].id;
    }
  }

  /** So are they at every step of the second statement. */
  lemma UnstagingStaysUnique(rows: seq<Row>, m: Mapping, done: set<int>)
    requires UniqueIds(rows) && Presentable(rows) && Faithful(m, rows)
    ensures UniquePublicIds(UnstageSome(FullyStaged(rows, m), m, done))
  {
    var now := UnstageSome(FullyStaged(rows, m), m, done);
    forall i, j | 0 <= i < j < |now| && now[i].publicId.Some?
      ensures now[i].publicId != now[j].publicId
    {
      UnstageRow(rows, m, done, i);
      UnstageRow(rows, m, done, j);
      UuidIsNotStaged(rows[i].id, rows[j].id);
      UuidIsNotStaged(rows[j].id, rows[i].id);
      if Staged(rows[i].id) == Staged(rows[j].id) {
        StagedInjective(rows[i].id, rows[j].id);
      }
    }
  }

  lemma BothStatementsSettle(rows: seq<Row>, m: Mapping)
    requires Presentable(rows) && Faithful(m, rows)
    ensures UnstageSome(FullyStaged(rows, m), m, UpTo(|rows|)) == Settled(rows)
  {
    forall i | 0 <= i < |rows|
      ensures UnstageSome(FullyStaged(rows, m), m, UpTo(|rows|))[i] == Settled(rows)[i]
    {
      UnstageRow(rows, m, UpTo(|rows|), i);
    }
  }

  // ----- the combined mapping of the entity tables

  datatype Entity = Sessions | Agents | DaemonNodes

  const ENTITIES: seq<Entity> := [Sessions, Agents, DaemonNodes]

  datatype PerEntity<T> = PerEntity(sessions: T, agents: T, daemonNodes: T) {
    function Of(e: Entity): T {
      match e
      case Sessions => sessions
      case Agents => agents
      case DaemonNodes => daemonNodes
    }

    function With(e: Entity, t: T): PerEntity<T> {
      match e
      case Sessions => this.(sessions := t)
      case Agents => this.(agents := t)
      case DaemonNodes => this.(daemonNodes := t)
    }
  }

  type Tables = PerEntity<seq<Row>>

  /** Later tables win, as in a dict built over the tables in turn. */
  function Combined(tables: Tables): Mapping {
    EntityMapping(tables.Of(Sessions)) + EntityMapping(tables.Of(Agents)) + EntityMapping(tables.Of(DaemonNodes))
  }

  /** Each table's ids are keys, public ids and row ids are not shared between tables, and no id is
      in use as a staged value. */
  ghost predicate Migratable(tables: Tables) {
    && (forall e :: UniqueIds(tables.Of(e)) && UniquePublicIds(tables.Of(e)) && Presentable(tables.Of(e)))
    && (forall e, f, i, j ::
          (e != f && 0 <= i < |tables.Of(e)| && 0 <= j < |tables.Of(f)| && tables.Of(e)[i].publicId.Some?) ==>
            tables.Of(e)[i].publicId != tables.Of(f)[j].publicId)
  }

  ghost predicate MapsFrom(rows: seq<Row>, m: Mapping, p: string, i: int) {
    && 0 <= i < |rows| && rows[i].Legacy() && rows[i].publicId.value == p
    && p in m && m[p] == rows[i].id
  }

  lemma {:induction false} MappingMaps(rows: seq<Row>)
    requires UniquePublicIds(rows)
    ensures forall i :: 0 <= i < |rows| && rows[i].Legacy() ==>
      MapsFrom(rows, EntityMapping(rows), rows[i].publicId.value, i)
    ensures forall p :: p in EntityMapping(rows) ==> exists i :: MapsFrom(rows, EntityMapping(rows), p, i)
  {
    if rows != [] {
      var n := |rows| - 1;
      var front := rows[..n];
      MappingMaps(front);
      forall p | p in EntityMapping(rows)
        ensures exists i :: MapsFrom(rows, EntityMapping(rows), p, i)
      {
        if rows[n].Legacy() && rows[n].publicId.value == p {
          assert MapsFrom(rows, EntityMapping(rows), p, n);
        } else {
          var i :| MapsFrom(front, EntityMapping(front), p, i);
          assert MapsFrom(rows, EntityMapping(rows), p, i);
        }
      }
      forall i | 0 <= i < |rows| && rows[i].Legacy()
        ensures MapsFrom(rows, EntityMapping(rows), rows[i].publicId.value, i)
      {
        if i < n {
          assert MapsFrom(front, EntityMapping(front), front[i].publicId.value, i);
        }
      }
    }
  }

  lemma NotInOthers(tables: Tables, e: Entity, f: Entity, i: int)
    requires Migratable(tables) && 0 <= i < |tables.Of(e)| && tables.Of(e)[i].publicId.Some?
    requires e != f || !tables.Of(e)[i].Legacy()
    ensures tables.Of(e)[i].publicId.value !in EntityMapping(tables.Of(f))
  {
    MappingMaps(tables.Of(f));
  }

  lemma CombinedIsFaithful(tables: Tables, e: Entity)
    requires Migratable(tables)
    ensures Faithful(Combined(tables), tables.Of(e))
  {
    var m, rows := Combined(tables), tables.Of(e);
    forall i | 0 <= i < |rows| && rows[i].publicId.Some?
      ensures rows[i].Legacy() ==> rows[i].publicId.value in m && m[rows[i].publicId.value] == rows[i].id
      ensures !rows[i].Legacy() ==> rows[i].publicId.value !in m
    {
      MappingMaps(rows);
      assert rows[i].Legacy() ==> MapsFrom(rows, EntityMapping(rows), rows[i].publicId.value, i);
      forall f | f != e || !rows[i].Legacy()
        ensures rows[i].publicId.value !in EntityMapping(tables.Of(f))
      {
        NotInOthers(tables, e, f, i);
      }
    }
    forall p | p in m
      ensures IsUuid(m[p])
    {
      var f := if p in EntityMapping(tables.Of(DaemonNodes)) then DaemonNodes
               else if p in EntityMapping(tables.Of(Agents)) then Agents else Sessions;
      MappingMaps(tables.Of(f));
      assert p in EntityMapping(tables.Of(f)) && m[p] == EntityMapping(tables.Of(f))[p];
      var i :| MapsFrom(tables.Of(f), EntityMapping(tables.Of(f)), p, i);
    }
  }

  // ----- references

  /** A nullable column that refers to an entity by public id. */
  type Column = seq<Option<string>>

  function Rewrite(m: Mapping, value: Option<string>): Option<string> {
    if value.Some? && value.value in m then Some(m[value.value]) else value
  }

  predicate Resolves(rows: seq<Row>, value: Option<string>, i: int) {
    0 <= i < |rows| && value.Some? && rows[i].publicId == value
  }

  /** What the migration makes of a reference to an entity; the columns of a table without legacy
      ids are left alone. */
  function NewReference(tables: Tables, e: Entity, value: Option<string>): Option<string> {
    if EntityMapping(tables.Of(e)) == map[] then value else Rewrite(Combined(tables), value)
  }

  ghost predicate IdsAcrossTablesDiffer(tables: Tables) {
    forall f, g, j, k ::
      (f != g && 0 <= j < |tables.Of(f)| && 0 <= k < |tables.Of(g)|) ==> tables.Of(f)[j].id != tables.Of(g)[k].id
  }

  lemma NothingLegacyIn(rows: seq<Row>)
    requires UniquePublicIds(rows) && EntityMapping(rows) == map[]
    ensures Settled(rows) == rows
  {
    MappingMaps(rows);
  }

  lemma MappedByTable(tables: Tables, p: string) returns (f: Entity, j: nat)
    requires Migratable(tables) && p in Combined(tables)
    ensures j < |tables.Of(f)| && tables.Of(f)[j].Legacy() && tables.Of(f)[j].publicId == Some(p)
    ensures Combined(tables)[p] == tables.Of(f)[j].id
  {
    f := if p in EntityMapping(tables.Of(DaemonNodes)) then DaemonNodes
         else if p in EntityMapping(tables.Of(Agents)) then Agents else Sessions;
    MappingMaps(tables.Of(f));
    assert p in EntityMapping(tables.Of(f)) && Combined(tables)[p] == EntityMapping(tables.Of(f))[p];
    var i :| MapsFrom(tables.Of(f), EntityMapping(tables.Of(f)), p, i);
    j := i;
  }

  /** A reference that resolved to a row resolves to the same row afterwards. */
  lemma ReferencesKeepTheirRows(tables: Tables, e: Entity, value: Option<string>, i: int)
    requires Migratable(tables) && Resolves(tables.Of(e), value, i)
    ensures Resolves(Settled(tables.Of(e)), NewReference(tables, e, value), i)
  {
    CombinedIsFaithful(tables, e);
    if EntityMapping(tables.Of(e)) == map[] {
      NothingLegacyIn(tables.Of(e));
    }
  }

  /** With row ids that differ between tables too, a reference resolves to a row afterwards exactly
      when it did before, or when it already named that row by its own id and no legacy id is
      spelled the same. */
  lemma ReferencesResolveExactly(tables: Tables, e: Entity, value: Option<string>, i: int)
    requires Migratable(tables) && IdsAcrossTablesDiffer(tables) && 0 <= i < |tables.Of(e)|
    ensures Resolves(Settled(tables.Of(e)), NewReference(tables, e, value), i) <==>
      || Resolves(tables.Of(e), value, i)
      || (tables.Of(e)[i].publicId.Some? && value == Some(tables.Of(e)[i].id) && value.value !in Combined(tables))
  {
    var rows := tables.Of(e);
    CombinedIsFaithful(tables, e);
    if EntityMapping(rows) == map[] {
      NothingLegacyIn(rows);
    } else if value.Some? && value.value in Combined(tables) {
      var f, j := MappedByTable(tables, value.value);
      if rows[i].id == tables.Of(f)[j].id {
        assert f == e && i == j;
      }
    }
  }

  // ----- the migration in place

  ghost predicate ColumnRewritten(m: Mapping, column: Column, rewritten: Column) {
    |rewritten| == |column| && forall i :: 0 <= i < |column| ==> rewritten[i] == Rewrite(m, column[i])
  }

  /** Every value of every reference column has become its new reference. */
  ghost predicate ColumnsRewritten(tables: Tables, e: Entity, columns: seq<Column>, rewritten: seq<Column>) {
    && |rewritten| == |columns|
    && forall c :: 0 <= c < |columns| ==>
         && |rewritten[c]| == |columns[c]|
         && forall i :: 0 <= i < |columns[c]| ==> rewritten[c][i] == NewReference(tables, e, columns[c][i])
  }

  lemma StageOneMore(rows: seq<Row>, m: Mapping, i: nat)
    requires i < |rows|
    ensures
      var now, row := StageSome(rows, m, UpTo(i)), rows[i];
      && now[i] == row
      && StageSome(rows, m, UpTo(i + 1)) ==
         (if row.publicId.Some? && row.publicId.value in m
          then now[i := row.(publicId := Some(Staged(m[row.publicId.value])))] else now)
  {
  }

  lemma UnstageOneMore(rows: seq<Row>, m: Mapping, i: nat)
    requires i < |rows|
    ensures
      var now, row := UnstageSome(rows, m, UpTo(i)), rows[i];
      var found := if row.publicId.Some? then Unstage(m, row.publicId.value) else None;
      && now[i] == row
      && UnstageSome(rows, m, UpTo(i + 1)) == if found.Some? then now[i := row.(publicId := found)] else now
  {
  }

  /** One UPDATE of one reference column. */
  method ReplaceColumnValues(m: Mapping, column: Column) returns (rewritten: Column)
    ensures ColumnRewritten(m, column, rewritten)
  {
    rewritten := column;
    for i := 0 to |column|
      invariant |rewritten| == |column|
      invariant forall k :: 0 <= k < |column| ==>
        rewritten[k] == if k < i then Rewrite(m, column[k]) else column[k]
    {
      if column[i].Some? && column[i].value in m {
        rewritten := rewritten[i := Some(m[column[i].value])];
      }
    }
  }

  /** Every reference column of one entity. */
  method ReplaceColumns(m: Mapping, columns: seq<Column>) returns (rewritten: seq<Column>)
    ensures |rewritten| == |columns|
    ensures forall c :: 0 <= c < |columns| ==> ColumnRewritten(m, columns[c], rewritten[c])
  {
    rewritten := [];
    for c := 0 to |columns|
      invariant |rewritten| == c
      invariant forall i :: 0 <= i < c ==> ColumnRewritten(m, columns[i], rewritten[i])
    {
      var column := ReplaceColumnValues(m, columns[c]);
      rewritten := rewritten + [column];
    }
  }

  /** The subquery of the second statement. */
  method FindStaged(m: Mapping, value: Option<string>) returns (found: Option<string>)
    requires forall p :: p in m ==> IsUuid(m[p])
    ensures found == if value.Some? then Unstage(m, value.value) else None
  {
    found := None;
    var pending := m.Keys;
    while value.Some? && pending != {}
      invariant pending <= m.Keys
      invariant found.Some? ==> value.Some? && exists p :: p in m && Staged(m[p]) == value.value && found == Some(m[p])
      invariant value.Some? && found.None? ==> forall p :: p in m && p !in pending ==> Staged(m[p]) != value.value
      decreases pending
    {
      var p :| p in pending;
      if Staged(m[p]) == value.value {
        found := Some(m[p]);
      }
      pending := pending - {p};
    }
    if found.Some? {
      var p :| p in m && Staged(m[p]) == value.value && found == Some(m[p]);
      UnstageFinds(m, m[p]);
    }
  }

  /** The first UPDATE of one table, row by row. No step breaks the unique index. */
  method StageRows(m: Mapping, rows: seq<Row>) returns (now: seq<Row>)
    requires Ready(m, rows)
    ensures now == FullyStaged(rows, m) && UniquePublicIds(now)
  {
    now := rows;
    assert StageSome(rows, m, UpTo(0)) == rows;
    for i := 0 to |rows|
      invariant now == StageSome(rows, m, UpTo(i)) && UniquePublicIds(now)
    {
      now := StageNext(m, rows, now, i);
    }
  }

  method StageNext(m: Mapping, ghost rows: seq<Row>, was: seq<Row>, i: nat) returns (now: seq<Row>)
    requires Ready(m, rows) && i < |rows| && was == StageSome(rows, m, UpTo(i))
    ensures now == StageSome(rows, m, UpTo(i + 1)) && UniquePublicIds(now)
  {
    StagingStaysUnique(rows, m, UpTo(i + 1));
    StageOneMore(rows, m, i);
    now := was;
    var row := was[i];
    if row.publicId.Some? && row.publicId.value in m {
      now := was[i := row.(publicId := Some(Staged(m[row.publicId.value])))];
    }
  }

  /** The second UPDATE of a fully staged table, row by row. No step breaks the unique index, and every
      row that had a public id ends with its own id. */
  method UnstageRows(m: Mapping, ghost rows: seq<Row>, staged: seq<Row>) returns (now: seq<Row>)
    requires Ready(m, rows) && staged == FullyStaged(rows, m)
    ensures now == Settled(rows) && UniquePublicIds(now)
  {
    now := staged;
    assert UnstageSome(staged, m, UpTo(0)) == staged;
    UnstagingStaysUnique(rows, m, UpTo(0));
    for i := 0 to |staged|
      invariant now == UnstageSome(staged, m, UpTo(i)) && UniquePublicIds(now)
    {
      now := UnstageNext(m, staged, now, i);
      UnstagingStaysUnique(rows, m, UpTo(i + 1));
    }
    BothStatementsSettle(rows, m);
  }

  method UnstageNext(m: Mapping, ghost staged: seq<Row>, was: seq<Row>, i: nat) returns (now: seq<Row>)
    requires i < |staged| && was == UnstageSome(staged, m, UpTo(i)) && forall p :: p in m ==> IsUuid(m[p])
    ensures now == UnstageSome(staged, m, UpTo(i + 1))
  {
    UnstageOneMore(staged, m, i);
    now := was;
    var found := FindStaged(m, was[i].publicId);
    if found.Some? {
      now := was[i := was[i].(publicId := found)];
    }
  }

  lemma Listed(e: Entity) returns (i: nat)
    ensures i < |ENTITIES| && ENTITIES[i] == e
  {
    i := if e.Sessions? then 0 else if e.Agents? then 1 else 2;
  }

  lemma EmptyEverywhere(tables: Tables, e: Entity)
    requires Combined(tables) == map[]
    ensures EntityMapping(tables.Of(e)) == map[]
  {
    assert forall p :: p in EntityMapping(tables.Of(e)) ==> p in Combined(tables);
  }
}

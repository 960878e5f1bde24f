/** A node's parallel agent maps become one row per agent, and back.
    Models backend/migrations/versions/20260730_0051_normalize_daemon_node_agents.py. */
module NodeAgents {
  import opened Wrappers
  import opened Sequences
  import Text

  datatype Json = Null | NotNull(text: string)

  /** The five columns of a node, decoded; an absent value is None. `disabled` is a list. */
  datatype Maps = Maps(
    agents: map<string, Option<string>>, details: map<string, Json>, disabled: seq<string>,
    roleDefaults: map<string, Option<string>>, roleOverrides: map<string, Option<string>>)

  const NO_MAPS := Maps(map[], map[], [], map[], map[])

  /** A column holds a value, the text of one, which may not parse to the shape wanted, or something
      else, such as a database null. */
  datatype Column<T> = Decoded(value: T) | Encoded(parsed: Option<T>) | AnythingElse

  function Read<T>(column: Column<T>, otherwise: T): T {
    match column
    case Decoded(value) => value
    case Encoded(Some(value)) => value
    case _ => otherwise
  }

  datatype Node = Node(
    agents: Column<map<string, Option<string>>>, details: Column<map<string, Json>>, disabled: Column<seq<string>>,
    roleDefaults: Column<map<string, Option<string>>>, roleOverrides: Column<map<string, Option<string>>>)
  {
    function View(): Maps {
      Maps(Read(agents, map[]), Read(details, map[]), Read(disabled, []),
           Read(roleDefaults, map[]), Read(roleOverrides, map[]))
    }
  }

  /** The columns the upgrade drops come back as database nulls. */
  const BLANK := Node(AnythingElse, AnythingElse, AnythingElse, AnythingElse, AnythingElse)

  function Written(m: Maps): Node {
    Node(Encoded(Some(m.agents)), Encoded(Some(m.details)), Encoded(Some(m.disabled)),
         Encoded(Some(m.roleDefaults)), Encoded(Some(m.roleOverrides)))
  }

  datatype Key = Key(node: string, agent: string)

  /** A row below its primary key; a database null is None. */
  datatype Row = Row(
    status: string, details: Option<Json>, disabled: bool, roleDefault: Option<string>, roleOverride: Option<string>)

  // ----- upgrade

  function Names(m: Maps): set<string> {
    m.agents.Keys + m.details.Keys + (set a | a in m.disabled) + m.roleDefaults.Keys + m.roleOverrides.Keys
  }

  function Get<T>(m: map<string, Option<T>>, a: string): Option<T> {
    if a in m then m[a] else None
  }

  function RowOf(m: Maps, a: string): Row {
    var status := Get(m.agents, a).GetOr("");
    Row(if status == "" then "unknown" else status, if a in m.details then Some(m.details[a]) else None,
        a in m.disabled, Get(m.roleDefaults, a), Get(m.roleOverrides, a))
  }

  function Upgrade(nodes: map<string, Node>): map<Key, Row> {
    map n, a | n in nodes && a in Names(nodes[n].View()) :: Key(n, a) := RowOf(nodes[n].View(), a)
  }

  // ----- downgrade

  /** A JSON null reads as nothing, like a database null. */
  predicate Present(details: Option<Json>) { details.Some? && details.value != Null }

  predicate Filled(role: Option<string>) { role.GetOr("") != "" }

  function With(m: Maps, a: string, r: Row): Maps {
    Maps(
      m.agents[a := Some(r.status)],
      if Present(r.details) then m.details[a := r.details.value] else m.details,
      if r.disabled then m.disabled + [a] else m.disabled,
      if Filled(r.roleDefault) then m.roleDefaults[a := r.roleDefault] else m.roleDefaults,
      if Filled(r.roleOverride) then m.roleOverrides[a := r.roleOverride] else m.roleOverrides)
  }

  /** Statuses, details, disabled agents and roles that hold just what the rows of a node hold. */
  ghost predicate HoldsStatus(agents: map<string, Option<string>>, rows: map<string, Row>) {
    && (forall a :: a in agents <==> a in rows)
    && (forall a :: a in rows ==> agents[a] == Some(rows[a].status))
  }

  ghost predicate HoldsDetails(details: map<string, Json>, rows: map<string, Row>) {
    && (forall a :: a in details <==> a in rows && Present(rows[a].details))
    && (forall a :: a in details ==> details[a] == rows[a].details.value)
  }

  ghost predicate HoldsDisabled(disabled: seq<string>, rows: map<string, Row>) {
    Sorted(disabled) && Distinct(disabled) && forall a :: a in disabled <==> a in rows && rows[a].disabled
  }

  datatype RoleColumn = Default | Override

  function Role(r: Row, column: RoleColumn): Option<string> {
    if column == Default then r.roleDefault else r.roleOverride
  }

  ghost predicate HoldsRoles(roles: map<string, Option<string>>, rows: map<string, Row>, column: RoleColumn) {
    && (forall a :: a in roles <==> a in rows && Filled(Role(rows[a], column)))
    && (forall a :: a in roles ==> roles[a] == Role(rows[a], column))
  }

  ghost predicate Holds(m: Maps, rows: map<string, Row>) {
    && HoldsStatus(m.agents, rows) && HoldsDetails(m.details, rows) && HoldsDisabled(m.disabled, rows)
    && HoldsRoles(m.roleDefaults, rows, Default) && HoldsRoles(m.roleOverrides, rows, Override)
  }

  lemma StatusOneMore(agents: map<string, Option<string>>, rows: map<string, Row>, a: string, r: Row)
    requires HoldsStatus(agents, rows) && a !in rows
    ensures HoldsStatus(agents[a := Some(r.status)], rows[a := r])
  {
  }

  lemma DetailsOneMore(details: map<string, Json>, rows: map<string, Row>, a: string, r: Row)
    requires HoldsDetails(details, rows) && a !in rows
    ensures HoldsDetails(if Present(r.details) then details[a := r.details.value] else details, rows[a := r])
  {
  }

  lemma DisabledOneMore(disabled: seq<string>, rows: map<string, Row>, a: string, r: Row)
    requires HoldsDisabled(disabled, rows) && ComesAfter(a, rows)
    ensures HoldsDisabled(if r.disabled then disabled + [a] else disabled, rows[a := r])
  {
    assert a !in disabled;
    assert forall i :: 0 <= i < |disabled| ==> disabled[i] in rows;
  }

  /** The agent is behind every agent of these rows. */
  ghost predicate ComesAfter(a: string, rows: map<string, Row>) {
    a !in rows && forall b :: b in rows ==> Text.Before(b, a)
  }

  lemma RolesOneMore(roles: map<string, Option<string>>, rows: map<string, Row>, column: RoleColumn, a: string, r: Row)
    requires HoldsRoles(roles, rows, column) && a !in rows
    ensures HoldsRoles(if Filled(Role(r, column)) then roles[a := Role(r, column)] else roles, rows[a := r], column)
  {
  }

  lemma WithHoldsOneMore(m: Maps, rows: map<string, Row>, a: string, r: Row)
    requires Holds(m, rows) && ComesAfter(a, rows)
    ensures Holds(With(m, a, r), rows[a := r])
  {
    StatusOneMore(m.agents, rows, a, r);
    DetailsOneMore(m.details, rows, a, r);
    DisabledOneMore(m.disabled, rows, a, r);
    RolesOneMore(m.roleDefaults, rows, Default, a, r);
    RolesOneMore(m.roleOverrides, rows, Override, a, r);
  }

  /** The rows of one node, by agent. */
  ghost function RowsOf(table: map<Key, Row>, keys: set<Key>, n: string): map<string, Row>
    requires keys <= table.Keys
  {
    map a | a in (set k | k in keys && k.node == n :: k.agent) :: table[Key(n, a)]
  }

  lemma RowsOneMore(table: map<Key, Row>, keys: set<Key>, k: Key, n: string)
    requires keys <= table.Keys && k in table && k !in keys
    ensures RowsOf(table, keys + {k}, n) ==
      if n == k.node then RowsOf(table, keys, n)[k.agent := table[k]] else RowsOf(table, keys, n)
    ensures k.agent !in RowsOf(table, keys, k.node)
  {
  }

  ghost predicate Grouped(grouped: map<string, Maps>, table: map<Key, Row>, keys: set<Key>)
    requires keys <= table.Keys
  {
    forall n :: GroupedAt(grouped, RowsOf(table, keys, n), n)
  }

  ghost predicate GroupedAt(grouped: map<string, Maps>, rows: map<string, Row>, n: string) {
    if n in grouped then rows != map[] && Holds(grouped[n], rows) else rows == map[]
  }

  lemma NothingHolds()
    ensures Holds(NO_MAPS, map[])
  {
  }

  lemma NextGroup(grouped: map<string, Maps>, rows: map<string, Row>, n: string, a: string, r: Row)
    requires GroupedAt(grouped, rows, n) && ComesAfter(a, rows)
    ensures
      var m := With(if n in grouped then grouped[n] else NO_MAPS, a, r);
      GroupedAt(grouped[n := m], rows[a := r], n)
  {
    NothingHolds();
    WithHoldsOneMore(if n in grouped then grouped[n] else NO_MAPS, rows, a, r);
    assert a in rows[a := r];
  }

  lemma OtherGroup(grouped: map<string, Maps>, rows: map<string, Row>, n: string, other: string, m: Maps)
    requires GroupedAt(grouped, rows, n) && other != n
    ensures GroupedAt(grouped[other := m], rows, n)
  {
  }

  lemma GroupedOneMore(grouped: map<string, Maps>, table: map<Key, Row>, keys: set<Key>, k: Key)
    requires keys <= table.Keys && k in table && k !in keys && Grouped(grouped, table, keys)
    requires forall l :: l in keys ==> Precedes(l, k)
    ensures
      var m := With(if k.node in grouped then grouped[k.node] else NO_MAPS, k.agent, table[k]);
      Grouped(grouped[k.node := m], table, keys + {k})
  {
    var m := With(if k.node in grouped then grouped[k.node] else NO_MAPS, k.agent, table[k]);
    forall n
      ensures GroupedAt(grouped[k.node := m], RowsOf(table, keys + {k}, n), n)
    {
      RowsOneMore(table, keys, k, n);
      assert GroupedAt(grouped, RowsOf(table, keys, n), n);
      if n == k.node {
        NextGroup(grouped, RowsOf(table, keys, n), n, k.agent, table[k]);
      } else {
        OtherGroup(grouped, RowsOf(table, keys, n), n, k.node, m);
      }
    }
  }

  /** The order of the query: by node, then by agent. */
  predicate Precedes(k: Key, l: Key) {
    k != l && if k.node != l.node then Text.Before(k.node, l.node) else Text.Before(k.agent, l.agent)
  }

  ghost predicate Listing(order: seq<Key>, table: map<Key, Row>) {
    && (forall i, j :: 0 <= i < j < |order| ==> Precedes(order[i], order[j]))
    && (forall k :: k in order <==> k in table)
  }

  ghost function Seen(order: seq<Key>, n: nat): set<Key>
    requires n <= |order|
  {
    set i | 0 <= i < n :: order[i]
  }

  lemma SeenOneMore(order: seq<Key>, table: map<Key, Row>, n: nat)
    requires Listing(order, table) && n < |order|
    ensures Seen(order, n + 1) == Seen(order, n) + {order[n]} && order[n] !in Seen(order, n)
    ensures Seen(order, n + 1) <= table.Keys && forall k :: k in Seen(order, n) ==> Precedes(k, order[n])
  {
  }

  /** Groups the rows by node as the query lists them. */
  method Group(order: seq<Key>, table: map<Key, Row>) returns (grouped: map<string, Maps>)
    requires Listing(order, table)
    ensures Grouped(grouped, table, table.Keys)
  {
    grouped := map[];
    for n := 0 to |order|
      invariant Seen(order, n) <= table.Keys && Grouped(grouped, table, Seen(order, n))
    {
      var k := order[n];
      SeenOneMore(order, table, n);
      assert k in table;
      var m := With(if k.node in grouped then grouped[k.node] else NO_MAPS, k.agent, table[k]);
      GroupedOneMore(grouped, table, Seen(order, n), k);
      grouped := grouped[k.node := m];
    }
    assert Seen(order, |order|) == table.Keys;
  }

  /** What the downgrade leaves of the nodes: those with rows get their maps, the others nulls. */
  ghost predicate Downgraded(after: map<string, Node>, table: map<Key, Row>, ids: set<string>) {
    && after.Keys == ids
    && forall n :: n in ids ==> Holds(after[n].View(), RowsOf(table, table.Keys, n))
  }

  /** Every row is a row of a node: the table's foreign key. */
  predicate Owned(table: map<Key, Row>, ids: set<string>) {
    forall k :: k in table ==> k.node in ids
  }

  method Downgrade(order: seq<Key>, table: map<Key, Row>, ids: set<string>) returns (after: map<string, Node>)
    requires Listing(order, table) && Owned(table, ids)
    ensures Downgraded(after, table, ids)
  {
    var grouped := Group(order, table);
    after := map n | n in ids :: Returned(grouped, n);
    forall n | n in ids
      ensures Holds(after[n].View(), RowsOf(table, table.Keys, n))
    {
      ReturnedHolds(grouped, table, n);
    }
  }

  function Returned(grouped: map<string, Maps>, n: string): Node {
    if n in grouped then Written(grouped[n]) else BLANK
  }

  lemma ReturnedHolds(grouped: map<string, Maps>, table: map<Key, Row>, n: string)
    requires Grouped(grouped, table, table.Keys)
    ensures Holds(Returned(grouped, n).View(), RowsOf(table, table.Keys, n))
  {
    assert GroupedAt(grouped, RowsOf(table, table.Keys, n), n);
    if n in grouped {
      assert Written(grouped[n]).View() == grouped[n];
    } else {
      NothingHolds();
    }
  }

  // ----- rows to maps to rows

  /** A row the maps can carry: what every upgrade of sound maps writes. */
  predicate Carried(r: Row) {
    && r.status != "" && r.details != Some(Null) && r.roleDefault != Some("") && r.roleOverride != Some("")
  }

  lemma RowSurvives(m: Maps, rows: map<string, Row>, a: string)
    requires Holds(m, rows) && a in rows
    ensures a in Names(m)
    ensures RowOf(m, a) == rows[a] <==> Carried(rows[a])
  {
    assert a in m.agents;
  }

  lemma NamesAreAgents(m: Maps, rows: map<string, Row>)
    requires Holds(m, rows)
    ensures Names(m) == rows.Keys
  {
    assert m.agents.Keys == rows.Keys;
  }

  /** Downgrading and upgrading again gives the same table exactly when every status is non-empty,
      no details are a JSON null and every role is absent or non-empty. */
  lemma RowsRoundTrip(after: map<string, Node>, table: map<Key, Row>, ids: set<string>)
    requires Owned(table, ids) && Downgraded(after, table, ids)
    ensures Upgrade(after).Keys == table.Keys
    ensures Upgrade(after) == table <==> forall k :: k in table ==> Carried(table[k])
  {
    var again := Upgrade(after);
    forall k
      ensures Survives(again, table, k)
    {
      KeySurvives(after, table, ids, k);
    }
    TablesAgree(again, table);
  }

  /** The key is in both tables or in neither, with the same row exactly when it can be carried. */
  ghost predicate Survives(again: map<Key, Row>, table: map<Key, Row>, k: Key) {
    && (k in again <==> k in table)
    && (k in table ==> (again[k] == table[k] <==> Carried(table[k])))
  }

  lemma TablesAgree(again: map<Key, Row>, table: map<Key, Row>)
    requires forall k :: Survives(again, table, k)
    ensures again.Keys == table.Keys
    ensures again == table <==> forall k :: k in table ==> Carried(table[k])
  {
    forall k
      ensures k in again <==> k in table
      ensures k in table ==> (again[k] == table[k] <==> Carried(table[k]))
    {
      assert Survives(again, table, k);
    }
    assert again.Keys == table.Keys;
    if again == table {
      forall k | k in table
        ensures Carried(table[k])
      {
        assert Survives(again, table, k);
      }
    }
  }

  lemma KeySurvives(after: map<string, Node>, table: map<Key, Row>, ids: set<string>, k: Key)
    requires Owned(table, ids) && Downgraded(after, table, ids)
    ensures Survives(Upgrade(after), table, k)
  {
    if k.node in ids {
      var m, rows := after[k.node].View(), RowsOf(table, table.Keys, k.node);
      NamesAreAgents(m, rows);
      assert k.agent in rows <==> k in table;
      if k in table {
        RowSurvives(m, rows, k.agent);
      }
    }
  }

  // ----- maps to rows to maps

  ghost predicate SettledStatus(now: Maps, was: Maps) {
    && (forall a :: a in now.agents <==> a in Names(was))
    && (forall a :: a in Names(was) ==>
          now.agents[a] == Some(if Filled(Get(was.agents, a)) then was.agents[a].value else "unknown"))
  }

  ghost predicate SettledDetails(now: map<string, Json>, was: map<string, Json>) {
    && (forall a :: a in now <==> a in was && was[a] != Null)
    && (forall a :: a in now ==> now[a] == was[a])
  }

  ghost predicate SettledRoles(now: map<string, Option<string>>, was: map<string, Option<string>>) {
    && (forall a :: a in now <==> a in was && Filled(was[a]))
    && (forall a :: a in now ==> now[a] == was[a])
  }

  /** What is left of a node's maps: details that are not null, roles that are not empty, the
      disabled agents once each and sorted, and a status for every agent, "unknown" where there was none. */
  ghost predicate Settled(now: Maps, was: Maps) {
    && SettledStatus(now, was)
    && SettledDetails(now.details, was.details)
    && now.disabled == Sort(Dedup(was.disabled))
    && SettledRoles(now.roleDefaults, was.roleDefaults)
    && SettledRoles(now.roleOverrides, was.roleOverrides)
  }

  lemma UpgradedRows(nodes: map<string, Node>, n: string)
    requires n in nodes
    ensures
      var table, m := Upgrade(nodes), nodes[n].View();
      AllRows(RowsOf(table, table.Keys, n), m)
  {
    var table, m := Upgrade(nodes), nodes[n].View();
    var rows := RowsOf(table, table.Keys, n);
    forall a
      ensures a in rows <==> a in Names(m)
      ensures a in Names(m) ==> a in rows && rows[a] == RowOf(m, a)
    {
      assert a in rows <==> Key(n, a) in table;
    }
  }

  ghost predicate AllRows(rows: map<string, Row>, was: Maps) {
    && rows.Keys == Names(was)
    && forall a :: a in rows ==> rows[a] == RowOf(was, a)
  }

  lemma DisabledSettles(disabled: seq<string>, rows: map<string, Row>, was: Maps)
    requires AllRows(rows, was) && HoldsDisabled(disabled, rows)
    ensures disabled == Sort(Dedup(was.disabled))
  {
    assert forall a :: a in was.disabled ==> a in rows;
    SortedDedupIsCanonical(disabled, was.disabled);
    SortedStays(disabled);
  }

  /** Sorting and deduplicating a sorted list of distinct names changes nothing. */
  lemma SortedStays(names: seq<string>)
    requires Sorted(names) && Distinct(names)
    ensures Sort(Dedup(names)) == names
  {
    DedupOfDistinct(names);
    SortSorts(names);
    SortedUnique(Sort(names), names);
  }

  lemma SettledDisabled(disabled: seq<string>)
    ensures forall a :: a in Sort(Dedup(disabled)) <==> a in disabled
    ensures Sort(Dedup(Sort(Dedup(disabled)))) == Sort(Dedup(disabled))
  {
    DedupKeepsElements(disabled);
    SortSorts(Dedup(disabled));
    forall a
      ensures a in Sort(Dedup(disabled)) <==> a in disabled
    {
      assert a in Sort(Dedup(disabled)) <==> a in multiset(Sort(Dedup(disabled)));
      assert a in Dedup(disabled) <==> a in multiset(Dedup(disabled));
    }
    SortedDedupIsCanonical(Sort(Dedup(disabled)), disabled);
  }

  lemma DetailsSettle(details: map<string, Json>, rows: map<string, Row>, was: Maps)
    requires AllRows(rows, was) && HoldsDetails(details, rows)
    ensures SettledDetails(details, was.details)
  {
    assert forall a :: a in was.details ==> a in rows;
  }

  lemma RolesSettle(roles: map<string, Option<string>>, rows: map<string, Row>, was: Maps, column: RoleColumn)
    requires AllRows(rows, was) && HoldsRoles(roles, rows, column)
    ensures SettledRoles(roles, if column == Default then was.roleDefaults else was.roleOverrides)
  {
    assert forall a :: a in was.roleDefaults || a in was.roleOverrides ==> a in rows;
  }

  lemma StatusSettles(now: Maps, rows: map<string, Row>, was: Maps)
    requires AllRows(rows, was) && HoldsStatus(now.agents, rows)
    ensures SettledStatus(now, was)
  {
  }

  lemma HoldingRowsSettles(now: Maps, rows: map<string, Row>, was: Maps)
    requires AllRows(rows, was) && Holds(now, rows)
    ensures Settled(now, was)
  {
    StatusSettles(now, rows, was);
    DetailsSettle(now.details, rows, was);
    DisabledSettles(now.disabled, rows, was);
    RolesSettle(now.roleDefaults, rows, was, Default);
    RolesSettle(now.roleOverrides, rows, was, Override);
  }

  /** Upgrading and downgrading again settles the maps of every node. */
  lemma MapsRoundTrip(after: map<string, Node>, nodes: map<string, Node>)
    requires Downgraded(after, Upgrade(nodes), nodes.Keys)
    ensures after.Keys == nodes.Keys
    ensures forall n :: n in nodes ==> Settled(after[n].View(), nodes[n].View())
  {
    forall n | n in nodes
      ensures Settled(after[n].View(), nodes[n].View())
    {
      UpgradedRows(nodes, n);
      var table := Upgrade(nodes);
      HoldingRowsSettles(after[n].View(), RowsOf(table, table.Keys, n), nodes[n].View());
    }
  }

  /** Maps whose every agent has a status, with no null details, no empty role, and the disabled
      agents sorted and once each. */
  predicate Sound(m: Maps) {
    && (forall a :: a in Names(m) ==> a in m.agents && Filled(m.agents[a]))
    && (forall a :: a in m.details ==> m.details[a] != Null)
    && (forall a :: a in m.roleDefaults ==> Filled(m.roleDefaults[a]))
    && (forall a :: a in m.roleOverrides ==> Filled(m.roleOverrides[a]))
    && m.disabled == Sort(Dedup(m.disabled))
  }

  /** Settling changes nothing exactly when the maps are sound. */
  lemma SoundMapsAreSettled(now: Maps, was: Maps)
    requires Settled(now, was)
    ensures now == was <==> Sound(was)
  {
    if Sound(was) {
      assert now.agents == was.agents;
      assert now.details == was.details;
      assert now.roleDefaults == was.roleDefaults && now.roleOverrides == was.roleOverrides;
    }
    if now == was {
      assert forall a :: a in Names(was) ==> a in now.agents;
    }
  }

  /** Settled maps are sound, so a second round trip changes nothing. */
  lemma SettledTwice(now: Maps, was: Maps)
    requires Settled(now, was)
    ensures Sound(now) && Names(now) == Names(was)
  {
    SettledDisabled(was.disabled);
    SettledNames(now, was);
    SettledStatusIsFilled(now, was);
  }

  /** Settling adds no agent and drops none. */
  lemma SettledNames(now: Maps, was: Maps)
    requires Settled(now, was)
    ensures Names(now) == Names(was)
  {
    SettledDisabled(was.disabled);
    forall a
      ensures a in Names(now) <==> a in Names(was)
    {
      assert a in now.agents <==> a in Names(was);
    }
  }

  lemma SettledStatusIsFilled(now: Maps, was: Maps)
    requires SettledStatus(now, was)
    ensures forall a :: a in Names(was) ==> a in now.agents && Filled(now.agents[a])
  {
  }

  /** From the second round trip on nothing changes. */
  lemma SecondRoundTrip(nodes: map<string, Node>, after: map<string, Node>, again: map<string, Node>)
    requires Downgraded(after, Upgrade(nodes), nodes.Keys) && Downgraded(again, Upgrade(after), after.Keys)
    ensures again.Keys == nodes.Keys && forall n :: n in nodes ==> again[n].View() == after[n].View()
  {
    MapsRoundTrip(after, nodes);
    MapsRoundTrip(again, after);
    forall n | n in nodes
      ensures again[n].View() == after[n].View()
    {
      SettledTwice(after[n].View(), nodes[n].View());
      SoundMapsAreSettled(again[n].View(), after[n].View());
    }
  }
}

/** The migration as a whole: plain references, compatibility keys, documents and public ids.
    Models upgrade in backend/migrations/versions/20260728_0039_backfill_entity_uuid_ids.py. */
module IdBackfillUpgrade {
  import opened Wrappers
  import opened IdBackfill
  import Json = IdBackfillJson
  import Keys = IdBackfillKeys

  // ----- the legacy ids of a table, in the order of its rows

  function LegacyItems(rows: seq<Row>): seq<Keys.Item> {
    if rows == [] then []
    else
      var front, last := LegacyItems(rows[..|rows| - 1]), rows[|rows| - 1];
      if last.Legacy() then front + [Keys.Item(last.publicId.value, last.id)] else front
  }

  ghost predicate LegacyIn(rows: seq<Row>, p: string) {
    exists i :: 0 <= i < |rows| && rows[i].Legacy() && rows[i].publicId == Some(p)
  }

  lemma LegacyInFront(front: seq<Row>, last: Row, p: string)
    ensures LegacyIn(front + [last], p) <==> LegacyIn(front, p) || (last.Legacy() && last.publicId == Some(p))
  {
    var rows := front + [last];
    assert rows[|front|] == last;
    if LegacyIn(front, p) {
      var i :| 0 <= i < |front| && front[i].Legacy() && front[i].publicId == Some(p);
      assert rows[i] == front[i];
    }
  }

  lemma {:induction false} ItemsNameRows(rows: seq<Row>, p: string)
    ensures Keys.Listed(LegacyItems(rows), p) <==> LegacyIn(rows, p)
  {
    if rows != [] {
      var front, last := rows[..|rows| - 1], rows[|rows| - 1];
      ItemsNameRows(front, p);
      assert rows == front + [last];
      LegacyInFront(front, last, p);
      if last.Legacy() {
        Keys.ListedOneMore(LegacyItems(front), Keys.Item(last.publicId.value, last.id), p);
      }
    }
  }

  /** They list the table's mapping. */
  lemma {:induction false} ItemsListMapping(rows: seq<Row>)
    requires UniquePublicIds(rows)
    ensures Keys.Lists(LegacyItems(rows), EntityMapping(rows))
  {
    if rows != [] {
      var front, last := rows[..|rows| - 1], rows[|rows| - 1];
      ItemsListMapping(front);
      if last.Legacy() {
        ItemsNameRows(front, last.publicId.value);
        OneMoreListed(LegacyItems(front), EntityMapping(front), last.publicId.value, last.id);
      }
    }
  }

  lemma OneMoreListed(items: seq<Keys.Item>, m: Mapping, p: string, to: string)
    requires Keys.Lists(items, m) && !Keys.Listed(items, p)
    ensures Keys.Lists(items + [Keys.Item(p, to)], m[p := to])
  {
    var more := items + [Keys.Item(p, to)];
    assert more[|items|] == Keys.Item(p, to);
    var grown := m[p := to];
    forall q | q in grown
      ensures exists i :: 0 <= i < |more| && more[i].p == q
    {
      if q != p {
        var i :| 0 <= i < |items| && items[i].p == q;
        assert more[i].p == q;
      }
    }
  }

  /** A compatibility key of distinguishable fields keeps its fields, each legacy node id among them
      replaced by its node's id. */
  lemma KeysKeepTheirNodes(tables: Tables, fields: seq<string>)
    requires Migratable(tables) && Keys.Distinguishable(EntityMapping(tables.Of(DaemonNodes)), fields)
    ensures
      var nodes := tables.Of(DaemonNodes);
      var m := EntityMapping(nodes);
      Keys.Rewritten(Some(Keys.Join(fields)), LegacyItems(nodes)) ==
        Some(Keys.Join(seq(|fields|, i requires 0 <= i < |fields| =>
          if fields[i] in m then m[fields[i]] else fields[i])))
  {
    ItemsListMapping(tables.Of(DaemonNodes));
    Keys.KeysAreRewritten(EntityMapping(tables.Of(DaemonNodes)), LegacyItems(tables.Of(DaemonNodes)), fields);
  }

  lemma {:induction false} NoMappingNoItems(rows: seq<Row>)
    ensures LegacyItems(rows) != [] ==> EntityMapping(rows) != map[]
  {
    if rows != [] {
      var last := rows[|rows| - 1];
      NoMappingNoItems(rows[..|rows| - 1]);
      assert last.Legacy() ==> last.publicId.value in EntityMapping(rows);
    }
  }

  // ----- the migration in place

  ghost predicate KeysRewritten(tables: Tables, keys: Keys.Column, rewritten: Keys.Column) {
    && |rewritten| == |keys|
    && forall i :: 0 <= i < |keys| ==> rewritten[i] == Keys.Rewritten(keys[i], LegacyItems(tables.Of(DaemonNodes)))
  }

  ghost predicate DocumentsRewritten(m: Mapping, documents: seq<seq<Json.Row>>, rewritten: seq<seq<Json.Row>>) {
    && |rewritten| == |documents|
    && forall c :: 0 <= c < |documents| ==> DocumentRewritten(m, documents[c], rewritten[c])
  }

  ghost predicate DocumentRewritten(m: Mapping, rows: seq<Json.Row>, rewritten: seq<Json.Row>) {
    |rewritten| == |rows| && forall i :: 0 <= i < |rows| ==> rewritten[i] == Json.Rewritten(m, rows[i])
  }

  class Backfill {
    var tables: Tables
    var columns: PerEntity<seq<Column>>
    var keys: Keys.Column
    var documents: seq<seq<Json.Row>>

    constructor (tables: Tables, columns: PerEntity<seq<Column>>, keys: Keys.Column, documents: seq<seq<Json.Row>>)
      ensures this.tables == tables && this.columns == columns && this.keys == keys && this.documents == documents
    {
      this.tables, this.columns, this.keys, this.documents := tables, columns, keys, documents;
    }

    /** Both UPDATE statements of one table. */
    method ReplacePublicIds(m: Mapping, e: Entity)
      requires Ready(m, tables.Of(e))
      modifies this`tables
      ensures tables == old(tables).With(e, Settled(old(tables).Of(e)))
      ensures UniquePublicIds(tables.Of(e))
    {
      var staged := StageRows(m, tables.Of(e));
      var settled := UnstageRows(m, tables.Of(e), staged);
      tables := tables.With(e, settled);
    }

    /** The reference columns of every table that has legacy ids. */
    method RewriteReferences(combined: Mapping)
      requires combined == Combined(tables)
      modifies this`columns
      ensures forall e :: ColumnsRewritten(tables, e, old(columns).Of(e), columns.Of(e))
    {
      ghost var before := columns;
      for k := 0 to |ENTITIES|
        invariant forall i :: k <= i < |ENTITIES| ==> columns.Of(ENTITIES[i]) == before.Of(ENTITIES[i])
        invariant forall i :: 0 <= i < k ==>
          ColumnsRewritten(tables, ENTITIES[i], before.Of(ENTITIES[i]), columns.Of(ENTITIES[i]))
      {
        var e := ENTITIES[k];
        if EntityMapping(tables.Of(e)) != map[] {
          var rewritten := ReplaceColumns(combined, columns.Of(e));
          columns := columns.With(e, rewritten);
        }
      }
      forall e
        ensures ColumnsRewritten(tables, e, before.Of(e), columns.Of(e))
      {
        var i := Listed(e);
      }
    }

    /** The public ids of every table that has legacy ids. */
    method ReplaceAllPublicIds(combined: Mapping)
      requires forall e :: Ready(combined, tables.Of(e))
      modifies this`tables
      ensures forall e :: tables.Of(e) == Settled(old(tables).Of(e)) && UniquePublicIds(tables.Of(e))
    {
      ghost var before := tables;
      for k := 0 to |ENTITIES|
        invariant forall i :: k <= i < |ENTITIES| ==> tables.Of(ENTITIES[i]) == before.Of(ENTITIES[i])
        invariant forall i :: 0 <= i < k ==>
          tables.Of(ENTITIES[i]) == Settled(before.Of(ENTITIES[i])) && UniquePublicIds(tables.Of(ENTITIES[i]))
      {
        var e := ENTITIES[k];
        assert Ready(combined, before.Of(e));
        if EntityMapping(tables.Of(e)) != map[] {
          ReplacePublicIds(combined, e);
        } else {
          NothingLegacyIn(before.Of(e));
        }
      }
      forall e
        ensures tables.Of(e) == Settled(before.Of(e)) && UniquePublicIds(tables.Of(e))
      {
        var i := Listed(e);
      }
    }

    /** The compatibility keys of the agents. */
    method RewriteKeys()
      modifies this`keys
      ensures KeysRewritten(tables, old(keys), keys)
    {
      keys := Keys.ReplaceEmbeddedValues(LegacyItems(tables.Of(DaemonNodes)), keys);
    }

    /** Every JSON column in turn. */
    method RewriteDocuments(combined: Mapping)
      requires forall rows :: rows in documents ==> Json.Ordered(rows)
      modifies this`documents
      ensures DocumentsRewritten(combined, old(documents), documents)
    {
      ghost var before := documents;
      for c := 0 to |documents|
        invariant |documents| == |before|
        invariant forall d :: 0 <= d < c ==> DocumentRewritten(combined, before[d], documents[d])
        invariant forall d :: c <= d < |before| ==> documents[d] == before[d]
      {
        assert documents[c] in before;
        var rows, _ := Json.ReplaceJsonValues(combined, documents[c]);
        documents := documents[c := rows];
      }
    }

    /** The whole migration: every reference first, then the public ids. With no legacy id anywhere it
        changes nothing. */
    method Upgrade()
      requires Migratable(tables) && forall rows :: rows in documents ==> Json.Ordered(rows)
      modifies this
      ensures forall e :: tables.Of(e) == Settled(old(tables).Of(e)) && UniquePublicIds(tables.Of(e))
      ensures forall e :: ColumnsRewritten(old(tables), e, old(columns).Of(e), columns.Of(e))
      ensures KeysRewritten(old(tables), old(keys), keys)
      ensures DocumentsRewritten(Combined(old(tables)), old(documents), documents)
    {
      var combined := Combined(tables);
      if combined == map[] {
        NothingToRewrite(tables, documents);
        return;
      }
      forall e
        ensures Ready(combined, tables.Of(e))
      {
        CombinedIsFaithful(tables, e);
      }
      RewriteReferences(combined);
      RewriteKeys();
      RewriteDocuments(combined);
      ReplaceAllPublicIds(combined);
    }
  }

  /** Without a legacy id nothing is there to rewrite. */
  lemma NothingToRewrite(tables: Tables, documents: seq<seq<Json.Row>>)
    requires Migratable(tables) && Combined(tables) == map[]
    ensures forall e :: EntityMapping(tables.Of(e)) == map[] && Settled(tables.Of(e)) == tables.Of(e)
    ensures LegacyItems(tables.Of(DaemonNodes)) == []
    ensures DocumentsRewritten(Combined(tables), documents, documents)
  {
    forall e
      ensures EntityMapping(tables.Of(e)) == map[] && Settled(tables.Of(e)) == tables.Of(e)
    {
      EmptyEverywhere(tables, e);
      NothingLegacyIn(tables.Of(e));
    }
    NoMappingNoItems(tables.Of(DaemonNodes));
    forall c, i | 0 <= c < |documents| && 0 <= i < |documents[c]|
      ensures documents[c][i] == Json.Rewritten(map[], documents[c][i])
    {
      if documents[c][i].value.Some? {
        Json.EmptyMappingRewritesNothing(documents[c][i].value.value);
      }
    }
  }
}

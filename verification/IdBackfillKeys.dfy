/** The rewrite of legacy node ids inside compatibility keys.
    Models _replace_embedded_column_values in
    backend/migrations/versions/20260728_0039_backfill_entity_uuid_ids.py. */
module IdBackfillKeys {
  import opened Wrappers

  // ----- one replacement

  /** Every occurrence, from the left, replaced; there is none of the empty text. */
  function ReplaceAll(s: string, p: string, to: string): string
    decreases |s|
  {
    if p == "" || |s| < |p| then s
    else if p <= s then to + ReplaceAll(s[|p|..], p, to)
    else [s[0]] + ReplaceAll(s[1..], p, to)
  }

  ghost predicate Occurs(p: string, s: string) {
    exists i, j :: 0 <= i < j <= |s| && s[i..j] == p
  }

  lemma {:induction false} AbsentStays(s: string, p: string, to: string)
    requires !Occurs(p, s)
    ensures ReplaceAll(s, p, to) == s
    decreases |s|
  {
    if p != "" && |s| >= |p| {
      assert s[0..|p|] == s[..|p|];
      forall i, j | 0 <= i < j <= |s[1..]|
        ensures s[1..][i..j] != p
      {
        assert s[1..][i..j] == s[i + 1..j + 1];
      }
      AbsentStays(s[1..], p, to);
    }
  }

  lemma WholeIsReplaced(p: string, to: string)
    requires p != ""
    ensures ReplaceAll(p, p, to) == to
  {
    assert p[|p|..] == "";
    assert ReplaceAll("", p, to) == "";
  }

  const SEPARATOR := ':'

  function Beside(a: string, b: string): string { a + [SEPARATOR] + b }

  lemma BesideGrows(x: string, a: string, b: string)
    ensures Beside(x + a, b) == x + Beside(a, b)
  {
  }

  lemma BesideDrops(a: string, b: string, n: nat)
    requires n <= |a|
    ensures n <= |Beside(a, b)| && Beside(a, b)[n..] == Beside(a[n..], b)
  {
  }

  /** A text without the separator starts a joined text only if it starts its first part. */
  lemma StartsFirstPart(a: string, b: string, p: string)
    requires SEPARATOR !in p
    ensures p <= Beside(a, b) <==> p <= a
  {
    var s := Beside(a, b);
    assert s[|a|] == SEPARATOR;
    if p <= s {
      assert forall k :: 0 <= k < |p| ==> s[k] in p;
    }
  }

  lemma ReplaceFirst(s: string, p: string, to: string)
    requires p != "" && p <= s
    ensures ReplaceAll(s, p, to) == to + ReplaceAll(s[|p|..], p, to)
  {
  }

  lemma ReplaceLater(s: string, p: string, to: string)
    requires p != "" && s != "" && !(p <= s)
    ensures ReplaceAll(s, p, to) == [s[0]] + ReplaceAll(s[1..], p, to)
  {
    ReplaceShort(s, p, to);
    ReplaceShort(s[1..], p, to);
  }

  /** No occurrence reaches across a separator. */
  lemma {:induction false} ReplaceBesideSeparator(a: string, b: string, p: string, to: string)
    requires SEPARATOR !in p && p != ""
    ensures ReplaceAll(Beside(a, b), p, to) == Beside(ReplaceAll(a, p, to), ReplaceAll(b, p, to))
    decreases |a|
  {
    StartsFirstPart(a, b, p);
    if a == "" {
      ReplaceLater(Beside(a, b), p, to);
      assert Beside(a, b)[1..] == b;
      ReplaceShort("", p, to);
    } else if p <= a {
      ReplaceBesideSeparator(a[|p|..], b, p, to);
      ReplaceFirst(Beside(a, b), p, to);
      ReplaceFirst(a, p, to);
      BesideDrops(a, b, |p|);
      BesideGrows(to, ReplaceAll(a[|p|..], p, to), ReplaceAll(b, p, to));
    } else {
      ReplaceBesideSeparator(a[1..], b, p, to);
      ReplaceLater(Beside(a, b), p, to);
      ReplaceLater(a, p, to);
      BesideDrops(a, b, 1);
      BesideGrows([a[0]], ReplaceAll(a[1..], p, to), ReplaceAll(b, p, to));
    }
  }

  lemma ReplaceShort(s: string, p: string, to: string)
    ensures |s| < |p| ==> ReplaceAll(s, p, to) == s
  {
  }

  // ----- all of them, one after another

  /** A legacy id and the id of its row. */
  datatype Item = Item(p: string, to: string)

  function ReplaceEach(s: string, items: seq<Item>): string {
    if items == [] then s
    else
      var last := items[|items| - 1];
      ReplaceAll(ReplaceEach(s, items[..|items| - 1]), last.p, last.to)
  }

  function Join(fields: seq<string>): string {
    if fields == [] then "" else if |fields| == 1 then fields[0] else Beside(fields[0], Join(fields[1..]))
  }

  /** A key holds its fields and one colon fewer. */
  lemma {:induction false} JoinHolds(fields: seq<string>, last: string)
    requires fields != []
    ensures Join([last]) == last
    ensures Join(fields + [last]) == Join(fields) + ":" + last
    decreases |fields|
  {
    var more := fields + [last];
    if |fields| == 1 {
      assert more[1..] == [last];
    } else {
      assert more[1..] == fields[1..] + [last];
      JoinHolds(fields[1..], last);
      assert Beside(fields[0], Join(fields[1..]) + ":" + last) == Beside(fields[0], Join(fields[1..])) + ":" + last;
    }
  }

  function ReplaceFields(fields: seq<string>, item: Item): seq<string> {
    seq(|fields|, i requires 0 <= i < |fields| => ReplaceAll(fields[i], item.p, item.to))
  }

  lemma {:induction false} JoinReplaces(fields: seq<string>, item: Item)
    requires SEPARATOR !in item.p && item.p != ""
    ensures ReplaceAll(Join(fields), item.p, item.to) == Join(ReplaceFields(fields, item))
  {
    var replaced := ReplaceFields(fields, item);
    if fields == [] {
      ReplaceShort("", item.p, item.to);
    } else if |fields| > 1 {
      ReplaceBesideSeparator(fields[0], Join(fields[1..]), item.p, item.to);
      JoinReplaces(fields[1..], item);
      assert replaced[1..] == ReplaceFields(fields[1..], item);
    }
  }

  /** The items list the mapping: each legacy id once, with its row's id. */
  ghost predicate Lists(items: seq<Item>, m: map<string, string>) {
    && (forall i :: 0 <= i < |items| ==> items[i].p in m && m[items[i].p] == items[i].to)
    && (forall p :: p in m ==> exists i :: 0 <= i < |items| && items[i].p == p)
    && (forall i, j :: 0 <= i < j < |items| ==> items[i].p != items[j].p)
  }

  /** A legacy id has no separator, and occurs in a field only as the whole of it, and in no new id. */
  ghost predicate Distinguishable(m: map<string, string>, fields: seq<string>) {
    && (forall p :: p in m ==> p != "" && SEPARATOR !in p)
    && (forall p, i :: p in m && 0 <= i < |fields| && Occurs(p, fields[i]) ==> fields[i] == p)
    && (forall p, q :: p in m && q in m ==> !Occurs(p, m[q]))
  }

  /** The fields once the first n items are done. */
  function Fields(m: map<string, string>, items: seq<Item>, fields: seq<string>): seq<string> {
    seq(|fields|, i requires 0 <= i < |fields| =>
      if Listed(items, fields[i]) && fields[i] in m then m[fields[i]] else fields[i])
  }

  predicate Listed(items: seq<Item>, p: string) { exists i :: 0 <= i < |items| && items[i].p == p }

  lemma OneMoreItem(m: map<string, string>, items: seq<Item>, item: Item, fields: seq<string>)
    requires Distinguishable(m, fields) && item.p in m && m[item.p] == item.to && !Listed(items, item.p)
    ensures ReplaceFields(Fields(m, items, fields), item) == Fields(m, items + [item], fields)
  {
    forall i | 0 <= i < |fields|
      ensures ReplaceFields(Fields(m, items, fields), item)[i] == Fields(m, items + [item], fields)[i]
    {
      ListedOneMore(items, item, fields[i]);
      if fields[i] == item.p {
        WholeIsReplaced(item.p, item.to);
      } else {
        AbsentStays(Fields(m, items, fields)[i], item.p, item.to);
      }
    }
  }

  lemma ListedOneMore(items: seq<Item>, item: Item, p: string)
    ensures Listed(items + [item], p) <==> Listed(items, p) || item.p == p
  {
    var more := items + [item];
    assert more[|items|] == item;
    if Listed(items, p) {
      var i :| 0 <= i < |items| && items[i].p == p;
      assert more[i].p == p;
    }
  }

  lemma {:induction false} ItemsReplaceFields(m: map<string, string>, items: seq<Item>, fields: seq<string>)
    requires Distinguishable(m, fields)
    requires forall i :: 0 <= i < |items| ==> items[i].p in m && m[items[i].p] == items[i].to
    requires forall i, j :: 0 <= i < j < |items| ==> items[i].p != items[j].p
    ensures ReplaceEach(Join(fields), items) == Join(Fields(m, items, fields))
  {
    if items == [] {
      assert Fields(m, items, fields) == fields;
    } else {
      var front, last := items[..|items| - 1], items[|items| - 1];
      ItemsReplaceFields(m, front, fields);
      OneMoreItem(m, front, last, fields);
      assert items == front + [last];
      JoinReplaces(Fields(m, front, fields), last);
    }
  }

  /** In whatever order the ids are replaced, a key of distinguishable fields keeps its fields, each
      legacy id among them replaced by its row's id. */
  lemma KeysAreRewritten(m: map<string, string>, items: seq<Item>, fields: seq<string>)
    requires Lists(items, m) && Distinguishable(m, fields)
    ensures ReplaceEach(Join(fields), items) ==
      Join(seq(|fields|, i requires 0 <= i < |fields| => if fields[i] in m then m[fields[i]] else fields[i]))
  {
    ItemsReplaceFields(m, items, fields);
    assert Fields(m, items, fields) ==
      seq(|fields|, i requires 0 <= i < |fields| => if fields[i] in m then m[fields[i]] else fields[i]);
  }

  // ----- the column

  type Column = seq<Option<string>>

  function Rewritten(value: Option<string>, items: seq<Item>): Option<string> {
    if value.None? then None else Some(ReplaceEach(value.value, items))
  }

  /** One UPDATE for each legacy id, over every row. */
  method ReplaceEmbeddedValues(items: seq<Item>, column: Column) returns (now: Column)
    ensures |now| == |column| && forall i :: 0 <= i < |column| ==> now[i] == Rewritten(column[i], items)
  {
    now := column;
    for n := 0 to |items|
      invariant |now| == |column| && forall i :: 0 <= i < |column| ==> now[i] == Rewritten(column[i], items[..n])
    {
      assert items[..n + 1][..n] == items[..n];
      now := seq(|now|, i requires 0 <= i < |now| =>
        if now[i].None? then None else Some(ReplaceAll(now[i].value, items[n].p, items[n].to)));
    }
    assert items[..|items|] == items;
  }
}

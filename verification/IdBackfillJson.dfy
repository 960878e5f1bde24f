/** The rewrite of legacy ids inside JSON columns.
    Models _build_pattern, _replace_json_values and _replace_json_scalars in
    backend/migrations/versions/20260728_0039_backfill_entity_uuid_ids.py. */
module IdBackfillJson {
  import opened Wrappers
  import IdBackfill

  // ----- texts

  /** The length of the longest key, at most n long, that the text starts with; 0 if there is none.
      The pattern tries its keys longest first. */
  function LongestKey(m: IdBackfill.Mapping, s: string, n: nat): (length: nat)
    requires n <= |s|
    ensures length <= n
    ensures length > 0 ==> s[..length] in m
    ensures forall k :: length < k <= n ==> s[..k] !in m
  {
    if n == 0 then 0 else if s[..n] in m then n else LongestKey(m, s, n - 1)
  }

  /** Every match of the pattern, from the left, replaced. */
  function RewriteText(m: IdBackfill.Mapping, s: string): string
    decreases |s|
  {
    if s == "" then ""
    else
      var length := LongestKey(m, s, |s|);
      if length > 0 then m[s[..length]] + RewriteText(m, s[length..])
      else [s[0]] + RewriteText(m, s[1..])
  }

  /** A text that is a legacy id, even one that contains others, becomes that row's id. */
  lemma WholeIdIsRewritten(m: IdBackfill.Mapping, p: string)
    requires p in m && p != ""
    ensures RewriteText(m, p) == m[p]
  {
    assert p[..|p|] == p;
    assert p[|p|..] == "";
  }

  ghost predicate Mentions(m: IdBackfill.Mapping, s: string) {
    exists i, j :: 0 <= i < j <= |s| && s[i..j] in m
  }

  /** A text changes only if a legacy id occurs in it. */
  lemma {:induction false} OtherTextsStay(m: IdBackfill.Mapping, s: string)
    requires !Mentions(m, s)
    ensures RewriteText(m, s) == s
    decreases |s|
  {
    if s != "" {
      var length := LongestKey(m, s, |s|);
      assert s[..length] == s[0..length];
      forall i, j | 0 <= i < j <= |s[1..]|
        ensures s[1..][i..j] !in m
      {
        assert s[1..][i..j] == s[i + 1..j + 1];
      }
      OtherTextsStay(m, s[1..]);
    }
  }

  /** A text as legacy ids and other characters, laid end to end. */
  datatype Piece = Id(p: string) | Plain(c: char)

  function Spell(pieces: seq<Piece>): string {
    if pieces == [] then ""
    else (if pieces[0].Id? then pieces[0].p else [pieces[0].c]) + Spell(pieces[1..])
  }

  function SpellNew(m: IdBackfill.Mapping, pieces: seq<Piece>): string
    requires forall piece :: piece in pieces && piece.Id? ==> piece.p in m
  {
    if pieces == [] then ""
    else (if pieces[0].Id? then m[pieces[0].p] else [pieces[0].c]) + SpellNew(m, pieces[1..])
  }

  /** Where a piece starts, the longest key is the piece itself, or there is none. */
  ghost predicate Clear(m: IdBackfill.Mapping, pieces: seq<Piece>) {
    pieces != [] ==>
      && (pieces[0].Id? ==> pieces[0].p in m && pieces[0].p != "")
      && LongestKey(m, Spell(pieces), |Spell(pieces)|) == (if pieces[0].Id? then |pieces[0].p| else 0)
      && Clear(m, pieces[1..])
  }

  lemma {:induction false} ClearTextsAreRewritten(m: IdBackfill.Mapping, pieces: seq<Piece>)
    requires Clear(m, pieces) && forall piece :: piece in pieces && piece.Id? ==> piece.p in m
    ensures RewriteText(m, Spell(pieces)) == SpellNew(m, pieces)
  {
    if pieces != [] {
      ClearTextsAreRewritten(m, pieces[1..]);
      var first := if pieces[0].Id? then pieces[0].p else [pieces[0].c];
      assert Spell(pieces)[..|first|] == first && Spell(pieces)[|first|..] == Spell(pieces[1..]);
    }
  }

  /** The ids are legacy ids, no two of them touch, and the other characters occur in no legacy id. */
  ghost predicate SetApart(m: IdBackfill.Mapping, pieces: seq<Piece>) {
    && (forall piece :: piece in pieces && piece.Id? ==> piece.p in m && piece.p != "")
    && (forall piece, k :: piece in pieces && piece.Plain? && k in m ==> piece.c !in k)
    && (forall i, j :: 0 <= i < j < |pieces| && j == i + 1 ==> pieces[i].Plain? || pieces[j].Plain?)
  }

  /** A key that a text starts with goes no further than the first character that is in no key. */
  lemma KeyEndsBefore(m: IdBackfill.Mapping, s: string, at: nat)
    requires at < |s| && forall k :: k in m ==> s[at] !in k
    ensures LongestKey(m, s, |s|) <= at
  {
    forall n | at < n <= |s|
      ensures s[..n] !in m
    {
      assert s[..n][at] == s[at];
    }
  }

  lemma {:induction false} SetApartIsClear(m: IdBackfill.Mapping, pieces: seq<Piece>)
    requires SetApart(m, pieces)
    ensures Clear(m, pieces)
  {
    if pieces != [] {
      var rest, s := pieces[1..], Spell(pieces);
      assert SetApart(m, rest) by {
        assert forall i :: 0 <= i < |rest| ==> rest[i] == pieces[i + 1];
      }
      SetApartIsClear(m, rest);
      if pieces[0].Plain? {
        KeyEndsBefore(m, s, 0);
      } else {
        assert s[..|pieces[0].p|] == pieces[0].p;
        if rest != [] {
          assert rest[0] == pieces[1] && pieces[1] in pieces && s[|pieces[0].p|] == pieces[1].c;
          KeyEndsBefore(m, s, |pieces[0].p|);
        }
      }
    }
  }

  /** In a text whose legacy ids are set apart each id becomes its row's id and the rest stays. */
  lemma EmbeddedIdsAreRewritten(m: IdBackfill.Mapping, pieces: seq<Piece>)
    requires SetApart(m, pieces)
    ensures RewriteText(m, Spell(pieces)) == SpellNew(m, pieces)
  {
    SetApartIsClear(m, pieces);
    ClearTextsAreRewritten(m, pieces);
  }

  // ----- what a text must be to become a given id

  lemma {:induction false} NothingVanishes(m: IdBackfill.Mapping, s: string)
    requires s != "" && forall k :: k in m ==> m[k] != ""
    ensures RewriteText(m, s) != ""
  {
  }

  /** A text that mentions a legacy id either is one, or becomes longer than an id. */
  lemma {:induction false} MentionLengthens(m: IdBackfill.Mapping, s: string)
    requires Mentions(m, s) && forall k :: k in m ==> |m[k]| == 36
    ensures (s != "" && s in m) || |RewriteText(m, s)| > 36
    decreases |s|
  {
    var length := LongestKey(m, s, |s|);
    if length > 0 {
      if s[length..] != "" {
        NothingVanishes(m, s[length..]);
      } else {
        assert s[..length] == s;
      }
    } else {
      var i, j :| 0 <= i < j <= |s| && s[i..j] in m;
      assert i > 0 by {
        assert s[0..j] == s[..j];
      }
      assert s[1..][i - 1..j - 1] == s[i..j];
      MentionLengthens(m, s[1..]);
      if s[1..] in m {
        WholeIdIsRewritten(m, s[1..]);
      }
    }
  }

  /** A text becomes an id exactly when it is a legacy id of that row, or is that id already and
      mentions no legacy id. */
  lemma BecomesExactly(m: IdBackfill.Mapping, s: string, id: string)
    requires |id| == 36 && forall k :: k in m ==> |m[k]| == 36
    ensures RewriteText(m, s) == id <==> (s != "" && s in m && m[s] == id) || (s == id && !Mentions(m, s))
  {
    if s != "" && s in m {
      WholeIdIsRewritten(m, s);
      assert s[0..|s|] == s;
    } else if Mentions(m, s) {
      MentionLengthens(m, s);
    } else {
      OtherTextsStay(m, s);
    }
  }

  // ----- documents

  datatype Json = Str(s: string) | List(items: seq<Json>) | Object(members: seq<Member>) | Scalar(text: string)

  datatype Member = Member(key: string, value: Json)

  function RewriteJson(m: IdBackfill.Mapping, value: Json): Json {
    match value
    case Str(s) => Str(RewriteText(m, s))
    case List(items) => List(RewriteItems(m, items))
    case Object(members) => Object(RewriteMembers(m, members))
    case Scalar(_) => value
  }

  function RewriteItems(m: IdBackfill.Mapping, items: seq<Json>): seq<Json> {
    if items == [] then [] else [RewriteJson(m, items[0])] + RewriteItems(m, items[1..])
  }

  function RewriteMembers(m: IdBackfill.Mapping, members: seq<Member>): seq<Member> {
    if members == [] then []
    else [Member(members[0].key, RewriteJson(m, members[0].value))] + RewriteMembers(m, members[1..])
  }

  lemma {:induction false} EmptyMappingRewritesNothing(value: Json)
    ensures RewriteJson(map[], value) == value
  {
    match value {
      case Str(s) => OtherTextsStay(map[], s);
      case List(items) => EmptyMappingKeepsItems(items);
      case Object(members) => EmptyMappingKeepsMembers(members);
      case Scalar(_) =>
    }
  }

  lemma {:induction false} EmptyMappingKeepsItems(items: seq<Json>)
    ensures RewriteItems(map[], items) == items
  {
    if items != [] {
      EmptyMappingRewritesNothing(items[0]);
      EmptyMappingKeepsItems(items[1..]);
    }
  }

  lemma {:induction false} EmptyMappingKeepsMembers(members: seq<Member>)
    ensures RewriteMembers(map[], members) == members
  {
    if members != [] {
      EmptyMappingRewritesNothing(members[0].value);
      EmptyMappingKeepsMembers(members[1..]);
    }
  }

  /** A place in a document: into a list by position, into an object by key. */
  datatype Into = Item(i: nat) | Key(key: string)

  function At(value: Json, path: seq<Into>): Option<Json>
    decreases |path|
  {
    if path == [] then Some(value)
    else
      match path[0]
      case Item(i) => if value.List? && i < |value.items| then At(value.items[i], path[1..]) else None
      case Key(key) =>
        if value.Object? && Find(value.members, key).Some? then At(Find(value.members, key).value, path[1..]) else None
  }

  function Find(members: seq<Member>, key: string): Option<Json> {
    if members == [] then None
    else if members[0].key == key then Some(members[0].value)
    else Find(members[1..], key)
  }

  lemma {:induction false} ItemsAt(m: IdBackfill.Mapping, items: seq<Json>, i: nat)
    ensures |RewriteItems(m, items)| == |items|
    ensures i < |items| ==> RewriteItems(m, items)[i] == RewriteJson(m, items[i])
  {
    if items != [] {
      ItemsAt(m, items[1..], if i == 0 then 0 else i - 1);
    }
  }

  lemma {:induction false} MembersAt(m: IdBackfill.Mapping, members: seq<Member>, key: string)
    ensures Find(RewriteMembers(m, members), key) ==
      match Find(members, key) case Some(value) => Some(RewriteJson(m, value)) case None => None
  {
    if members != [] {
      MembersAt(m, members[1..], key);
      assert RewriteMembers(m, members)[1..] == RewriteMembers(m, members[1..]);
    }
  }

  /** A document keeps its shape: it has the same places, and each holds what was there, rewritten. */
  lemma {:induction false} RewriteKeepsPlaces(m: IdBackfill.Mapping, value: Json, path: seq<Into>)
    ensures At(RewriteJson(m, value), path) ==
      match At(value, path) case Some(there) => Some(RewriteJson(m, there)) case None => None
    decreases |path|
  {
    if path != [] {
      match path[0] {
        case Item(i) =>
          if value.List? {
            ItemsAt(m, value.items, i);
            if i < |value.items| {
              RewriteKeepsPlaces(m, value.items[i], path[1..]);
            }
          }
        case Key(key) =>
          if value.Object? {
            MembersAt(m, value.members, key);
            if Find(value.members, key).Some? {
              RewriteKeepsPlaces(m, Find(value.members, key).value, path[1..]);
            }
          }
      }
    }
  }

  /** A reference held anywhere in a document resolves to the same row afterwards. */
  lemma EmbeddedReferencesKeepTheirRows(
    tables: IdBackfill.Tables, e: IdBackfill.Entity, value: Json, path: seq<Into>, i: int
  )
    requires IdBackfill.Migratable(tables) && At(value, path).Some? && At(value, path).value.Str?
    requires IdBackfill.Resolves(tables.Of(e), Some(At(value, path).value.s), i) && tables.Of(e)[i].Legacy()
    requires At(value, path).value.s != ""
    ensures
      var now := At(RewriteJson(IdBackfill.Combined(tables), value), path);
      now.Some? && now.value.Str? && IdBackfill.Resolves(IdBackfill.Settled(tables.Of(e)), Some(now.value.s), i)
  {
    IdBackfill.CombinedIsFaithful(tables, e);
    RewriteKeepsPlaces(IdBackfill.Combined(tables), value, path);
    WholeIdIsRewritten(IdBackfill.Combined(tables), At(value, path).value.s);
  }

  /** A text held anywhere in a document resolves to a row afterwards exactly when it was that row's
      legacy id, or was that row's own id already and mentions no legacy id. */
  lemma EmbeddedReferencesResolveExactly(
    tables: IdBackfill.Tables, e: IdBackfill.Entity, value: Json, path: seq<Into>, i: nat
  )
    requires IdBackfill.Migratable(tables) && IdBackfill.IdsAcrossTablesDiffer(tables) && i < |tables.Of(e)|
    requires At(value, path).Some? && At(value, path).value.Str?
    ensures
      var m, s, row := IdBackfill.Combined(tables), At(value, path).value.s, tables.Of(e)[i];
      var now := At(RewriteJson(m, value), path);
      && now.Some? && now.value.Str?
      && (IdBackfill.Resolves(IdBackfill.Settled(tables.Of(e)), Some(now.value.s), i) <==>
          || (s != "" && row.Legacy() && row.publicId == Some(s))
          || (row.publicId.Some? && s == row.id && !Mentions(m, s)))
  {
    RewriteKeepsPlaces(IdBackfill.Combined(tables), value, path);
    TextResolvesExactly(tables, e, At(value, path).value.s, i);
  }

  lemma TextResolvesExactly(tables: IdBackfill.Tables, e: IdBackfill.Entity, s: string, i: nat)
    requires IdBackfill.Migratable(tables) && IdBackfill.IdsAcrossTablesDiffer(tables) && i < |tables.Of(e)|
    ensures
      var m, row := IdBackfill.Combined(tables), tables.Of(e)[i];
      IdBackfill.Resolves(IdBackfill.Settled(tables.Of(e)), Some(RewriteText(m, s)), i) <==>
        || (s != "" && row.Legacy() && row.publicId == Some(s))
        || (row.publicId.Some? && s == row.id && !Mentions(m, s))
  {
    IdBackfill.CombinedIsFaithful(tables, e);
    BecomesExactly(IdBackfill.Combined(tables), s, tables.Of(e)[i].id);
    MapsToRowExactly(tables, e, s, i);
  }

  lemma MapsToRowExactly(tables: IdBackfill.Tables, e: IdBackfill.Entity, s: string, i: nat)
    requires IdBackfill.Migratable(tables) && IdBackfill.IdsAcrossTablesDiffer(tables) && i < |tables.Of(e)|
    ensures
      var m, row := IdBackfill.Combined(tables), tables.Of(e)[i];
      (s in m && m[s] == row.id) <==> (row.Legacy() && row.publicId == Some(s))
  {
    IdBackfill.CombinedIsFaithful(tables, e);
    if s in IdBackfill.Combined(tables) {
      var f, j := IdBackfill.MappedByTable(tables, s);
      if tables.Of(f)[j].id == tables.Of(e)[i].id {
        assert f == e && j == i;
      }
    }
  }

  // ----- the paging loop

  const BATCH_SIZE := 500

  /** A row of a table in the order of its ids; a null column is None. */
  datatype Row = Row(id: int, value: Option<Json>)

  ghost predicate Ordered(rows: seq<Row>) {
    forall i, j :: 0 <= i < j < |rows| ==> rows[i].id < rows[j].id
  }

  function Rewritten(m: IdBackfill.Mapping, row: Row): Row {
    if row.value.None? then row else row.(value := Some(RewriteJson(m, row.value.value)))
  }

  /** The position of the first row behind an id. */
  function FirstBehind(rows: seq<Row>, after: Option<int>): (n: nat)
    ensures n <= |rows|
  {
    if rows == [] || after.None? || rows[0].id > after.value then 0 else 1 + FirstBehind(rows[1..], after)
  }

  lemma {:induction false} FirstBehindRow(rows: seq<Row>, k: nat)
    requires Ordered(rows) && k < |rows|
    ensures FirstBehind(rows, Some(rows[k].id)) == k + 1
  {
    if k > 0 {
      FirstBehindRow(rows[1..], k - 1);
    } else if |rows| > 1 {
      assert rows[1..][0] == rows[1];
    }
  }

  /** The rows below a position are rewritten, the others are as they were. */
  function UpTo(m: IdBackfill.Mapping, rows: seq<Row>, done: nat): seq<Row>
    requires done <= |rows|
  {
    seq(|rows|, i requires 0 <= i < |rows| => if i < done then Rewritten(m, rows[i]) else rows[i])
  }

  /** How many of the rows below a position the rewrite changes. */
  function Changes(m: IdBackfill.Mapping, rows: seq<Row>, done: nat): nat
    requires done <= |rows|
  {
    if done == 0 then 0
    else Changes(m, rows, done - 1) + if Rewritten(m, rows[done - 1]) != rows[done - 1] then 1 else 0
  }

  lemma UpToIsOrdered(m: IdBackfill.Mapping, rows: seq<Row>, done: nat)
    requires Ordered(rows) && done <= |rows|
    ensures Ordered(UpTo(m, rows, done))
  {
    assert forall i :: 0 <= i < |rows| ==> UpTo(m, rows, done)[i].id == rows[i].id;
  }

  lemma UpToOneMore(m: IdBackfill.Mapping, rows: seq<Row>, done: nat)
    requires done < |rows|
    ensures UpTo(m, rows, done)[done] == rows[done]
    ensures UpTo(m, rows, done + 1) == UpTo(m, rows, done)[done := Rewritten(m, rows[done])]
  {
  }

  /** Where the page behind the last row rewritten starts. */
  lemma NextPageStarts(m: IdBackfill.Mapping, rows: seq<Row>, done: nat)
    requires Ordered(rows) && 0 < done <= |rows|
    ensures FirstBehind(UpTo(m, rows, done), Some(UpTo(m, rows, done)[done - 1].id)) == done
  {
    UpToIsOrdered(m, rows, done);
    FirstBehindRow(UpTo(m, rows, done), done - 1);
  }

  /** One page. */
  method ReplacePage(m: IdBackfill.Mapping, ghost rows: seq<Row>, was: seq<Row>, start: nat, end: nat, before: nat)
    returns (now: seq<Row>, updated: nat)
    requires start <= end <= |rows| && was == UpTo(m, rows, start) && before == Changes(m, rows, start)
    ensures now == UpTo(m, rows, end) && updated == Changes(m, rows, end)
  {
    now, updated := was, before;
    for k := start to end
      invariant now == UpTo(m, rows, k) && updated == Changes(m, rows, k)
    {
      UpToOneMore(m, rows, k);
      var row := now[k];
      var replaced := Rewritten(m, row);
      if replaced != row {
        now, updated := now[k := replaced], updated + 1;
      }
    }
  }

  /** Pages through the rows by id and rewrites each once, however many pages there are. */
  method ReplaceJsonValues(m: IdBackfill.Mapping, rows: seq<Row>) returns (now: seq<Row>, updated: nat)
    requires Ordered(rows)
    ensures |now| == |rows| && forall i :: 0 <= i < |rows| ==> now[i] == Rewritten(m, rows[i])
    ensures forall i :: 0 <= i < |rows| ==>
      && now[i].id == rows[i].id
      && now[i].value == match rows[i].value case Some(value) => Some(RewriteJson(m, value)) case None => None
    ensures updated == Changes(m, rows, |rows|)
  {
    now, updated := rows, 0;
    var after: Option<int> := None;
    ghost var done: nat := 0;
    assert UpTo(m, rows, 0) == rows;
    while true
      invariant done <= |rows| && now == UpTo(m, rows, done) && updated == Changes(m, rows, done)
      invariant FirstBehind(now, after) == done
      decreases |rows| - done
    {
      var start := FirstBehind(now, after);
      var end := if start + BATCH_SIZE <= |now| then start + BATCH_SIZE else |now|;
      if start == end {
        break;
      }
      now, updated := ReplacePage(m, rows, now, start, end, updated);
      done := end;
      after := Some(now[end - 1].id);
      NextPageStarts(m, rows, end);
    }
  }
}

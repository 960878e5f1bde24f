/** The token dashboard: one pass over usage rows that fills days, totals, employees and sessions.
    Models dashboard_tokens and _token_usage in backend/relay/api/admin_routes.py. */
module TokenDashboard {
  import opened Wrappers
  import Text
  import Sequences

  const DAY_WINDOW := 14
  const SUMMARY_DAYS := 7
  const RECENT_SESSIONS := 10

  datatype Counts = Counts(input: int, output: int, cache: int, total: int)

  const ZERO := Counts(0, 0, 0, 0)

  function Plus(a: Counts, b: Counts): Counts {
    Counts(a.input + b.input, a.output + b.output, a.cache + b.cache, a.total + b.total)
  }

  /** One usage row; an absent text is empty. `day` is the date its stamp parses to, if it does. */
  datatype Row = Row(
    sessionId: string, runId: string, employeeId: string, taskGoal: string, completedAt: string, updatedAt: string,
    day: Option<int>, input: int, output: int, cache: int)
  {
    function Stamp(): string { if completedAt != "" then completedAt else updatedAt }

    function Usage(): Counts { Counts(input, output, cache, input + output + cache) }

    predicate Usable() { Usage().total > 0 }
  }

  datatype Column = ByEmployee | BySession

  function KeyOf(column: Column, row: Row): string {
    match column
    case ByEmployee => if row.employeeId != "" then row.employeeId else "unassigned"
    case BySession =>
      if row.sessionId != "" then row.sessionId else if row.runId != "" then row.runId else "unknown"
  }

  // ----- sums

  function SumBy<T>(items: seq<T>, counts: T -> Counts): Counts {
    if items == [] then ZERO
    else Plus(SumBy(items[..|items| - 1], counts), counts(items[|items| - 1]))
  }

  lemma SumOneMore<T>(items: seq<T>, x: T, counts: T -> Counts)
    ensures SumBy(items + [x], counts) == Plus(SumBy(items, counts), counts(x))
  {
    assert (items + [x])[..|items|] == items;
  }

  /** Counts that a usage, or no usage, can give. */
  predicate Sound(c: Counts) {
    c == ZERO || (c.total > 0 && c.total == c.input + c.output + c.cache)
  }

  lemma {:induction false} SumIsSound<T(!new)>(items: seq<T>, counts: T -> Counts)
    requires forall x :: Sound(counts(x))
    ensures Sound(SumBy(items, counts))
  {
    if items != [] {
      SumIsSound(items[..|items| - 1], counts);
    }
  }

  /** A sum is at least each of its parts, and zero when they are. */
  lemma {:induction false} SumCovers<T(!new)>(items: seq<T>, counts: T -> Counts, x: T)
    requires x in items && forall y :: Sound(counts(y))
    ensures counts(x) != ZERO ==> SumBy(items, counts) != ZERO
  {
    var front, last := items[..|items| - 1], items[|items| - 1];
    assert items == front + [last];
    SumIsSound(front, counts);
    if x in front {
      SumCovers(front, counts, x);
    }
  }

  lemma {:induction false} SumOfTwo<T>(items: seq<T>, a: T -> Counts, b: T -> Counts, both: T -> Counts)
    requires forall x :: x in items ==> both(x) == Plus(a(x), b(x))
    ensures SumBy(items, both) == Plus(SumBy(items, a), SumBy(items, b))
  {
    if items != [] {
      SumOfTwo(items[..|items| - 1], a, b, both);
    }
  }

  lemma {:induction false} SumOfNothing<T>(items: seq<T>, counts: T -> Counts)
    requires forall x :: x in items ==> counts(x) == ZERO
    ensures SumBy(items, counts) == ZERO
  {
    if items != [] {
      assert items[|items| - 1] in items;
      SumOfNothing(items[..|items| - 1], counts);
    }
  }

  lemma FrontIsDistinct<T>(items: seq<T>)
    requires Sequences.Distinct(items) && items != []
    ensures Sequences.Distinct(items[..|items| - 1]) && items[|items| - 1] !in items[..|items| - 1]
  {
  }

  lemma LastCountsNothing<T>(items: seq<T>, counts: T -> Counts)
    requires items != [] && counts(items[|items| - 1]) == ZERO
    ensures SumBy(items, counts) == SumBy(items[..|items| - 1], counts)
  {
    PlusNothing(SumBy(items[..|items| - 1], counts));
  }

  lemma OnlyLastCounts<T>(items: seq<T>, counts: T -> Counts)
    requires items != [] && SumBy(items[..|items| - 1], counts) == ZERO
    ensures SumBy(items, counts) == counts(items[|items| - 1])
  {
  }

  lemma {:induction false} SumOfOne<T>(items: seq<T>, counts: T -> Counts, one: T)
    requires Sequences.Distinct(items) && one in items && forall x :: x in items && x != one ==> counts(x) == ZERO
    ensures SumBy(items, counts) == counts(one)
  {
    var front, last := items[..|items| - 1], items[|items| - 1];
    FrontIsDistinct(items);
    assert last in items;
    if one == last {
      SumOfNothing(front, counts);
      OnlyLastCounts(items, counts);
    } else {
      LastCountsNothing(items, counts);
      assert one in front by {
        assert items == front + [last];
      }
      SumOfOne(front, counts, one);
    }
  }

  lemma PlusNothing(c: Counts)
    ensures Plus(c, ZERO) == c
  {
  }

  /** Adding up a table by columns or by rows gives the same. */
  lemma {:induction false} ColumnsAddUp<T, P>(
    items: seq<T>, parts: seq<P>, column: P -> T -> Counts, row: T -> P -> Counts, sum: P -> Counts, whole: T -> Counts
  )
    requires forall x, p :: row(x)(p) == column(p)(x)
    requires forall p :: p in parts ==> sum(p) == SumBy(items, column(p))
    requires forall x :: x in items ==> SumBy(parts, row(x)) == whole(x)
    ensures SumBy(parts, sum) == SumBy(items, whole)
  {
    if items == [] {
      SumOfNothing(parts, sum);
    } else {
      var front, last := items[..|items| - 1], items[|items| - 1];
      assert items == front + [last];
      var before := p => SumBy(front, column(p));
      ColumnsAddUp(front, parts, column, row, before, whole);
      SumOfTwo(parts, before, row(last), sum);
    }
  }

  // ----- what a counter should hold

  /** A selection of usable rows. Employees are counted within the summary days only. */
  datatype Pick = Everything | Window | Summary | Future | Dated(day: int) | Of(column: Column, key: string)

  predicate InSummary(row: Row, today: int) {
    row.day.Some? && row.day.value > today - SUMMARY_DAYS
  }

  predicate Picks(pick: Pick, row: Row, today: int) {
    && row.Usable()
    && match pick
       case Everything => true
       case Window => row.day.Some? && today - DAY_WINDOW < row.day.value <= today
       case Summary => InSummary(row, today)
       case Future => row.day.Some? && row.day.value > today
       case Dated(day) => row.day == Some(day)
       case Of(column, key) => (column == ByEmployee ==> InSummary(row, today)) && KeyOf(column, row) == key
  }

  /** What each number of the dashboard counts: usable rows only, by the day, the employee and the
      session they name. A row that names no session goes by its run. */
  lemma WhatCounts(row: Row, today: int, d: int, key: string)
    ensures row.input + row.output + row.cache <= 0 ==> forall pick :: !Picks(pick, row, today)
    ensures row.input + row.output + row.cache > 0 ==>
      && Picks(Everything, row, today)
      && (Picks(Dated(d), row, today) <==> row.day == Some(d))
      && (Picks(Summary, row, today) <==> row.day.Some? && row.day.value >= today - 6)
      && (Picks(Window, row, today) <==> row.day.Some? && today - 13 <= row.day.value <= today)
      && (Picks(Future, row, today) <==> row.day.Some? && row.day.value > today)
      && (Picks(Of(ByEmployee, key), row, today) <==>
            && row.day.Some? && row.day.value >= today - 6
            && ((row.employeeId != "" && row.employeeId == key) || (row.employeeId == "" && key == "unassigned")))
      && (Picks(Of(BySession, key), row, today) <==>
            || (row.sessionId != "" && row.sessionId == key)
            || (row.sessionId == "" && row.runId != "" && row.runId == key)
            || (row.sessionId == "" && row.runId == "" && key == "unknown"))
    ensures row.Usage() == Counts(row.input, row.output, row.cache, row.input + row.output + row.cache)
    ensures (row.completedAt != "" ==> row.Stamp() == row.completedAt)
            && (row.completedAt == "" ==> row.Stamp() == row.updatedAt)
  {
  }

  function Share(today: int, pick: Pick): Row -> Counts {
    row => if Picks(pick, row, today) then row.Usage() else ZERO
  }

  /** The sum of the usages of the rows picked. */
  function Tally(rows: seq<Row>, today: int, pick: Pick): Counts {
    SumBy(rows, Share(today, pick))
  }

  lemma ShareIsSound(today: int, pick: Pick, row: Row)
    ensures Sound(Share(today, pick)(row))
    ensures Share(today, pick)(row) != ZERO <==> Picks(pick, row, today)
  {
  }

  ghost predicate AnyPicked(rows: seq<Row>, today: int, pick: Pick) {
    exists r :: r in rows && Picks(pick, r, today)
  }

  lemma SharesAreSound(today: int, pick: Pick)
    ensures forall row :: Sound(Share(today, pick)(row))
  {
    forall row
      ensures Sound(Share(today, pick)(row))
    {
      ShareIsSound(today, pick, row);
    }
  }

  lemma PickedCounts(rows: seq<Row>, today: int, pick: Pick, row: Row)
    requires row in rows && Picks(pick, row, today)
    ensures Tally(rows, today, pick) != ZERO
  {
    SharesAreSound(today, pick);
    ShareIsSound(today, pick, row);
    SumCovers(rows, Share(today, pick), row);
  }

  lemma NonePickedNoTally(rows: seq<Row>, today: int, pick: Pick)
    requires !AnyPicked(rows, today, pick)
    ensures Tally(rows, today, pick) == ZERO
  {
    SumOfNothing(rows, Share(today, pick));
  }

  /** In every tally the total is the sum of the three kinds, and positive exactly when a row is picked. */
  lemma TallyBalances(rows: seq<Row>, today: int, pick: Pick)
    ensures Sound(Tally(rows, today, pick))
    ensures Tally(rows, today, pick) != ZERO <==> AnyPicked(rows, today, pick)
  {
    SharesAreSound(today, pick);
    SumIsSound(rows, Share(today, pick));
    if AnyPicked(rows, today, pick) {
      var r :| r in rows && Picks(pick, r, today);
      PickedCounts(rows, today, pick, r);
    } else {
      NonePickedNoTally(rows, today, pick);
    }
  }

  /** Just one of the parts picks a row that the whole picks, and none picks another row. */
  ghost predicate Splits(picks: seq<Pick>, whole: Pick, row: Row, today: int) {
    && (Picks(whole, row, today) ==> exists p :: p in picks && Picks(p, row, today))
    && (forall p :: p in picks && Picks(p, row, today) ==> Picks(whole, row, today))
    && (forall p, q :: p in picks && q in picks && Picks(p, row, today) && Picks(q, row, today) ==> p == q)
  }

  lemma SharesOfRow(row: Row, today: int, picks: seq<Pick>, whole: Pick, shares: Pick -> Counts)
    requires Sequences.Distinct(picks) && Splits(picks, whole, row, today)
    requires forall p :: shares(p) == Share(today, p)(row)
    ensures SumBy(picks, shares) == Share(today, whole)(row)
  {
    if Picks(whole, row, today) {
      var one :| one in picks && Picks(one, row, today);
      SumOfOne(picks, shares, one);
    } else {
      SumOfNothing(picks, shares);
    }
  }

  /** Conservation: the parts add up to the whole, counter by counter. */
  lemma PartsAddUp(rows: seq<Row>, today: int, picks: seq<Pick>, whole: Pick)
    requires Sequences.Distinct(picks) && forall r :: r in rows ==> Splits(picks, whole, r, today)
    ensures SumBy(picks, pick => Tally(rows, today, pick)) == Tally(rows, today, whole)
  {
    var shares := (r: Row) => (pick: Pick) => Share(today, pick)(r);
    forall r | r in rows
      ensures SumBy(picks, shares(r)) == Share(today, whole)(r)
    {
      SharesOfRow(r, today, picks, whole, shares(r));
    }
    ColumnsAddUp(rows, picks, pick => Share(today, pick), shares, pick => Tally(rows, today, pick),
                 Share(today, whole));
  }

  // ----- the lists the dashboard shows

  datatype Day = Day(date: int, counts: Counts)

  datatype Employee = Employee(id: string, counts: Counts, sessionCount: nat)

  datatype Header = Header(sessionId: string, employeeId: string, taskGoal: string, updatedAt: string)

  /** A session with the key it is counted under. */
  datatype Session = Session(key: string, header: Header, counts: Counts)

  lemma {:induction false} SumsAlike<T, P>(items: seq<T>, counts: T -> Counts, parts: seq<P>, sum: P -> Counts)
    requires |items| == |parts| && forall i :: 0 <= i < |items| ==> counts(items[i]) == sum(parts[i])
    ensures SumBy(items, counts) == SumBy(parts, sum)
  {
    if items != [] {
      SumsAlike(items[..|items| - 1], counts, parts[..|parts| - 1], sum);
    }
  }

  /** A stable arrangement: an item goes before the first one it is ahead of. */
  function Place<T>(x: T, items: seq<T>, ahead: (T, T) -> bool): seq<T> {
    if items == [] || ahead(x, items[0]) then [x] + items else [items[0]] + Place(x, items[1..], ahead)
  }

  function Ranked<T>(items: seq<T>, ahead: (T, T) -> bool): seq<T> {
    if items == [] then [] else Place(items[|items| - 1], Ranked(items[..|items| - 1], ahead), ahead)
  }

  ghost predicate InRank<T(!new)>(items: seq<T>, ahead: (T, T) -> bool) {
    forall i, j :: 0 <= i < j < |items| ==> !ahead(items[j], items[i])
  }

  /** Being ahead is a strict order in which "not ahead" is transitive too. */
  ghost predicate Ranks<T(!new)>(ahead: (T, T) -> bool) {
    && (forall a, b :: ahead(a, b) ==> !ahead(b, a))
    && (forall a, b, c :: !ahead(a, b) && !ahead(b, c) ==> !ahead(a, c))
  }

  lemma {:induction false} PlaceKeepsItems<T>(x: T, items: seq<T>, ahead: (T, T) -> bool)
    ensures multiset(Place(x, items, ahead)) == multiset{x} + multiset(items)
  {
    if items != [] && !ahead(x, items[0]) {
      PlaceKeepsItems(x, items[1..], ahead);
      assert items == [items[0]] + items[1..];
    }
  }

  lemma {:induction false} PlaceKeepsRank<T(!new)>(x: T, items: seq<T>, ahead: (T, T) -> bool)
    requires Ranks(ahead) && InRank(items, ahead)
    ensures InRank(Place(x, items, ahead), ahead)
  {
    if items == [] {
    } else if ahead(x, items[0]) {
      forall j | 0 <= j < |items|
        ensures !ahead(items[j], x)
      {
        assert !ahead(items[0], x);
        assert j > 0 ==> !ahead(items[j], items[0]);
      }
    } else {
      var rest := Place(x, items[1..], ahead);
      PlaceKeepsRank(x, items[1..], ahead);
      forall j | 0 <= j < |rest|
        ensures !ahead(rest[j], items[0])
      {
        PlaceKeepsItems(x, items[1..], ahead);
        assert rest[j] in multiset(rest);
        assert rest[j] == x || rest[j] in items[1..];
      }
    }
  }

  lemma {:induction false} RankedKeepsItems<T>(items: seq<T>, ahead: (T, T) -> bool)
    ensures multiset(Ranked(items, ahead)) == multiset(items)
  {
    if items != [] {
      var front, last := items[..|items| - 1], items[|items| - 1];
      RankedKeepsItems(front, ahead);
      PlaceKeepsItems(last, Ranked(front, ahead), ahead);
      ItemsOfFront(items);
    }
  }

  lemma ItemsOfFront<T>(items: seq<T>)
    requires items != []
    ensures multiset(items) == multiset{items[|items| - 1]} + multiset(items[..|items| - 1])
  {
    assert items == items[..|items| - 1] + [items[|items| - 1]];
  }

  lemma {:induction false} RankedIsInRank<T(!new)>(items: seq<T>, ahead: (T, T) -> bool)
    requires Ranks(ahead)
    ensures InRank(Ranked(items, ahead), ahead)
  {
    if items != [] {
      RankedIsInRank(items[..|items| - 1], ahead);
      PlaceKeepsRank(items[|items| - 1], Ranked(items[..|items| - 1], ahead), ahead);
    }
  }

  lemma RankedKeepsElements<T>(items: seq<T>, ahead: (T, T) -> bool)
    ensures forall x :: x in Ranked(items, ahead) <==> x in items
  {
    RankedKeepsItems(items, ahead);
    forall x
      ensures x in Ranked(items, ahead) <==> x in items
    {
      assert x in Ranked(items, ahead) <==> x in multiset(Ranked(items, ahead));
      assert x in items <==> x in multiset(items);
    }
  }

  lemma {:induction false} SumFromFront<T>(x: T, items: seq<T>, counts: T -> Counts)
    ensures SumBy([x] + items, counts) == Plus(counts(x), SumBy(items, counts))
  {
    if items == [] {
      assert SumBy([x], counts) == Plus(SumBy([], counts), counts(x));
    } else {
      var n := |items| - 1;
      SumFromFront(x, items[..n], counts);
      assert ([x] + items)[..|items|] == [x] + items[..n];
    }
  }

  lemma {:induction false} PlaceKeepsSum<T>(x: T, items: seq<T>, ahead: (T, T) -> bool, counts: T -> Counts)
    ensures SumBy(Place(x, items, ahead), counts) == Plus(counts(x), SumBy(items, counts))
  {
    if items == [] || ahead(x, items[0]) {
      SumFromFront(x, items, counts);
    } else {
      PlaceKeepsSum(x, items[1..], ahead, counts);
      SumFromFront(items[0], Place(x, items[1..], ahead), counts);
      SumFromFront(items[0], items[1..], counts);
      assert items == [items[0]] + items[1..];
    }
  }

  /** Ranking changes no sum. */
  lemma {:induction false} RankedKeepsSum<T>(items: seq<T>, ahead: (T, T) -> bool, counts: T -> Counts)
    ensures SumBy(Ranked(items, ahead), counts) == SumBy(items, counts)
  {
    if items != [] {
      RankedKeepsSum(items[..|items| - 1], ahead, counts);
      PlaceKeepsSum(items[|items| - 1], Ranked(items[..|items| - 1], ahead), ahead, counts);
    }
  }

  // ----- the dictionaries the loop fills

  ghost function TallyOf(column: Column, rows: seq<Row>, today: int): string -> Counts {
    k => Tally(rows, today, Of(column, k))
  }

  ghost function TallyOfDay(rows: seq<Row>, today: int): int -> Counts {
    d => Tally(rows, today, Dated(d))
  }

  /** A dictionary with its keys in insertion order: one entry for each key with a tally. */
  ghost predicate Tallied(order: seq<string>, sums: map<string, Counts>, tally: string -> Counts) {
    && Sequences.Distinct(order)
    && (forall k :: k in order <==> k in sums)
    && (forall k :: k in sums <==> tally(k) != ZERO)
    && (forall k :: k in sums ==> sums[k] == tally(k))
  }

  ghost predicate DaysTallied(days: map<int, Counts>, tally: int -> Counts, today: int) {
    && (forall d :: d in days <==> today - DAY_WINDOW < d <= today)
    && (forall d :: d in days ==> days[d] == tally(d))
  }

  ghost function SessionsOf(rows: seq<Row>, today: int, employee: string): set<string> {
    set r | r in rows && Picks(Of(ByEmployee, employee), r, today) && r.sessionId != "" :: r.sessionId
  }

  ghost predicate IsFirst(h: Header, rows: seq<Row>, today: int, key: string, i: int) {
    && 0 <= i < |rows| && Picks(Of(BySession, key), rows[i], today)
    && (forall j :: 0 <= j < i ==> !Picks(Of(BySession, key), rows[j], today))
    && h.sessionId == rows[i].sessionId && h.employeeId == rows[i].employeeId && h.taskGoal == rows[i].taskGoal
  }

  /** A session's entry names the first of its rows, and the latest stamp among them. */
  ghost predicate Heads(h: Header, rows: seq<Row>, today: int, key: string) {
    && (exists i :: IsFirst(h, rows, today, key, i))
    && (exists r :: r in rows && Picks(Of(BySession, key), r, today) && h.updatedAt == r.Stamp())
    && (forall r :: r in rows && Picks(Of(BySession, key), r, today) ==> Text.Before(r.Stamp(), h.updatedAt))
  }

  lemma AnyPickedOneMore(rows: seq<Row>, row: Row, today: int, pick: Pick)
    ensures AnyPicked(rows + [row], today, pick) <==> AnyPicked(rows, today, pick) || Picks(pick, row, today)
  {
    if Picks(pick, row, today) {
      assert row in rows + [row];
    }
    if AnyPicked(rows, today, pick) {
      var r :| r in rows && Picks(pick, r, today);
      assert r in rows + [row];
    }
  }

  ghost predicate Headed(headers: map<string, Header>, rows: seq<Row>, today: int) {
    && (forall k :: k in headers <==> AnyPicked(rows, today, Of(BySession, k)))
    && (forall k :: k in headers ==> Heads(headers[k], rows, today, k))
  }

  /** What one more row does to a tally. */
  lemma TallyOneMore(rows: seq<Row>, row: Row, today: int, pick: Pick)
    ensures
      var was, now := Tally(rows, today, pick), Tally(rows + [row], today, pick);
      now == if Picks(pick, row, today) then Plus(was, row.Usage()) else was
  {
    var share := Share(today, pick);
    SumOneMore(rows, row, share);
    PlusNothing(SumBy(rows, share));
  }

  lemma PickedUnderOneKey(column: Column, row: Row, today: int, k: string)
    ensures Picks(Of(column, k), row, today) <==>
      k == KeyOf(column, row) && Picks(Of(column, KeyOf(column, row)), row, today)
  {
  }

  /** An amount added under one key adds to that entry, made if it is not there. */
  lemma AddedUnderKey(
    order: seq<string>, sums: map<string, Counts>, was: string -> Counts, now: string -> Counts, key: string,
    usage: Counts
  )
    requires Tallied(order, sums, was) && Sound(was(key)) && Sound(usage) && usage != ZERO
    requires forall k :: now(k) == if k == key then Plus(was(k), usage) else was(k)
    ensures Tallied(if key in sums then order else order + [key],
                    sums[key := Plus(if key in sums then sums[key] else ZERO, usage)], now)
  {
  }

  lemma TalliesUnchanged(order: seq<string>, sums: map<string, Counts>, was: string -> Counts, now: string -> Counts)
    requires Tallied(order, sums, was) && forall k :: now(k) == was(k)
    ensures Tallied(order, sums, now)
  {
  }

  /** A row picked under no key leaves a dictionary as it should be. */
  lemma TalliedAsBefore(
    order: seq<string>, sums: map<string, Counts>, column: Column, rows: seq<Row>, row: Row, today: int
  )
    requires Tallied(order, sums, TallyOf(column, rows, today)) && !Picks(Of(column, KeyOf(column, row)), row, today)
    ensures Tallied(order, sums, TallyOf(column, rows + [row], today))
  {
    var was, now := TallyOf(column, rows, today), TallyOf(column, rows + [row], today);
    forall k
      ensures now(k) == was(k)
    {
      TallyOneMore(rows, row, today, Of(column, k));
      PickedUnderOneKey(column, row, today, k);
    }
    TalliesUnchanged(order, sums, was, now);
  }

  lemma TalliedOneMore(
    order: seq<string>, sums: map<string, Counts>, column: Column, rows: seq<Row>, row: Row, today: int
  )
    requires Tallied(order, sums, TallyOf(column, rows, today)) && Picks(Of(column, KeyOf(column, row)), row, today)
    ensures
      var key := KeyOf(column, row);
      Tallied(if key in sums then order else order + [key],
              sums[key := Plus(if key in sums then sums[key] else ZERO, row.Usage())],
              TallyOf(column, rows + [row], today))
  {
    var was, now, key := TallyOf(column, rows, today), TallyOf(column, rows + [row], today), KeyOf(column, row);
    forall k
      ensures now(k) == if k == key then Plus(was(k), row.Usage()) else was(k)
    {
      TallyOneMore(rows, row, today, Of(column, k));
      PickedUnderOneKey(column, row, today, k);
    }
    TallyBalances(rows, today, Of(column, key));
    ShareIsSound(today, Of(column, key), row);
    AddedUnderKey(order, sums, was, now, key, row.Usage());
  }

  lemma AddedToDay(
    days: map<int, Counts>, was: int -> Counts, now: int -> Counts, today: int, day: Option<int>, usage: Counts
  )
    requires DaysTallied(days, was, today)
    requires forall d :: now(d) == if day == Some(d) then Plus(was(d), usage) else was(d)
    ensures DaysTallied(
      if day.Some? && day.value in days then days[day.value := Plus(days[day.value], usage)] else days, now, today)
  {
  }

  lemma DayOneMore(rows: seq<Row>, row: Row, today: int, day: Option<int>, usage: Counts, d: int)
    requires usage == row.Usage() && day == if row.Usable() then row.day else None
    ensures
      var was, now := TallyOfDay(rows, today), TallyOfDay(rows + [row], today);
      now(d) == if day == Some(d) then Plus(was(d), usage) else was(d)
  {
    var was, now := TallyOfDay(rows, today), TallyOfDay(rows + [row], today);
    assert was(d) == Tally(rows, today, Dated(d));
    assert now(d) == Tally(rows + [row], today, Dated(d));
    PickedOnDay(row, today, day, d);
    TallyOneMore(rows, row, today, Dated(d));
  }

  lemma PickedOnDay(row: Row, today: int, day: Option<int>, d: int)
    requires day == if row.Usable() then row.day else None
    ensures Picks(Dated(d), row, today) <==> day == Some(d)
  {
  }

  lemma DaysOneMore(days: map<int, Counts>, rows: seq<Row>, row: Row, today: int, day: Option<int>, usage: Counts)
    requires DaysTallied(days, TallyOfDay(rows, today), today)
    requires usage == row.Usage() && day == if row.Usable() then row.day else None
    ensures DaysTallied(
      if day.Some? && day.value in days then days[day.value := Plus(days[day.value], usage)] else days,
      TallyOfDay(rows + [row], today), today)
  {
    forall d
      ensures TallyOfDay(rows + [row], today)(d) ==
        if day == Some(d) then Plus(TallyOfDay(rows, today)(d), usage) else TallyOfDay(rows, today)(d)
    {
      DayOneMore(rows, row, today, day, usage, d);
    }
    AddedToDay(days, TallyOfDay(rows, today), TallyOfDay(rows + [row], today), today, day, usage);
  }

  lemma SessionsOneMore(rows: seq<Row>, row: Row, today: int, employee: string)
    ensures SessionsOf(rows + [row], today, employee) ==
      SessionsOf(rows, today, employee)
      + if Picks(Of(ByEmployee, employee), row, today) && row.sessionId != "" then {row.sessionId} else {}
  {
  }

  lemma HeadsAsBefore(h: Header, rows: seq<Row>, row: Row, today: int, key: string)
    requires Heads(h, rows, today, key)
    requires Picks(Of(BySession, key), row, today) ==> Text.Before(row.Stamp(), h.updatedAt)
    ensures Heads(h, rows + [row], today, key)
  {
    var i :| IsFirst(h, rows, today, key, i);
    assert IsFirst(h, rows + [row], today, key, i);
  }

  lemma HeadsLater(h: Header, rows: seq<Row>, row: Row, today: int, key: string)
    requires Heads(h, rows, today, key)
    requires Picks(Of(BySession, key), row, today) && !Text.Before(row.Stamp(), h.updatedAt)
    ensures Heads(h.(updatedAt := row.Stamp()), rows + [row], today, key)
  {
    var later := h.(updatedAt := row.Stamp());
    Text.BeforeTotal(row.Stamp(), h.updatedAt);
    Text.BeforeTotal(row.Stamp(), row.Stamp());
    var i :| IsFirst(h, rows, today, key, i);
    assert IsFirst(later, rows + [row], today, key, i);
    assert row in rows + [row];
    forall r | r in rows && Picks(Of(BySession, key), r, today)
      ensures Text.Before(r.Stamp(), row.Stamp())
    {
      Text.BeforeTransitive(r.Stamp(), h.updatedAt, row.Stamp());
    }
  }

  lemma HeadsFirst(rows: seq<Row>, row: Row, today: int, key: string)
    requires Picks(Of(BySession, key), row, today)
    requires forall r :: r in rows ==> !Picks(Of(BySession, key), r, today)
    ensures Heads(Header(row.sessionId, row.employeeId, row.taskGoal, row.Stamp()), rows + [row], today, key)
  {
    Text.BeforeTotal(row.Stamp(), row.Stamp());
    assert row in rows + [row];
    forall j | 0 <= j < |rows|
      ensures !Picks(Of(BySession, key), (rows + [row])[j], today)
    {
      assert rows[j] in rows;
    }
    assert IsFirst(Header(row.sessionId, row.employeeId, row.taskGoal, row.Stamp()), rows + [row], today, key, |rows|);
  }

  function HeaderAfter(headers: map<string, Header>, row: Row): Header {
    var key := KeyOf(BySession, row);
    if key !in headers then Header(row.sessionId, row.employeeId, row.taskGoal, row.Stamp())
    else if Text.Before(row.Stamp(), headers[key].updatedAt) then headers[key]
    else headers[key].(updatedAt := row.Stamp())
  }

  lemma HeaderFits(headers: map<string, Header>, rows: seq<Row>, row: Row, today: int)
    requires Headed(headers, rows, today) && row.Usable()
    ensures Heads(HeaderAfter(headers, row), rows + [row], today, KeyOf(BySession, row))
  {
    var key := KeyOf(BySession, row);
    if key !in headers {
      assert !AnyPicked(rows, today, Of(BySession, key));
      HeadsFirst(rows, row, today, key);
    } else if Text.Before(row.Stamp(), headers[key].updatedAt) {
      HeadsAsBefore(headers[key], rows, row, today, key);
    } else {
      HeadsLater(headers[key], rows, row, today, key);
    }
  }

  lemma OtherHeadersFit(headers: map<string, Header>, rows: seq<Row>, row: Row, today: int, k: string)
    requires Headed(headers, rows, today) && k in headers && !(row.Usable() && k == KeyOf(BySession, row))
    ensures Heads(headers[k], rows + [row], today, k)
  {
    HeadsAsBefore(headers[k], rows, row, today, k);
  }

  lemma HeadedAsBefore(headers: map<string, Header>, rows: seq<Row>, row: Row, today: int)
    requires Headed(headers, rows, today) && !row.Usable()
    ensures Headed(headers, rows + [row], today)
  {
    forall k
      ensures AnyPicked(rows + [row], today, Of(BySession, k)) <==> k in headers
      ensures k in headers ==> Heads(headers[k], rows + [row], today, k)
    {
      AnyPickedOneMore(rows, row, today, Of(BySession, k));
      if k in headers {
        OtherHeadersFit(headers, rows, row, today, k);
      }
    }
  }

  lemma HeadedOneMore(headers: map<string, Header>, rows: seq<Row>, row: Row, today: int)
    requires Headed(headers, rows, today) && row.Usable()
    ensures Headed(headers[KeyOf(BySession, row) := HeaderAfter(headers, row)], rows + [row], today)
  {
    HeaderFits(headers, rows, row, today);
    forall k
      ensures AnyPicked(rows + [row], today, Of(BySession, k)) <==> k in headers || k == KeyOf(BySession, row)
      ensures k in headers && k != KeyOf(BySession, row) ==> Heads(headers[k], rows + [row], today, k)
    {
      AnyPickedOneMore(rows, row, today, Of(BySession, k));
      if k in headers && k != KeyOf(BySession, row) {
        OtherHeadersFit(headers, rows, row, today, k);
      }
    }
    HeadedWith(headers, rows + [row], today, KeyOf(BySession, row), HeaderAfter(headers, row));
  }

  lemma HeadedWith(headers: map<string, Header>, rows: seq<Row>, today: int, key: string, header: Header)
    requires Heads(header, rows, today, key)
    requires forall k :: AnyPicked(rows, today, Of(BySession, k)) <==> k in headers || k == key
    requires forall k :: k in headers && k != key ==> Heads(headers[k], rows, today, k)
    ensures Headed(headers[key := header], rows, today)
  {
  }

  // ----- how the columns and the days split the rows

  lemma ColumnSplits(order: seq<string>, sums: map<string, Counts>, column: Column, rows: seq<Row>, today: int)
    requires Tallied(order, sums, TallyOf(column, rows, today))
    ensures
      var whole := if column == ByEmployee then Summary else Everything;
      SumBy(seq(|order|, i requires 0 <= i < |order| => Of(column, order[i])), pick => Tally(rows, today, pick))
      == Tally(rows, today, whole)
  {
    var whole := if column == ByEmployee then Summary else Everything;
    var picks := seq(|order|, i requires 0 <= i < |order| => Of(column, order[i]));
    forall r | r in rows
      ensures Splits(picks, whole, r, today)
    {
      if Picks(whole, r, today) {
        var key := KeyOf(column, r);
        TallyBalances(rows, today, Of(column, key));
        assert Picks(Of(column, key), r, today) && TallyOf(column, rows, today)(key) != ZERO && key in order;
        var i :| 0 <= i < |order| && order[i] == key;
        assert Picks(picks[i], r, today);
      }
    }
    PartsAddUp(rows, today, picks, whole);
  }

  /** The last seven days and the days to come make up the summary. */
  lemma SummaryDaysSplit(rows: seq<Row>, today: int)
    ensures
      var days := seq(SUMMARY_DAYS, i => Dated(today - SUMMARY_DAYS + 1 + i));
      Plus(SumBy(days, pick => Tally(rows, today, pick)), Tally(rows, today, Future)) == Tally(rows, today, Summary)
  {
    var days := seq(SUMMARY_DAYS, i => Dated(today - SUMMARY_DAYS + 1 + i));
    var picks := days + [Future];
    forall r | r in rows
      ensures Splits(picks, Summary, r, today)
    {
      if Picks(Summary, r, today) {
        var i := if r.day.value > today then SUMMARY_DAYS else r.day.value - (today - SUMMARY_DAYS + 1);
        assert Picks(picks[i], r, today);
      }
    }
    PartsAddUp(rows, today, picks, Summary);
    assert picks[..|picks| - 1] == days;
  }

  lemma WindowSplits(rows: seq<Row>, today: int)
    ensures SumBy(seq(DAY_WINDOW, i => Dated(today - DAY_WINDOW + 1 + i)), pick => Tally(rows, today, pick))
      == Tally(rows, today, Window)
  {
    var picks := seq(DAY_WINDOW, i => Dated(today - DAY_WINDOW + 1 + i));
    forall r | r in rows
      ensures Splits(picks, Window, r, today)
    {
      if Picks(Window, r, today) {
        assert Picks(picks[r.day.value - (today - DAY_WINDOW + 1)], r, today);
      }
    }
    PartsAddUp(rows, today, picks, Window);
  }

  // ----- the loop

  ghost predicate Summed(totals: Counts, rows: seq<Row>, today: int) {
    totals == Tally(rows, today, Summary)
  }

  ghost predicate SessionsKnown(sessions: map<string, set<string>>, rows: seq<Row>, today: int) {
    forall e :: (if e in sessions then sessions[e] else {}) == SessionsOf(rows, today, e)
  }

  /** The board's employee side: totals, per-employee counts and session sets. */
  ghost predicate EmployeesAdd(
    totals: Counts, order: seq<string>, sums: map<string, Counts>, sessions: map<string, set<string>>,
    rows: seq<Row>, today: int
  ) {
    && Summed(totals, rows, today)
    && Tallied(order, sums, TallyOf(ByEmployee, rows, today))
    && SessionsKnown(sessions, rows, today)
  }

  ghost predicate SessionsAdd(
    order: seq<string>, sums: map<string, Counts>, headers: map<string, Header>, rows: seq<Row>, today: int
  ) {
    && Tallied(order, sums, TallyOf(BySession, rows, today))
    && Headed(headers, rows, today)
  }

  ghost predicate DaysAdd(days: map<int, Counts>, rows: seq<Row>, today: int) {
    DaysTallied(days, TallyOfDay(rows, today), today)
  }

  lemma OutsideSummary(
    totals: Counts, order: seq<string>, sums: map<string, Counts>, sessions: map<string, set<string>>,
    rows: seq<Row>, row: Row, today: int
  )
    requires EmployeesAdd(totals, order, sums, sessions, rows, today) && !(row.Usable() && InSummary(row, today))
    ensures EmployeesAdd(totals, order, sums, sessions, rows + [row], today)
  {
    SummedAsBefore(totals, rows, row, today);
    EmployeesTalliedAsBefore(order, sums, rows, row, today);
    NoSessionJoins(sessions, rows, row, today);
  }

  lemma SummedAsBefore(totals: Counts, rows: seq<Row>, row: Row, today: int)
    requires Summed(totals, rows, today) && !(row.Usable() && InSummary(row, today))
    ensures Summed(totals, rows + [row], today)
  {
    TallyOneMore(rows, row, today, Summary);
  }

  lemma EmployeesTalliedAsBefore(order: seq<string>, sums: map<string, Counts>, rows: seq<Row>, row: Row, today: int)
    requires Tallied(order, sums, TallyOf(ByEmployee, rows, today)) && !(row.Usable() && InSummary(row, today))
    ensures Tallied(order, sums, TallyOf(ByEmployee, rows + [row], today))
  {
    TalliedAsBefore(order, sums, ByEmployee, rows, row, today);
  }

  /** A row without usage changes nothing. */
  lemma UnusableRow(
    days: map<int, Counts>, order: seq<string>, sums: map<string, Counts>, headers: map<string, Header>,
    rows: seq<Row>, row: Row, today: int
  )
    requires !row.Usable() && DaysAdd(days, rows, today) && SessionsAdd(order, sums, headers, rows, today)
    ensures DaysAdd(days, rows + [row], today) && SessionsAdd(order, sums, headers, rows + [row], today)
  {
    DaysOneMore(days, rows, row, today, None, row.Usage());
    TalliedAsBefore(order, sums, BySession, rows, row, today);
    HeadedAsBefore(headers, rows, row, today);
  }

  lemma NoSessionJoins(sessions: map<string, set<string>>, rows: seq<Row>, row: Row, today: int)
    requires SessionsKnown(sessions, rows, today) && !(row.Usable() && InSummary(row, today))
    ensures SessionsKnown(sessions, rows + [row], today)
  {
    forall e
      ensures SessionsOf(rows + [row], today, e) == SessionsOf(rows, today, e)
    {
      SessionsOneMore(rows, row, today, e);
    }
  }

  lemma SessionJoins(sessions: map<string, set<string>>, rows: seq<Row>, row: Row, today: int)
    requires SessionsKnown(sessions, rows, today) && row.Usable() && InSummary(row, today)
    ensures
      var e := KeyOf(ByEmployee, row);
      SessionsKnown(if row.sessionId == "" then sessions
                    else sessions[e := (if e in sessions then sessions[e] else {}) + {row.sessionId}],
                    rows + [row], today)
  {
    forall e
      ensures SessionsOf(rows + [row], today, e) ==
        SessionsOf(rows, today, e) + if e == KeyOf(ByEmployee, row) && row.sessionId != "" then {row.sessionId} else {}
    {
      SessionsOneMore(rows, row, today, e);
    }
  }

  /** One pass over the rows. Each day, employee and session is a dictionary; the orders are the
      orders in which the dictionaries gained their keys. */
  method Accumulate(rows: seq<Row>, today: int)
    returns (
      days: map<int, Counts>, totals: Counts,
      employeeOrder: seq<string>, byEmployee: map<string, Counts>, employeeSessions: map<string, set<string>>,
      sessionOrder: seq<string>, bySession: map<string, Counts>, headers: map<string, Header>
    )
    ensures DaysAdd(days, rows, today)
    ensures EmployeesAdd(totals, employeeOrder, byEmployee, employeeSessions, rows, today)
    ensures SessionsAdd(sessionOrder, bySession, headers, rows, today)
  {
    days := NoDays(today);
    totals, employeeOrder, byEmployee, employeeSessions := ZERO, [], map[], map[];
    sessionOrder, bySession, headers := [], map[], map[];
    for n := 0 to |rows|
      invariant DaysAdd(days, rows[..n], today)
      invariant EmployeesAdd(totals, employeeOrder, byEmployee, employeeSessions, rows[..n], today)
      invariant SessionsAdd(sessionOrder, bySession, headers, rows[..n], today)
    {
      assert rows[..n + 1] == rows[..n] + [rows[n]];
      totals, employeeOrder, byEmployee, employeeSessions :=
        AccountToEmployee(totals, employeeOrder, byEmployee, employeeSessions, rows[n], today, rows[..n]);
      days, sessionOrder, bySession, headers :=
        AccountToDayAndSession(days, sessionOrder, bySession, headers, rows[n], today, rows[..n]);
    }
    assert rows[..|rows|] == rows;
  }

  /** Every usable row counts for its day, if that is shown, and for its session. */
  method AccountToDayAndSession(
    days: map<int, Counts>, order: seq<string>, sums: map<string, Counts>, headers: map<string, Header>,
    row: Row, today: int, ghost seen: seq<Row>
  )
    returns (days': map<int, Counts>, order': seq<string>, sums': map<string, Counts>, headers': map<string, Header>)
    requires DaysAdd(days, seen, today) && SessionsAdd(order, sums, headers, seen, today)
    ensures DaysAdd(days', seen + [row], today) && SessionsAdd(order', sums', headers', seen + [row], today)
  {
    if row.Usable() {
      days' := AddToDay(days, row, today, seen);
      order', sums', headers' := AddToSession(order, sums, headers, row, today, seen);
    } else {
      UnusableRow(days, order, sums, headers, seen, row, today);
      days', order', sums', headers' := days, order, sums, headers;
    }
  }

  /** Only a usable row of the summary days counts for its employee. */
  method AccountToEmployee(
    totals: Counts, order: seq<string>, sums: map<string, Counts>, sessions: map<string, set<string>>,
    row: Row, today: int, ghost seen: seq<Row>
  )
    returns (totals': Counts, order': seq<string>, sums': map<string, Counts>, sessions': map<string, set<string>>)
    requires EmployeesAdd(totals, order, sums, sessions, seen, today)
    ensures EmployeesAdd(totals', order', sums', sessions', seen + [row], today)
  {
    if row.Usable() && InSummary(row, today) {
      totals', order', sums', sessions' := AddToEmployee(totals, order, sums, sessions, row, today, seen);
    } else {
      OutsideSummary(totals, order, sums, sessions, seen, row, today);
      totals', order', sums', sessions' := totals, order, sums, sessions;
    }
  }

  method NoDays(today: int) returns (days: map<int, Counts>)
    ensures DaysAdd(days, [], today)
  {
    days := map[];
    for offset := 0 to DAY_WINDOW
      invariant forall d :: d in days <==> today - DAY_WINDOW < d <= today - DAY_WINDOW + offset
      invariant forall d :: d in days ==> days[d] == ZERO
    {
      days := days[today - (DAY_WINDOW - 1) + offset := ZERO];
    }
  }

  method AddToDay(days: map<int, Counts>, row: Row, today: int, ghost seen: seq<Row>) returns (after: map<int, Counts>)
    requires DaysAdd(days, seen, today) && row.Usable()
    ensures DaysAdd(after, seen + [row], today)
  {
    DaysOneMore(days, seen, row, today, row.day, row.Usage());
    after := days;
    if row.day.Some? && row.day.value in days {
      after := days[row.day.value := Plus(days[row.day.value], row.Usage())];
    }
  }

  method AddToEmployee(
    totals: Counts, order: seq<string>, sums: map<string, Counts>, sessions: map<string, set<string>>,
    row: Row, today: int, ghost seen: seq<Row>
  )
    returns (totals': Counts, order': seq<string>, sums': map<string, Counts>, sessions': map<string, set<string>>)
    requires EmployeesAdd(totals, order, sums, sessions, seen, today) && row.Usable() && InSummary(row, today)
    ensures EmployeesAdd(totals', order', sums', sessions', seen + [row], today)
  {
    var employee := KeyOf(ByEmployee, row);
    TallyOneMore(seen, row, today, Summary);
    totals' := Plus(totals, row.Usage());
    order', sums' := AddToColumn(ByEmployee, order, sums, row, today, seen);
    SessionJoins(sessions, seen, row, today);
    sessions' := sessions;
    if row.sessionId != "" {
      var known := if employee in sessions then sessions[employee] else {};
      sessions' := sessions[employee := known + {row.sessionId}];
    }
  }

  method AddToColumn(
    column: Column, order: seq<string>, sums: map<string, Counts>, row: Row, today: int, ghost seen: seq<Row>
  )
    returns (order': seq<string>, sums': map<string, Counts>)
    requires Tallied(order, sums, TallyOf(column, seen, today)) && Picks(Of(column, KeyOf(column, row)), row, today)
    ensures Tallied(order', sums', TallyOf(column, seen + [row], today))
  {
    var key := KeyOf(column, row);
    order', sums' := AddUnderKey(order, sums, key, row.Usage());
    TalliedOneMore(order, sums, column, seen, row, today);
  }

  /** Adds an amount under a key, which joins the dictionary if it is not there. */
  method AddUnderKey(order: seq<string>, sums: map<string, Counts>, key: string, usage: Counts)
    returns (order': seq<string>, sums': map<string, Counts>)
    ensures order' == if key in sums then order else order + [key]
    ensures sums' == sums[key := Plus(if key in sums then sums[key] else ZERO, usage)]
  {
    order', sums' := order, sums;
    if key !in sums {
      order', sums' := order + [key], sums[key := ZERO];
    }
    sums' := sums'[key := Plus(sums'[key], usage)];
  }

  method AddToSession(
    order: seq<string>, sums: map<string, Counts>, headers: map<string, Header>, row: Row, today: int,
    ghost seen: seq<Row>
  )
    returns (order': seq<string>, sums': map<string, Counts>, headers': map<string, Header>)
    requires SessionsAdd(order, sums, headers, seen, today) && row.Usable()
    ensures SessionsAdd(order', sums', headers', seen + [row], today)
  {
    order', sums' := AddToColumn(BySession, order, sums, row, today, seen);
    HeadedOneMore(headers, seen, row, today);
    headers' := headers[KeyOf(BySession, row) := HeaderAfter(headers, row)];
  }

  // ----- the dashboard

  datatype Dashboard = Dashboard(
    available: bool, totals: Counts, daily: seq<Day>, byEmployee: seq<Employee>, recentSessions: seq<Session>)

  function MoreTokens(): (Employee, Employee) -> bool {
    (a: Employee, b: Employee) => a.counts.total > b.counts.total
  }

  function MoreRecent(): (Session, Session) -> bool {
    (a: Session, b: Session) => !Text.Before(a.header.updatedAt, b.header.updatedAt)
  }

  lemma MoreRecentRanks()
    ensures Ranks(MoreRecent())
  {
    forall a: Session, b: Session
      ensures Text.Before(a.header.updatedAt, b.header.updatedAt) || Text.Before(b.header.updatedAt, a.header.updatedAt)
    {
      Text.BeforeTotal(a.header.updatedAt, b.header.updatedAt);
    }
    forall a: Session, b: Session, c: Session
      | !MoreRecent()(a, b) && !MoreRecent()(b, c)
      ensures !MoreRecent()(a, c)
    {
      Text.BeforeTransitive(a.header.updatedAt, b.header.updatedAt, c.header.updatedAt);
    }
  }

  /** The employees of the summary days, most tokens first. */
  ghost predicate EmployeesShown(list: seq<Employee>, rows: seq<Row>, today: int) {
    && InRank(list, MoreTokens())
    && (forall e :: e in list ==>
          e.counts == Tally(rows, today, Of(ByEmployee, e.id)) && e.sessionCount == |SessionsOf(rows, today, e.id)|)
    && (forall r :: r in rows && Picks(Summary, r, today) ==> exists e :: e in list && e.id == KeyOf(ByEmployee, r))
    && SumBy(list, (e: Employee) => e.counts) == Tally(rows, today, Summary)
  }

  /** The sessions of all usable rows, most recent first. */
  ghost predicate SessionsShown(list: seq<Session>, rows: seq<Row>, today: int) {
    && InRank(list, MoreRecent())
    && (forall s :: s in list ==> SoundSession(s, rows, today))
    && (forall r :: r in rows && r.Usable() ==> exists s :: s in list && s.key == KeyOf(BySession, r))
    && SumBy(list, (s: Session) => s.counts) == Tally(rows, today, Everything)
  }

  /** The last days of the window, one entry a day. */
  ghost predicate DaysShown(list: seq<Day>, rows: seq<Row>, today: int) {
    && |list| == DAY_WINDOW
    && (forall i :: 0 <= i < DAY_WINDOW ==>
          list[i].date == today - (DAY_WINDOW - 1) + i && list[i].counts == Tally(rows, today, Dated(list[i].date)))
  }

  /** The days shown add up to the window, and the last seven of them with the days to come to the
      totals; so the last seven equal the totals exactly when no usable row lies in the future. */
  lemma DaysAddUp(list: seq<Day>, rows: seq<Row>, today: int)
    requires DaysShown(list, rows, today)
    ensures SumBy(list, (d: Day) => d.counts) == Tally(rows, today, Window)
    ensures
      var lastSeven := SumBy(list[DAY_WINDOW - SUMMARY_DAYS..], (d: Day) => d.counts);
      && Plus(lastSeven, Tally(rows, today, Future)) == Tally(rows, today, Summary)
      && (lastSeven == Tally(rows, today, Summary) <==> !AnyPicked(rows, today, Future))
  {
    AllDaysAddUp(list, rows, today);
    LastDaysAddUp(list, rows, today);
    FutureMakesTheDifference(SumBy(list[DAY_WINDOW - SUMMARY_DAYS..], (d: Day) => d.counts), rows, today);
  }

  lemma AllDaysAddUp(list: seq<Day>, rows: seq<Row>, today: int)
    requires DaysShown(list, rows, today)
    ensures SumBy(list, (d: Day) => d.counts) == Tally(rows, today, Window)
  {
    var window := seq(DAY_WINDOW, i => Dated(today - DAY_WINDOW + 1 + i));
    WindowSplits(rows, today);
    SumsAlike(list, (d: Day) => d.counts, window, pick => Tally(rows, today, pick));
  }

  lemma LastDaysAddUp(list: seq<Day>, rows: seq<Row>, today: int)
    requires DaysShown(list, rows, today)
    ensures Plus(SumBy(list[DAY_WINDOW - SUMMARY_DAYS..], (d: Day) => d.counts), Tally(rows, today, Future)) ==
      Tally(rows, today, Summary)
  {
    var days, last := seq(SUMMARY_DAYS, i => Dated(today - SUMMARY_DAYS + 1 + i)), list[DAY_WINDOW - SUMMARY_DAYS..];
    SummaryDaysSplit(rows, today);
    SumsAlike(last, (d: Day) => d.counts, days, pick => Tally(rows, today, pick));
  }

  lemma FutureMakesTheDifference(past: Counts, rows: seq<Row>, today: int)
    requires Plus(past, Tally(rows, today, Future)) == Tally(rows, today, Summary)
    ensures past == Tally(rows, today, Summary) <==> !AnyPicked(rows, today, Future)
  {
    TallyBalances(rows, today, Future);
    var future := Tally(rows, today, Future);
    if future == ZERO {
      PlusNothing(past);
    } else {
      assert future.total > 0;
      assert Plus(past, future).total == past.total + future.total;
    }
  }

  /** Every entry of the list stands for the key at its place. */
  ghost predicate EmployeesListed(
    list: seq<Employee>, order: seq<string>, sums: map<string, Counts>, sessions: map<string, set<string>>
  )
    requires forall k :: k in order ==> k in sums
  {
    && |list| == |order|
    && forall i :: 0 <= i < |order| ==>
        && list[i].id == order[i] && list[i].counts == sums[order[i]]
        && list[i].sessionCount == |if order[i] in sessions then sessions[order[i]] else {}|
  }

  ghost predicate SessionsListed(
    list: seq<Session>, order: seq<string>, sums: map<string, Counts>, headers: map<string, Header>
  )
    requires forall k :: k in order ==> k in sums && k in headers
  {
    && |list| == |order|
    && forall i :: 0 <= i < |order| ==> list[i] == Session(order[i], headers[order[i]], sums[order[i]])
  }

  /** The keys of a dictionary in order, each with its tally, add up to the whole. */
  lemma ListAddsUp<T>(
    list: seq<T>, counts: T -> Counts, order: seq<string>, sums: map<string, Counts>, column: Column,
    rows: seq<Row>, today: int
  )
    requires Tallied(order, sums, TallyOf(column, rows, today)) && |list| == |order|
    requires forall i :: 0 <= i < |order| ==> counts(list[i]) == sums[order[i]]
    ensures SumBy(list, counts) == Tally(rows, today, if column == ByEmployee then Summary else Everything)
  {
    var picks := seq(|order|, i requires 0 <= i < |order| => Of(column, order[i]));
    ColumnSplits(order, sums, column, rows, today);
    forall i | 0 <= i < |order|
      ensures counts(list[i]) == Tally(rows, today, picks[i])
    {
      assert order[i] in sums && sums[order[i]] == TallyOf(column, rows, today)(order[i]);
    }
    SumsAlike(list, counts, picks, pick => Tally(rows, today, pick));
  }

  lemma KeyIsListed(order: seq<string>, sums: map<string, Counts>, column: Column, rows: seq<Row>, today: int, r: Row)
    requires Tallied(order, sums, TallyOf(column, rows, today))
    requires r in rows && Picks(Of(column, KeyOf(column, r)), r, today)
    ensures KeyOf(column, r) in order
  {
    PickedCounts(rows, today, Of(column, KeyOf(column, r)), r);
    assert TallyOf(column, rows, today)(KeyOf(column, r)) != ZERO;
  }

  lemma EmployeesRanked(
    list: seq<Employee>, order: seq<string>, sums: map<string, Counts>, sessions: map<string, set<string>>,
    rows: seq<Row>, today: int
  )
    requires Tallied(order, sums, TallyOf(ByEmployee, rows, today)) && SessionsKnown(sessions, rows, today)
    requires EmployeesListed(list, order, sums, sessions)
    ensures EmployeesShown(Ranked(list, MoreTokens()), rows, today)
  {
    var ranked := Ranked(list, MoreTokens());
    RankedIsInRank(list, MoreTokens());
    RankedKeepsElements(list, MoreTokens());
    RankedKeepsSum(list, MoreTokens(), (e: Employee) => e.counts);
    ListAddsUp(list, (e: Employee) => e.counts, order, sums, ByEmployee, rows, today);
    forall e | e in ranked
      ensures e.counts == Tally(rows, today, Of(ByEmployee, e.id)) && e.sessionCount == |SessionsOf(rows, today, e.id)|
    {
      EmployeeEntry(list, order, sums, sessions, rows, today, e);
    }
    forall r | r in rows && Picks(Summary, r, today)
      ensures exists e :: e in ranked && e.id == KeyOf(ByEmployee, r)
    {
      KeyIsListed(order, sums, ByEmployee, rows, today, r);
      var i :| 0 <= i < |order| && order[i] == KeyOf(ByEmployee, r);
      assert list[i] in ranked;
    }
  }

  lemma EmployeeEntry(
    list: seq<Employee>, order: seq<string>, sums: map<string, Counts>, sessions: map<string, set<string>>,
    rows: seq<Row>, today: int, e: Employee
  )
    requires Tallied(order, sums, TallyOf(ByEmployee, rows, today)) && SessionsKnown(sessions, rows, today)
    requires EmployeesListed(list, order, sums, sessions) && e in list
    ensures e.counts == Tally(rows, today, Of(ByEmployee, e.id)) && e.sessionCount == |SessionsOf(rows, today, e.id)|
  {
    var i :| 0 <= i < |list| && list[i] == e;
    assert order[i] in sums;
  }

  lemma SessionsRanked(
    list: seq<Session>, order: seq<string>, sums: map<string, Counts>, headers: map<string, Header>,
    rows: seq<Row>, today: int
  )
    requires SessionsAdd(order, sums, headers, rows, today) && forall k :: k in order ==> k in headers
    requires SessionsListed(list, order, sums, headers)
    ensures SessionsShown(Ranked(list, MoreRecent()), rows, today)
  {
    SessionsInRank(list, order, sums, rows, today);
    RankedKeepsElements(list, MoreRecent());
    EverySessionIsSound(list, order, sums, headers, rows, today);
    EverySessionIsListed(list, order, sums, rows, today);
  }

  /** An entry with its own tally and header. */
  ghost predicate SoundSession(s: Session, rows: seq<Row>, today: int) {
    s.counts == Tally(rows, today, Of(BySession, s.key)) && Heads(s.header, rows, today, s.key)
  }

  lemma EverySessionIsSound(
    list: seq<Session>, order: seq<string>, sums: map<string, Counts>, headers: map<string, Header>,
    rows: seq<Row>, today: int
  )
    requires SessionsAdd(order, sums, headers, rows, today) && forall k :: k in order ==> k in headers
    requires SessionsListed(list, order, sums, headers)
    ensures forall s :: s in list ==> SoundSession(s, rows, today)
  {
    forall i | 0 <= i < |list|
      ensures SoundSession(list[i], rows, today)
    {
      SumAt(order, sums, rows, today, order[i]);
      HeaderAt(headers, rows, today, order[i]);
    }
  }

  lemma EverySessionIsListed(
    list: seq<Session>, order: seq<string>, sums: map<string, Counts>, rows: seq<Row>, today: int
  )
    requires Tallied(order, sums, TallyOf(BySession, rows, today)) && |list| == |order|
    requires forall i :: 0 <= i < |order| ==> list[i].key == order[i]
    ensures forall r :: r in rows && r.Usable() ==> exists s :: s in list && s.key == KeyOf(BySession, r)
  {
    forall r | r in rows && r.Usable()
      ensures exists s :: s in list && s.key == KeyOf(BySession, r)
    {
      KeyIsListed(order, sums, BySession, rows, today, r);
      var i :| 0 <= i < |order| && order[i] == KeyOf(BySession, r);
      assert list[i] in list;
    }
  }

  /** Ranking the sessions keeps their sum, which is that of all usable rows. */
  lemma SessionsInRank(
    list: seq<Session>, order: seq<string>, sums: map<string, Counts>, rows: seq<Row>, today: int
  )
    requires Tallied(order, sums, TallyOf(BySession, rows, today)) && |list| == |order|
    requires forall i :: 0 <= i < |order| ==> list[i].counts == sums[order[i]]
    ensures InRank(Ranked(list, MoreRecent()), MoreRecent())
    ensures SumBy(Ranked(list, MoreRecent()), (s: Session) => s.counts) == Tally(rows, today, Everything)
  {
    MoreRecentRanks();
    RankedIsInRank(list, MoreRecent());
    RankedKeepsSum(list, MoreRecent(), (s: Session) => s.counts);
    ListAddsUp(list, (s: Session) => s.counts, order, sums, BySession, rows, today);
  }

  lemma SumAt(order: seq<string>, sums: map<string, Counts>, rows: seq<Row>, today: int, k: string)
    requires Tallied(order, sums, TallyOf(BySession, rows, today)) && k in sums
    ensures sums[k] == Tally(rows, today, Of(BySession, k))
  {
  }

  lemma HeaderAt(headers: map<string, Header>, rows: seq<Row>, today: int, k: string)
    requires Headed(headers, rows, today) && k in headers
    ensures Heads(headers[k], rows, today, k)
  {
  }

  lemma SameKeys(
    order: seq<string>, sums: map<string, Counts>, headers: map<string, Header>, rows: seq<Row>, today: int
  )
    requires SessionsAdd(order, sums, headers, rows, today)
    ensures forall k :: k in order ==> k in headers
  {
    forall k | k in order
      ensures k in headers
    {
      TallyBalances(rows, today, Of(BySession, k));
      assert TallyOf(BySession, rows, today)(k) != ZERO;
    }
  }

  method ListEmployees(
    order: seq<string>, sums: map<string, Counts>, sessions: map<string, set<string>>, ghost rows: seq<Row>,
    ghost today: int
  )
    returns (list: seq<Employee>)
    requires Tallied(order, sums, TallyOf(ByEmployee, rows, today)) && SessionsKnown(sessions, rows, today)
    ensures EmployeesShown(list, rows, today)
  {
    var entries := seq(|order|, i requires 0 <= i < |order| && order[i] in sums =>
      Employee(order[i], sums[order[i]], |if order[i] in sessions then sessions[order[i]] else {}|));
    EmployeesRanked(entries, order, sums, sessions, rows, today);
    list := Ranked(entries, MoreTokens());
  }

  method ListSessions(
    order: seq<string>, sums: map<string, Counts>, headers: map<string, Header>, ghost rows: seq<Row>, ghost today: int
  )
    returns (list: seq<Session>)
    requires SessionsAdd(order, sums, headers, rows, today)
    ensures SessionsShown(list, rows, today)
  {
    SameKeys(order, sums, headers, rows, today);
    var entries := seq(|order|, i requires 0 <= i < |order| && order[i] in sums && order[i] in headers =>
      Session(order[i], headers[order[i]], sums[order[i]]));
    SessionsRanked(entries, order, sums, headers, rows, today);
    list := Ranked(entries, MoreRecent());
  }

  method ListDays(days: map<int, Counts>, ghost rows: seq<Row>, today: int) returns (list: seq<Day>)
    requires DaysAdd(days, rows, today)
    ensures DaysShown(list, rows, today)
  {
    var first := today - (DAY_WINDOW - 1);
    list := seq(DAY_WINDOW, i requires 0 <= i < DAY_WINDOW && first + i in days => Day(first + i, days[first + i]));
  }

  lemma AvailableWhenPicked(totals: Counts, rows: seq<Row>, today: int)
    requires Summed(totals, rows, today)
    ensures totals.total > 0 <==> AnyPicked(rows, today, Summary)
  {
    TallyBalances(rows, today, Summary);
  }

  method Lists(rows: seq<Row>, today: int)
    returns (totals: Counts, daily: seq<Day>, employees: seq<Employee>, sessions: seq<Session>)
    ensures Summed(totals, rows, today)
    ensures DaysShown(daily, rows, today)
    ensures EmployeesShown(employees, rows, today)
    ensures SessionsShown(sessions, rows, today)
  {
    var days, totals', employeeOrder, byEmployee, employeeSessions, sessionOrder, bySession, headers :=
      Accumulate(rows, today);
    totals := totals';
    daily := ListDays(days, rows, today);
    employees := ListEmployees(employeeOrder, byEmployee, employeeSessions, rows, today);
    sessions := ListSessions(sessionOrder, bySession, headers, rows, today);
  }

  method Cut(sessions: seq<Session>) returns (recent: seq<Session>)
    ensures recent == if |sessions| > RECENT_SESSIONS then sessions[..RECENT_SESSIONS] else sessions
  {
    recent := if |sessions| > RECENT_SESSIONS then sessions[..RECENT_SESSIONS] else sessions;
  }

  method IsAvailable(totals: Counts, ghost rows: seq<Row>, ghost today: int) returns (available: bool)
    requires Summed(totals, rows, today)
    ensures available <==> AnyPicked(rows, today, Summary)
  {
    AvailableWhenPicked(totals, rows, today);
    available := totals.total > 0;
  }

  /** The dashboard, and the sessions before the cut to the ten most recent. */
  method DashboardTokens(rows: seq<Row>, today: int) returns (d: Dashboard, sessions: seq<Session>)
    ensures d.totals == Tally(rows, today, Summary)
    ensures d.available <==> AnyPicked(rows, today, Summary)
    ensures DaysShown(d.daily, rows, today)
    ensures EmployeesShown(d.byEmployee, rows, today)
    ensures SessionsShown(sessions, rows, today)
    ensures d.recentSessions <= sessions && |d.recentSessions| <= 10
    ensures |d.recentSessions| < 10 ==> d.recentSessions == sessions
    ensures |d.daily| == 14 && d.daily[0].date == today - 13 && d.daily[13].date == today
  {
    var totals, daily, employees, all := Lists(rows, today);
    var available := IsAvailable(totals, rows, today);
    var recent := Cut(all);
    d, sessions := Dashboard(available, totals, daily, employees, recent), all;
  }
}

/** The collapse of duplicate registration events in the daemon event log.
    Models backend/migrations/versions/20260730_0053_prune_heartbeat_daemon_events.py. */
module HistoryPrune {
  import opened Wrappers

  datatype Kind = Seen | Registered | Other

  /** One row, in the order (timestamp, id). `identity` is the canonical text of the payload's
      node without its heartbeat times, absent when the payload has no readable node. */
  datatype Event = Event(
    id: string, kind: Kind, columnNode: Option<string>, payloadNode: Option<string>, identity: Option<string>
  ) {
    /** The payload's node id when it is there, else the column. */
    function Node(): Option<string> { if payloadNode.Some? then payloadNode else columnNode }
  }

  predicate Same(left: Event, right: Event) {
    left.identity.Some? && left.identity == right.identity
  }

  /** An event between two events that repeat it. The first and the last never are. */
  predicate Redundant(history: seq<Event>, i: int) {
    && 0 < i < |history| - 1
    && Same(history[i - 1], history[i]) && Same(history[i], history[i + 1])
  }

  /** The positions below n that are kept, in order. */
  function KeptBelow(history: seq<Event>, n: nat): seq<nat>
    requires n <= |history|
  {
    if n == 0 then []
    else KeptBelow(history, n - 1) + if Redundant(history, n - 1) then [] else [n - 1]
  }

  /** The events below n that are kept, in order. */
  function KeptEvents(history: seq<Event>, n: nat): seq<Event>
    requires n <= |history|
  {
    if n == 0 then []
    else KeptEvents(history, n - 1) + if Redundant(history, n - 1) then [] else [history[n - 1]]
  }

  /** One node's history without its redundant events. */
  function Collapse(history: seq<Event>): seq<Event> { KeptEvents(history, |history|) }

  lemma {:induction false} KeptAt(history: seq<Event>, n: nat)
    requires n <= |history|
    ensures |KeptEvents(history, n)| == |KeptBelow(history, n)|
    ensures forall k :: 0 <= k < |KeptBelow(history, n)| ==>
      KeptBelow(history, n)[k] < n && KeptEvents(history, n)[k] == history[KeptBelow(history, n)[k]]
  {
    if n > 0 {
      KeptAt(history, n - 1);
    }
  }

  lemma {:induction false} KeptInOrder(history: seq<Event>, n: nat)
    requires n <= |history|
    ensures
      var kept := KeptBelow(history, n);
      && (forall p :: p in kept <==> 0 <= p < n && !Redundant(history, p))
      && (forall j, k :: 0 <= j < k < |kept| ==> kept[j] < kept[k])
  {
    if n > 0 {
      KeptInOrder(history, n - 1);
      AboveAll(KeptBelow(history, n - 1), n - 1);
    }
  }

  /** A position above all others stays last. */
  lemma AboveAll(kept: seq<nat>, last: nat)
    requires (forall p :: p in kept ==> p < last) && forall j, k :: 0 <= j < k < |kept| ==> kept[j] < kept[k]
    ensures forall p :: p in kept + [last] <==> p in kept || p == last
    ensures forall j, k :: 0 <= j < k < |kept + [last]| ==> (kept + [last])[j] < (kept + [last])[k]
  {
    assert forall j :: 0 <= j < |kept| ==> kept[j] in kept;
  }

  function Identities(history: seq<Event>): seq<Option<string>> {
    seq(|history|, i requires 0 <= i < |history| => history[i].identity)
  }

  /** The sequence of states a history went through; an unreadable state repeats nothing. */
  function Destutter(states: seq<Option<string>>): seq<Option<string>> {
    if states == [] then []
    else
      var n := |states| - 1;
      Destutter(states[..n]) + if n > 0 && states[n].Some? && states[n] == states[n - 1] then [] else [states[n]]
  }

  lemma DestutterOneMore(states: seq<Option<string>>, s: Option<string>)
    ensures Destutter(states + [s]) ==
      Destutter(states) + if states != [] && s.Some? && s == states[|states| - 1] then [] else [s]
  {
    var all, n := states + [s], |states|;
    assert |all| == n + 1 && all[..n] == states && all[n] == s;
    if n > 0 {
      assert all[n - 1] == states[n - 1];
    }
  }

  /** The states of a history, without stutters. */
  function States(history: seq<Event>): seq<Option<string>> { Destutter(Identities(history)) }

  lemma StatesOneMore(history: seq<Event>, e: Event)
    ensures States(history + [e]) ==
      States(history) + if history != [] && Same(e, history[|history| - 1]) then [] else [e.identity]
  {
    assert Identities(history + [e]) == Identities(history) + [e.identity];
    DestutterOneMore(Identities(history), e.identity);
  }

  lemma {:induction false} StatesSurvive(history: seq<Event>, n: nat)
    requires n <= |history|
    ensures States(KeptEvents(history, n)) == States(history[..n])
    ensures n > 0 ==>
      var kept := KeptEvents(history, n);
      kept != [] && kept[|kept| - 1].identity == history[n - 1].identity
  {
    if n > 0 {
      StatesSurvive(history, n - 1);
      var e := history[n - 1];
      assert history[..n] == history[..n - 1] + [e];
      StatesOneMore(history[..n - 1], e);
      StatesOneMore(KeptEvents(history, n - 1), e);
      assert n > 1 ==> history[..n - 1][n - 2] == history[n - 2];
      var before := KeptEvents(history, n - 1);
      assert KeptEvents(history, n) == if Redundant(history, n - 1) then before else before + [e];
    }
  }

  /** Between two kept neighbours every step repeats the state before it. */
  lemma {:induction false} GapRepeats(history: seq<Event>, p: nat, q: nat, x: nat)
    requires p <= x < q < |history| && forall y :: p < y < q ==> Redundant(history, y)
    requires p + 1 < q
    ensures Same(history[x], history[x + 1])
  {
    if x == p {
      assert Redundant(history, p + 1);
    } else {
      assert Redundant(history, x);
    }
  }

  lemma KeptNeighbours(history: seq<Event>, j: nat)
    requires j + 1 < |KeptBelow(history, |history|)|
    ensures
      var kept := KeptBelow(history, |history|);
      && kept[j] < kept[j + 1] < |history|
      && (Same(history[kept[j]], history[kept[j + 1]]) ==>
            && Same(history[kept[j]], history[kept[j] + 1])
            && Same(history[kept[j + 1] - 1], history[kept[j + 1]]))
  {
    var kept := KeptBelow(history, |history|);
    KeptInOrder(history, |history|);
    var p, q := kept[j], kept[j + 1];
    assert p in kept && q in kept;
    forall y | p < y < q
      ensures Redundant(history, y)
    {
      forall k | 0 <= k < |kept|
        ensures kept[k] != y
      {
        assert k < j ==> kept[k] < p;
        assert k > j + 1 ==> kept[k] > q;
      }
    }
    if p + 1 < q {
      GapRepeats(history, p, q, p);
      GapRepeats(history, p, q, q - 1);
    }
  }

  /** Collapsing leaves nothing redundant, so no state is repeated more than twice in a row. */
  lemma NothingLeftToCollapse(history: seq<Event>, i: int)
    ensures !Redundant(Collapse(history), i)
  {
    var collapsed, kept := Collapse(history), KeptBelow(history, |history|);
    KeptInOrder(history, |history|);
    KeptAt(history, |history|);
    if 0 < i < |collapsed| - 1 {
      KeptNeighbours(history, i - 1);
      KeptNeighbours(history, i);
      assert kept[i] in kept;
    }
  }

  lemma {:induction false} KeepsAllOf(history: seq<Event>, n: nat)
    requires n <= |history| && forall i :: !Redundant(history, i)
    ensures KeptEvents(history, n) == history[..n]
  {
    if n > 0 {
      KeepsAllOf(history, n - 1);
    }
  }

  lemma CollapseKeepsUnreadable(history: seq<Event>, e: Event)
    requires e in history && e.identity.None?
    ensures e in Collapse(history)
  {
    var kept := KeptBelow(history, |history|);
    KeptInOrder(history, |history|);
    KeptAt(history, |history|);
    var i :| 0 <= i < |history| && history[i] == e;
    assert i in kept;
    var k :| 0 <= k < |kept| && kept[k] == i;
    assert Collapse(history)[k] == e;
  }

  lemma CollapseKeepsEnds(history: seq<Event>)
    requires history != []
    ensures
      var collapsed := Collapse(history);
      && collapsed != [] && collapsed[0] == history[0]
      && collapsed[|collapsed| - 1] == history[|history| - 1]
  {
    var kept, last := KeptBelow(history, |history|), |history| - 1;
    KeptInOrder(history, |history|);
    KeptAt(history, |history|);
    assert 0 in kept && last in kept;
    assert kept[0] in kept && kept[|kept| - 1] in kept;
    var first :| 0 <= first < |kept| && kept[first] == 0;
    var end :| 0 <= end < |kept| && kept[end] == last;
    assert kept[0] == 0 && kept[|kept| - 1] == last;
  }

  lemma CollapseTwice(history: seq<Event>)
    ensures Collapse(Collapse(history)) == Collapse(history)
  {
    var collapsed := Collapse(history);
    forall i
      ensures !Redundant(collapsed, i)
    {
      NothingLeftToCollapse(history, i);
    }
    KeepsAllOf(collapsed, |collapsed|);
  }

  /** What the collapse of one node's history keeps: the states it went through, its first and
      last event, every unreadable event; and no state more than twice in a row. */
  lemma CollapseKeepsMeaning(history: seq<Event>)
    ensures States(Collapse(history)) == States(history)
    ensures history != [] ==>
      && Collapse(history) != [] && Collapse(history)[0] == history[0]
      && Collapse(history)[|Collapse(history)| - 1] == history[|history| - 1]
    ensures forall i :: 0 < i < |Collapse(history)| - 1 ==>
      !(Same(Collapse(history)[i - 1], Collapse(history)[i]) && Same(Collapse(history)[i], Collapse(history)[i + 1]))
    ensures forall e :: e in history && e.identity.None? ==> e in Collapse(history)
    ensures Collapse(Collapse(history)) == Collapse(history)
  {
    StatesSurvive(history, |history|);
    assert history[..|history|] == history;
    if history != [] {
      CollapseKeepsEnds(history);
    }
    CollapseTwice(history);
    var collapsed := Collapse(history);
    forall i | 0 < i < |collapsed| - 1
      ensures !(Same(collapsed[i - 1], collapsed[i]) && Same(collapsed[i], collapsed[i + 1]))
    {
      NothingLeftToCollapse(history, i);
    }
    forall e | e in history && e.identity.None?
      ensures e in collapsed
    {
      CollapseKeepsUnreadable(history, e);
    }
  }

  // ----- the whole log

  predicate InHistory(e: Event, node: Option<string>) { e.kind == Registered && e.Node() == node }

  /** A registration belongs to the node its payload names, or else to that of its column. */
  lemma InHistoryExactly(e: Event, node: string)
    ensures InHistory(e, Some(node)) <==>
      && e.kind == Registered
      && (e.payloadNode == Some(node) || (e.payloadNode.None? && e.columnNode == Some(node)))
    ensures InHistory(e, None) <==> e.kind == Registered && e.payloadNode.None? && e.columnNode.None?
  {
  }

  function History(rows: seq<Event>, node: Option<string>): seq<Event> {
    if rows == [] then []
    else
      var last := rows[|rows| - 1];
      History(rows[..|rows| - 1], node) + if InHistory(last, node) then [last] else []
  }

  function Without(rows: seq<Event>, ids: set<string>): seq<Event> {
    if rows == [] then []
    else
      var last := rows[|rows| - 1];
      Without(rows[..|rows| - 1], ids) + if last.id in ids then [] else [last]
  }

  function WithoutSeen(rows: seq<Event>): seq<Event> {
    if rows == [] then []
    else
      var last := rows[|rows| - 1];
      WithoutSeen(rows[..|rows| - 1]) + if last.kind == Seen then [] else [last]
  }

  /** The ids marked in one node's history, up to a position. */
  function MarkedBelow(history: seq<Event>, n: nat): set<string>
    requires n <= |history|
  {
    set i | 0 <= i < n && Redundant(history, i) :: history[i].id
  }

  ghost predicate Marked(rows: seq<Event>, id: string) {
    exists node :: id in MarkedBelow(History(rows, node), |History(rows, node)|)
  }

  ghost predicate DistinctIds(rows: seq<Event>) {
    forall i, j :: 0 <= i < j < |rows| ==> rows[i].id != rows[j].id
  }

  function Nodes(rows: seq<Event>): set<Option<string>> {
    set i | 0 <= i < |rows| && rows[i].kind == Registered :: rows[i].Node()
  }

  function Min(a: int, b: int): int { if a <= b then a else b }

  function Elements(ids: seq<string>): set<string> { set id | id in ids }

  lemma ElementsAppend(a: seq<string>, b: seq<string>)
    ensures Elements(a + b) == Elements(a) + Elements(b)
  {
  }

  lemma NodesOneMore(rows: seq<Event>, row: Event)
    ensures Nodes(rows + [row]) == Nodes(rows) + if row.kind == Registered then {row.Node()} else {}
  {
    var more := rows + [row];
    assert more[|rows|] == row;
    forall i | 0 <= i < |rows| && rows[i].kind == Registered
      ensures rows[i].Node() in Nodes(more)
    {
      assert more[i] == rows[i];
    }
  }

  lemma {:induction false} WithoutNothing(rows: seq<Event>)
    ensures Without(rows, {}) == rows
  {
    if rows != [] {
      WithoutNothing(rows[..|rows| - 1]);
    }
  }

  lemma {:induction false} WithoutTwice(rows: seq<Event>, a: set<string>, b: set<string>)
    ensures Without(Without(rows, a), b) == Without(rows, a + b)
  {
    if rows != [] {
      var front, last := rows[..|rows| - 1], rows[|rows| - 1];
      WithoutTwice(front, a, b);
      if last.id in a {
        assert Without(rows, a) == Without(front, a);
      } else {
        var kept := Without(rows, a);
        assert kept == Without(front, a) + [last] && kept[..|kept| - 1] == Without(front, a);
      }
    }
  }

  lemma {:induction false} HistoryOfAbsent(rows: seq<Event>, node: Option<string>)
    requires node !in Nodes(rows)
    ensures History(rows, node) == []
  {
    if rows != [] {
      var front, last := rows[..|rows| - 1], rows[|rows| - 1];
      assert rows == front + [last];
      NodesOneMore(front, last);
      HistoryOfAbsent(front, node);
    }
  }

  lemma MarkedInGroups(rows: seq<Event>, byNode: map<Option<string>, seq<Event>>, id: string)
    requires byNode.Keys == Nodes(rows)
    requires forall node :: node in byNode ==> byNode[node] == History(rows, node)
    ensures (exists node :: node in byNode.Keys && id in MarkedBelow(byNode[node], |byNode[node]|))
      <==> Marked(rows, id)
  {
    if Marked(rows, id) {
      var node :| id in MarkedBelow(History(rows, node), |History(rows, node)|);
      if node !in Nodes(rows) {
        HistoryOfAbsent(rows, node);
      }
      assert node in byNode.Keys;
    }
    if node :| node in byNode.Keys && id in MarkedBelow(byNode[node], |byNode[node]|) {
      assert id in MarkedBelow(History(rows, node), |History(rows, node)|);
    }
  }

  /** The inner loop over one node's events. */
  method MarkRedundant(events: seq<Event>) returns (found: seq<string>)
    ensures Elements(found) == MarkedBelow(events, |events|)
  {
    found := [];
    var index := 1;
    assert MarkedBelow(events, if |events| == 0 then 0 else 1) == {};
    while index < |events| - 1
      invariant 1 <= index && (index < |events| || (index == 1 && |events| <= 1))
      invariant Elements(found) == MarkedBelow(events, Min(index, |events|))
      decreases |events| - index
    {
      MarkedOneMore(events, index);
      if Same(events[index - 1], events[index]) && Same(events[index], events[index + 1]) {
        ElementsAppend(found, [events[index].id]);
        found := found + [events[index].id];
      }
      index := index + 1;
    }
    if index < |events| {
      MarkedOneMore(events, index);
    }
  }

  lemma MarkedOneMore(events: seq<Event>, n: nat)
    requires n < |events|
    ensures MarkedBelow(events, n + 1) ==
      MarkedBelow(events, n) + if Redundant(events, n) then {events[n].id} else {}
  {
  }

  method GroupByNode(rows: seq<Event>) returns (byNode: map<Option<string>, seq<Event>>)
    ensures byNode.Keys == Nodes(rows)
    ensures forall node :: node in byNode ==> byNode[node] == History(rows, node)
  {
    byNode := map[];
    for k := 0 to |rows|
      invariant byNode.Keys == Nodes(rows[..k])
      invariant forall node :: node in byNode ==> byNode[node] == History(rows[..k], node)
    {
      var row := rows[k];
      assert rows[..k + 1] == rows[..k] + [row] && rows[..k + 1][..k] == rows[..k];
      NodesOneMore(rows[..k], row);
      if row.kind == Registered {
        if row.Node() !in byNode {
          HistoryOfAbsent(rows[..k], row.Node());
        }
        var group := if row.Node() in byNode then byNode[row.Node()] else [];
        byNode := byNode[row.Node() := group + [row]];
      }
    }
    assert rows[..|rows|] == rows;
  }

  method MarkGroups(rows: seq<Event>, byNode: map<Option<string>, seq<Event>>) returns (redundant: seq<string>)
    requires byNode.Keys == Nodes(rows)
    requires forall node :: node in byNode ==> byNode[node] == History(rows, node)
    ensures forall id :: id in redundant <==> Marked(rows, id)
  {
    var pending := byNode.Keys;
    redundant := [];
    while pending != {}
      invariant pending <= byNode.Keys
      invariant forall id :: id in redundant <==>
        exists node :: node in byNode.Keys - pending && id in MarkedBelow(byNode[node], |byNode[node]|)
      decreases pending
    {
      var node :| node in pending;
      var found := MarkRedundant(byNode[node]);
      assert forall id :: id in found <==> id in MarkedBelow(byNode[node], |byNode[node]|) by {
        assert forall id :: id in found <==> id in Elements(found);
      }
      redundant := redundant + found;
      pending := pending - {node};
    }
    forall id
      ensures id in redundant <==> Marked(rows, id)
    {
      MarkedInGroups(rows, byNode, id);
    }
  }

  class DaemonEvents {
    var rows: seq<Event>

    constructor (rows: seq<Event>)
      ensures this.rows == rows
    {
      this.rows := rows;
    }

    method DeleteInChunks(ids: seq<string>)
      modifies this
      ensures rows == Without(old(rows), Elements(ids))
    {
      ghost var before := rows;
      WithoutNothing(before);
      assert Elements(ids[..0]) == {};
      var start := 0;
      while start < |ids|
        invariant 0 <= start
        invariant rows == Without(before, Elements(ids[..Min(start, |ids|)]))
        decreases |ids| - start
      {
        var end := Min(start + 500, |ids|);
        var chunk := ids[start..end];
        WithoutTwice(before, Elements(ids[..start]), Elements(chunk));
        ElementsAppend(ids[..start], chunk);
        assert ids[..start] + chunk == ids[..end];
        rows := Without(rows, Elements(chunk));
        start := start + 500;
      }
      assert ids[..|ids|] == ids;
    }

    /** Drops the dead rows, groups the registrations by node, marks what is redundant in each
        group, and deletes the marked rows five hundred at a time. */
    method Upgrade()
      modifies this
      ensures rows == Pruned(old(rows))
    {
      rows := WithoutSeen(rows);
      var byNode := GroupByNode(rows);
      var redundant := MarkGroups(rows, byNode);
      ghost var log := rows;
      DeleteInChunks(redundant);
      WithoutSame(log, Elements(redundant), AllMarked(log));
    }
  }

  // ----- what the whole migration keeps

  /** Every marked id of a log. */
  ghost function AllMarked(rows: seq<Event>): set<string> {
    set i | 0 <= i < |rows| && Marked(rows, rows[i].id) :: rows[i].id
  }

  ghost function Pruned(rows: seq<Event>): seq<Event> {
    Without(WithoutSeen(rows), AllMarked(WithoutSeen(rows)))
  }

  lemma {:induction false} WithoutSame(rows: seq<Event>, a: set<string>, b: set<string>)
    requires forall i :: 0 <= i < |rows| ==> (rows[i].id in a <==> rows[i].id in b)
    ensures Without(rows, a) == Without(rows, b)
  {
    if rows != [] {
      WithoutSame(rows[..|rows| - 1], a, b);
    }
  }

  lemma HistoryOneMore(rows: seq<Event>, e: Event, node: Option<string>)
    ensures History(rows + [e], node) == History(rows, node) + if InHistory(e, node) then [e] else []
  {
    var more := rows + [e];
    assert more[..|more| - 1] == rows && more[|more| - 1] == e;
  }

  lemma WithoutOneMore(rows: seq<Event>, e: Event, ids: set<string>)
    ensures Without(rows + [e], ids) == Without(rows, ids) + if e.id in ids then [] else [e]
  {
    var more := rows + [e];
    assert more[..|more| - 1] == rows && more[|more| - 1] == e;
  }

  lemma {:induction false} HistoryWithout(rows: seq<Event>, ids: set<string>, node: Option<string>)
    ensures History(Without(rows, ids), node) == Without(History(rows, node), ids)
  {
    if rows != [] {
      var front, last := rows[..|rows| - 1], rows[|rows| - 1];
      HistoryWithout(front, ids, node);
      assert Without(rows, ids) == if last.id in ids then Without(front, ids) else Without(front, ids) + [last];
      assert History(rows, node) ==
        if InHistory(last, node) then History(front, node) + [last] else History(front, node);
      HistoryOneMore(Without(front, ids), last, node);
      WithoutOneMore(History(front, node), last, ids);
    }
  }

  lemma {:induction false} HistoryWithoutSeen(rows: seq<Event>, node: Option<string>)
    ensures History(WithoutSeen(rows), node) == History(rows, node)
  {
    if rows != [] {
      var front, last := rows[..|rows| - 1], rows[|rows| - 1];
      HistoryWithoutSeen(front, node);
      assert WithoutSeen(rows) == if last.kind == Seen then WithoutSeen(front) else WithoutSeen(front) + [last];
      HistoryOneMore(WithoutSeen(front), last, node);
    }
  }

  lemma {:induction false} HistoryDistinct(rows: seq<Event>, node: Option<string>)
    requires DistinctIds(rows)
    ensures DistinctIds(History(rows, node))
    ensures forall e :: e in History(rows, node) <==> e in rows && InHistory(e, node)
  {
    if rows != [] {
      var front, last := rows[..|rows| - 1], rows[|rows| - 1];
      HistoryDistinct(front, node);
      assert rows == front + [last];
      assert forall e :: e in front ==> e.id != last.id;
      var before := History(front, node);
      assert forall i :: 0 <= i < |before| ==> before[i] in before;
    }
  }

  lemma {:induction false} WithoutIsCollapse(history: seq<Event>, ids: set<string>, n: nat)
    requires n <= |history|
    requires forall i :: 0 <= i < |history| ==> (history[i].id in ids <==> Redundant(history, i))
    ensures Without(history[..n], ids) == KeptEvents(history, n)
  {
    if n > 0 {
      WithoutIsCollapse(history, ids, n - 1);
      assert history[..n][..n - 1] == history[..n - 1];
    }
  }

  lemma MarkedExactly(rows: seq<Event>, node: Option<string>, i: nat)
    requires DistinctIds(rows) && i < |History(rows, node)|
    ensures History(rows, node)[i].id in AllMarked(rows) <==> Redundant(History(rows, node), i)
  {
    var history := History(rows, node);
    HistoryDistinct(rows, node);
    var e := history[i];
    assert e in history && e in rows;
    if Redundant(history, i) {
      assert e.id in MarkedBelow(history, |history|);
      assert Marked(rows, e.id);
    }
    if e.id in AllMarked(rows) {
      var other :| e.id in MarkedBelow(History(rows, other), |History(rows, other)|);
      HistoryDistinct(rows, other);
      var theirs := History(rows, other);
      var j :| 0 <= j < |theirs| && Redundant(theirs, j) && theirs[j].id == e.id;
      assert theirs[j] in theirs && theirs[j] in rows;
      var x :| 0 <= x < |rows| && rows[x] == e;
      var y :| 0 <= y < |rows| && rows[y] == theirs[j];
      assert x == y;
      assert history[j] == e;
    }
  }

  /** Over a log with distinct ids the migration leaves, for every node, exactly the collapse of
      that node's history; CollapseKeepsMeaning says what that keeps. */
  lemma UpgradeCollapsesEveryNode(rows: seq<Event>, node: Option<string>)
    requires DistinctIds(rows)
    ensures History(Pruned(rows), node) == Collapse(History(rows, node))
  {
    var live := WithoutSeen(rows);
    LiveDistinct(rows);
    var history := History(live, node);
    HistoryWithoutSeen(rows, node);
    HistoryWithout(live, AllMarked(live), node);
    forall i | 0 <= i < |history|
      ensures history[i].id in AllMarked(live) <==> Redundant(history, i)
    {
      MarkedExactly(live, node, i);
    }
    WithoutIsCollapse(history, AllMarked(live), |history|);
    assert history[..|history|] == history;
  }

  lemma {:induction false} LiveDistinct(rows: seq<Event>)
    requires DistinctIds(rows)
    ensures DistinctIds(WithoutSeen(rows))
    ensures forall e :: e in WithoutSeen(rows) <==> e in rows && e.kind != Seen
  {
    if rows != [] {
      var front, last := rows[..|rows| - 1], rows[|rows| - 1];
      LiveDistinct(front);
      assert rows == front + [last];
      assert forall e :: e in front ==> e.id != last.id;
      var before := WithoutSeen(front);
      assert forall i :: 0 <= i < |before| ==> before[i] in before;
    }
  }
}

/** The resumable tail of a session's event log.
    Models the event_stream loop of backend/relay/api/session_routes.py. Time, heartbeats and
    disconnects are what each tick says they are. */
module EventTail {
  import opened Wrappers

  /** An event; one without an id does not move the client's Last-Event-ID. */
  datatype Event = Event(id: Option<string>, payload: string)

  datatype Status = Active | Completed | Failed | Cancelled {
    predicate Terminal() { this != Active }
  }

  datatype Frame = Sent(event: Event) | Heartbeat | Done(status: Status, timedOut: bool)

  /** Where to read on from: behind an event id, or at a position. */
  datatype Cursor = AfterId(id: Option<string>) | AtSequence(sequence: nat)

  datatype Page = Page(events: seq<Event>, next: nat, version: nat, status: Status)

  /** What one round of the loop meets. */
  datatype Tick = Tick(
    disconnected: bool, gone: bool, appended: seq<Event>, status: Status, heartbeatDue: bool, timeUp: bool)

  // ----- the page contract

  /** One past the first event that carries the id; 0 when there is none. */
  function Behind(log: seq<Event>, id: Option<string>): (start: nat)
    ensures start <= |log|
  {
    if id.GetOr("") == "" then 0 else PositionOf(log, id, 0)
  }

  function PositionOf(log: seq<Event>, id: Option<string>, from: nat): (start: nat)
    requires from <= |log|
    ensures start <= |log|
    decreases |log| - from
  {
    if from == |log| then 0 else if log[from].id == id then from + 1 else PositionOf(log, id, from + 1)
  }

  function StartOf(log: seq<Event>, cursor: Cursor): nat {
    match cursor
    case AfterId(id) => Behind(log, id)
    case AtSequence(sequence) => sequence
  }

  function PageSize(limit: nat): nat { if limit < 1 then 1 else limit }

  function ReadPage(log: seq<Event>, status: Status, cursor: Cursor, limit: nat): Page {
    var start := StartOf(log, cursor);
    var end := if start + PageSize(limit) <= |log| then start + PageSize(limit) else |log|;
    var events := if start <= end then log[start..end] else [];
    Page(events, start + |events|, |log|, status)
  }

  // ----- the loop

  function Frames(events: seq<Event>): seq<Frame> {
    seq(|events|, i requires 0 <= i < |events| => Sent(events[i]))
  }

  datatype Turn = Turn(frames: seq<Frame>, next: nat, ended: bool)

  /** One round of the loop: a page, and the control frames behind it. */
  function TakeTurn(log: seq<Event>, tick: Tick, cursor: Cursor, limit: nat, frames: seq<Frame>): Turn {
    var page := ReadPage(log, tick.status, cursor, limit);
    var sent := frames + Frames(page.events);
    if page.status.Terminal() && page.next >= page.version then
      Turn(sent + [Done(page.status, false)], page.next, true)
    else
      var beaten := if tick.heartbeatDue then sent + [Heartbeat] else sent;
      if tick.timeUp then Turn(beaten + [Done(page.status, true)], page.next, true)
      else Turn(beaten, page.next, false)
  }

  /** The frames of a connection: those sent so far, and those the ticks still to come add. */
  function Stream(log: seq<Event>, cursor: Cursor, limit: nat, ticks: seq<Tick>, frames: seq<Frame>): seq<Frame>
    decreases |ticks|
  {
    if ticks == [] || ticks[0].disconnected || ticks[0].gone then frames
    else
      var now := log + ticks[0].appended;
      var turn := TakeTurn(now, ticks[0], cursor, limit, frames);
      if turn.ended then turn.frames
      else Stream(now, AtSequence(turn.next), limit, ticks[1..], turn.frames)
  }

  class EventStream {
    const limit: nat
    var cursor: Cursor
    var frames: seq<Frame>

    constructor (lastEventId: Option<string>, after: Option<string>, limit: nat)
      ensures this.limit == limit && frames == []
      ensures cursor == AfterId(if lastEventId.GetOr("") != "" then lastEventId else after)
    {
      this.limit := limit;
      // The live cursor of a reconnect wins over the one in the URL.
      cursor := AfterId(if lastEventId.GetOr("") != "" then lastEventId else after);
      frames := [];
    }

    method Run(log: seq<Event>, ticks: seq<Tick>)
      modifies this
      ensures frames == Stream(log, old(cursor), limit, ticks, old(frames))
    {
      var current := log;
      var k := 0;
      while k < |ticks|
        invariant k <= |ticks|
        invariant Stream(log, old(cursor), limit, ticks, old(frames))
               == Stream(current, cursor, limit, ticks[k..], frames)
      {
        var tick := ticks[k];
        assert ticks[k..][0] == tick && ticks[k..][1..] == ticks[k + 1..];
        if tick.disconnected || tick.gone {
          return;
        }
        current := current + tick.appended;
        var page := ReadPage(current, tick.status, cursor, limit);
        cursor := AtSequence(page.next);
        frames := frames + Frames(page.events);
        if page.status.Terminal() && page.next >= page.version {
          frames := frames + [Done(page.status, false)];
          return;
        }
        if tick.heartbeatDue {
          frames := frames + [Heartbeat];
        }
        if tick.timeUp {
          frames := frames + [Done(page.status, true)];
          return;
        }
        k := k + 1;
      }
    }
  }

  // ----- what a connection sends

  function Events(frames: seq<Frame>): seq<Event> {
    if frames == [] then []
    else
      var last := frames[|frames| - 1];
      Events(frames[..|frames| - 1]) + if last.Sent? then [last.event] else []
  }

  function Appended(ticks: seq<Tick>): seq<Event> {
    if ticks == [] then [] else Appended(ticks[..|ticks| - 1]) + ticks[|ticks| - 1].appended
  }

  lemma {:induction false} EventsAppend(a: seq<Frame>, b: seq<Frame>)
    ensures Events(a + b) == Events(a) + Events(b)
  {
    if b == [] {
      assert a + b == a;
    } else {
      EventsAppend(a, b[..|b| - 1]);
      assert (a + b)[..|a + b| - 1] == a + b[..|b| - 1];
    }
  }

  lemma {:induction false} EventsOfFrames(events: seq<Event>)
    ensures Events(Frames(events)) == events
  {
    if events != [] {
      var n := |events| - 1;
      EventsOfFrames(events[..n]);
      assert Frames(events)[..n] == Frames(events[..n]);
    }
  }

  lemma {:induction false} AppendedFirst(ticks: seq<Tick>)
    requires ticks != []
    ensures Appended(ticks) == ticks[0].appended + Appended(ticks[1..])
  {
    var n := |ticks| - 1;
    if n > 0 {
      AppendedFirst(ticks[..n]);
      assert ticks[..n][1..] == ticks[1..][..n - 1];
    } else {
      assert ticks[..0] == [] && ticks[1..] == [];
    }
  }

  lemma ControlFrame(frames: seq<Frame>, f: Frame)
    requires !f.Sent?
    ensures Events(frames + [f]) == Events(frames)
  {
    assert (frames + [f])[..|frames|] == frames;
  }

  ghost predicate StillOpen(frames: seq<Frame>) {
    forall i :: 0 <= i < |frames| ==> !frames[i].Done?
  }

  lemma TurnSends(now: seq<Event>, tick: Tick, cursor: Cursor, limit: nat, frames: seq<Frame>)
    ensures Events(TakeTurn(now, tick, cursor, limit, frames).frames)
         == Events(frames) + ReadPage(now, tick.status, cursor, limit).events
  {
    var page := ReadPage(now, tick.status, cursor, limit);
    var sent := frames + Frames(page.events);
    EventsAppend(frames, Frames(page.events));
    EventsOfFrames(page.events);
    if page.status.Terminal() && page.next >= page.version {
      ControlFrame(sent, Done(page.status, false));
    } else {
      var beaten := if tick.heartbeatDue then sent + [Heartbeat] else sent;
      if tick.heartbeatDue {
        ControlFrame(sent, Heartbeat);
      }
      if tick.timeUp {
        ControlFrame(beaten, Done(page.status, true));
      }
    }
  }

  predicate Over(status: Status) { status == Completed || status == Failed || status == Cancelled }

  /** A turn ends the stream when the session is over and everything is sent, or when its time is up;
      its last frame carries the status just read. */
  lemma TurnEnds(now: seq<Event>, tick: Tick, cursor: Cursor, limit: nat, frames: seq<Frame>)
    requires StillOpen(frames)
    ensures
      var turn := TakeTurn(now, tick, cursor, limit, frames);
      && (turn.ended <==> tick.timeUp || (Over(tick.status) && turn.next >= |now|))
      && (!turn.ended ==> StillOpen(turn.frames))
      && (turn.ended ==>
            && turn.frames != [] && StillOpen(turn.frames[..|turn.frames| - 1])
            && turn.frames[|turn.frames| - 1] == Done(tick.status, !(Over(tick.status) && turn.next >= |now|)))
  {
  }

  /** A page is as long as the limit allows, one event at least, or goes to the end of the log. */
  lemma PageIsFull(log: seq<Event>, status: Status, cursor: Cursor, limit: nat)
    requires StartOf(log, cursor) <= |log|
    ensures
      var page, rest := ReadPage(log, status, cursor, limit), |log| - StartOf(log, cursor);
      && page.status == status && page.version == |log|
      && (limit >= 1 ==> |page.events| == if limit <= rest then limit else rest)
      && (limit == 0 ==> |page.events| == if 1 <= rest then 1 else rest)
  {
  }

  /** These events are the log's, from a position on: a contiguous piece, each event once. */
  ghost predicate Follows(out: seq<Event>, log: seq<Event>, start: nat) {
    start + |out| <= |log| && forall i :: 0 <= i < |out| ==> out[i] == log[start + i]
  }

  lemma FollowsLonger(out: seq<Event>, log: seq<Event>, more: seq<Event>, start: nat)
    requires Follows(out, log, start)
    ensures Follows(out, log + more, start)
  {
  }

  /** The events sent so far are the log's, up to where the next page begins. */
  ghost predicate InStep(now: seq<Event>, cursor: Cursor, start: nat, frames: seq<Frame>) {
    Follows(Events(frames), now, start) && start + |Events(frames)| == StartOf(now, cursor)
  }

  /** One turn carries the piece on. */
  lemma TurnContinues(now: seq<Event>, tick: Tick, cursor: Cursor, start: nat, limit: nat, frames: seq<Frame>)
    requires InStep(now, cursor, start, frames)
    ensures InStep(now, AtSequence(TakeTurn(now, tick, cursor, limit, frames).next), start,
                   TakeTurn(now, tick, cursor, limit, frames).frames)
  {
    var page := ReadPage(now, tick.status, cursor, limit);
    TurnSends(now, tick, cursor, limit, frames);
    PageFollows(now, tick.status, cursor, limit);
    FollowsJoin(Events(frames), page.events, now, start);
  }

  /** A page is the piece of the log behind its cursor. */
  lemma PageFollows(now: seq<Event>, status: Status, cursor: Cursor, limit: nat)
    requires StartOf(now, cursor) <= |now|
    ensures
      var page := ReadPage(now, status, cursor, limit);
      Follows(page.events, now, StartOf(now, cursor)) && page.next == StartOf(now, cursor) + |page.events|
  {
  }

  predicate Reads(ticks: seq<Tick>) {
    ticks != [] && !ticks[0].disconnected && !ticks[0].gone
  }

  lemma AppendedSplits(log: seq<Event>, ticks: seq<Tick>)
    requires ticks != []
    ensures log + Appended(ticks) == log + ticks[0].appended + Appended(ticks[1..])
  {
    AppendedFirst(ticks);
  }

  /** The frames after one turn, and all that the turns after it keep. */
  lemma StreamTurns(log: seq<Event>, cursor: Cursor, start: nat, limit: nat, ticks: seq<Tick>, frames: seq<Frame>)
    returns (turn: Turn)
    requires Reads(ticks) && InStep(log + ticks[0].appended, cursor, start, frames) && StillOpen(frames)
    ensures InStep(log + ticks[0].appended, AtSequence(turn.next), start, turn.frames)
    ensures turn.ended <==> ticks[0].timeUp || (Over(ticks[0].status) && turn.next == |log + ticks[0].appended|)
    ensures turn.ended ==>
      && turn.frames != [] && StillOpen(turn.frames[..|turn.frames| - 1])
      && turn.frames[|turn.frames| - 1] ==
         Done(ticks[0].status, !(Over(ticks[0].status) && turn.next == |log + ticks[0].appended|))
    ensures !turn.ended ==> StillOpen(turn.frames)
    ensures !turn.ended && Reads(ticks[1..]) ==>
      InStep(log + ticks[0].appended + ticks[1..][0].appended, AtSequence(turn.next), start, turn.frames)
    ensures Stream(log, cursor, limit, ticks, frames) ==
      if turn.ended || !Reads(ticks[1..]) then turn.frames
      else Stream(log + ticks[0].appended, AtSequence(turn.next), limit, ticks[1..], turn.frames)
  {
    var now := log + ticks[0].appended;
    turn := TakeTurn(now, ticks[0], cursor, limit, frames);
    TurnContinues(now, ticks[0], cursor, start, limit, frames);
    TurnEnds(now, ticks[0], cursor, limit, frames);
    if Reads(ticks[1..]) {
      FollowsLonger(Events(turn.frames), now, ticks[1..][0].appended, start);
    }
  }

  /** At this turn the status was terminal and every event of the log had been sent. */
  ghost predicate DrainedAt(log: seq<Event>, start: nat, ticks: seq<Tick>, out: seq<Frame>, k: nat)
    requires k < |ticks|
  {
    Over(ticks[k].status) && start + |Events(out)| == |log + Appended(ticks[..k + 1])|
  }

  /** A connection sends a contiguous piece of the log: from where its cursor points, each event
      once and in order. It says that the session is over only after sending everything there
      was. */
  lemma {:induction false} SendsOnePiece(
    log: seq<Event>, cursor: Cursor, start: nat, limit: nat, ticks: seq<Tick>, frames: seq<Frame>
  )
    requires Reads(ticks) && InStep(log + ticks[0].appended, cursor, start, frames) && StillOpen(frames)
    ensures Follows(Events(Stream(log, cursor, limit, ticks, frames)), log + Appended(ticks), start)
    ensures
      var out := Stream(log, cursor, limit, ticks, frames);
      out != [] && out[|out| - 1].Done? && !out[|out| - 1].timedOut ==>
        exists k :: 0 <= k < |ticks| && DrainedAt(log, start, ticks, out, k)
    decreases |ticks|
  {
    var now, rest := log + ticks[0].appended, ticks[1..];
    var out := Stream(log, cursor, limit, ticks, frames);
    var turn := StreamTurns(log, cursor, start, limit, ticks, frames);
    AppendedSplits(log, ticks);
    if !turn.ended && Reads(rest) {
      SendsOnePiece(now, AtSequence(turn.next), start, limit, rest, turn.frames);
      if k :| 0 <= k < |rest| && DrainedAt(now, start, rest, out, k) {
        DrainedOneTickLater(log, start, ticks, out, k);
      }
    } else {
      FollowsLonger(Events(turn.frames), now, Appended(rest), start);
      OneTick(ticks);
      assert turn.ended && !out[|out| - 1].timedOut ==> DrainedAt(log, start, ticks, out, 0);
    }
  }

  lemma OneTick(ticks: seq<Tick>)
    requires ticks != []
    ensures Appended(ticks[..1]) == ticks[0].appended
  {
    assert ticks[..1][..0] == [];
  }

  lemma DrainedOneTickLater(log: seq<Event>, start: nat, ticks: seq<Tick>, out: seq<Frame>, k: nat)
    requires k + 1 < |ticks| && DrainedAt(log + ticks[0].appended, start, ticks[1..], out, k)
    ensures DrainedAt(log, start, ticks, out, k + 1)
  {
    AppendedFirst(ticks[..k + 2]);
    assert ticks[..k + 2][1..] == ticks[1..][..k + 1];
  }

  // ----- how a connection ends

  /** The stream ends with this tick: every tick up to it is read, none before it is out of time, and
      the last frame carries its status. It says that time ran out exactly when the session was not
      over or not everything was sent. */
  ghost predicate EndsAt(log: seq<Event>, start: nat, ticks: seq<Tick>, out: seq<Frame>, k: nat) {
    && k < |ticks| && (forall j :: 0 <= j <= k ==> !ticks[j].disconnected && !ticks[j].gone)
    && (forall j :: 0 <= j < k ==> !ticks[j].timeUp)
    && out != [] && StillOpen(out[..|out| - 1])
    && out[|out| - 1] == Done(ticks[k].status, !DrainedAt(log, start, ticks, out, k))
    && (ticks[k].timeUp || DrainedAt(log, start, ticks, out, k))
  }

  /** The stream breaks off before this tick: the client or the session is gone, or no tick follows. */
  predicate BreaksOffAt(ticks: seq<Tick>, out: seq<Frame>, k: nat) {
    && 0 < k <= |ticks| && (k < |ticks| ==> ticks[k].disconnected || ticks[k].gone)
    && (forall j :: 0 <= j < k ==> !ticks[j].disconnected && !ticks[j].gone && !ticks[j].timeUp)
    && forall i :: 0 <= i < |out| ==> !out[i].Done?
  }

  lemma EndsOneTickLater(log: seq<Event>, start: nat, ticks: seq<Tick>, out: seq<Frame>, k: nat)
    requires Reads(ticks) && !ticks[0].timeUp
    requires EndsAt(log + ticks[0].appended, start, ticks[1..], out, k)
    ensures EndsAt(log, start, ticks, out, k + 1)
  {
    AppendedFirst(ticks[..k + 2]);
    assert ticks[..k + 2][1..] == ticks[1..][..k + 1];
    assert forall j :: 1 <= j <= k + 1 ==> ticks[j] == ticks[1..][j - 1];
  }

  lemma BreaksOffOneTickLater(ticks: seq<Tick>, out: seq<Frame>, k: nat)
    requires Reads(ticks) && !ticks[0].timeUp && BreaksOffAt(ticks[1..], out, k)
    ensures BreaksOffAt(ticks, out, k + 1)
  {
    assert forall j :: 1 <= j <= |ticks| - 1 ==> ticks[j] == ticks[1..][j - 1];
  }

  lemma OneTickLater(log: seq<Event>, start: nat, ticks: seq<Tick>, out: seq<Frame>, k: nat)
    requires Reads(ticks) && !ticks[0].timeUp
    requires EndsAt(log + ticks[0].appended, start, ticks[1..], out, k) || BreaksOffAt(ticks[1..], out, k)
    ensures EndsAt(log, start, ticks, out, k + 1) || BreaksOffAt(ticks, out, k + 1)
  {
    if EndsAt(log + ticks[0].appended, start, ticks[1..], out, k) {
      EndsOneTickLater(log, start, ticks, out, k);
    } else {
      BreaksOffOneTickLater(ticks, out, k);
    }
  }

  lemma EndsAtOnce(log: seq<Event>, start: nat, ticks: seq<Tick>, turn: Turn)
    requires Reads(ticks) && InStep(log + ticks[0].appended, AtSequence(turn.next), start, turn.frames)
    requires ticks[0].timeUp || (Over(ticks[0].status) && turn.next == |log + ticks[0].appended|)
    requires turn.frames != [] && StillOpen(turn.frames[..|turn.frames| - 1])
    requires turn.frames[|turn.frames| - 1] ==
      Done(ticks[0].status, !(Over(ticks[0].status) && turn.next == |log + ticks[0].appended|))
    ensures EndsAt(log, start, ticks, turn.frames, 0)
  {
    OneTick(ticks);
  }

  /** Every connection that reads at all ends in one of the two ways. */
  lemma {:induction false} EndsOrBreaksOff(
    log: seq<Event>, cursor: Cursor, start: nat, limit: nat, ticks: seq<Tick>, frames: seq<Frame>
  )
    returns (k: nat)
    requires Reads(ticks) && InStep(log + ticks[0].appended, cursor, start, frames) && StillOpen(frames)
    ensures
      var out := Stream(log, cursor, limit, ticks, frames);
      EndsAt(log, start, ticks, out, k) || BreaksOffAt(ticks, out, k)
    decreases |ticks|
  {
    var now, rest := log + ticks[0].appended, ticks[1..];
    var out := Stream(log, cursor, limit, ticks, frames);
    var turn := StreamTurns(log, cursor, start, limit, ticks, frames);
    if turn.ended {
      EndsAtOnce(log, start, ticks, turn);
      k := 0;
    } else if Reads(rest) {
      k := EndsOrBreaksOff(now, AtSequence(turn.next), start, limit, rest, turn.frames);
      OneTickLater(log, start, ticks, out, k);
      k := k + 1;
    } else {
      k := 1;
    }
  }

  // ----- the drain finishes

  predicate Quiet(tick: Tick) {
    !tick.disconnected && !tick.gone && tick.appended == [] && tick.status.Terminal() && !tick.timeUp
  }

  /** Once nothing more is appended to a finished session, enough pages to hold the backlog end the
      stream, with everything sent. */
  lemma {:induction false} DrainFinishes(
    log: seq<Event>, next: nat, start: nat, limit: nat, ticks: seq<Tick>, frames: seq<Frame>
  )
    requires InStep(log, AtSequence(next), start, frames) && StillOpen(frames)
    requires ticks != [] && (forall t :: t in ticks ==> Quiet(t)) && |log| - next <= |ticks| * PageSize(limit)
    ensures
      var out := Stream(log, AtSequence(next), limit, ticks, frames);
      && out != [] && out[|out| - 1].Done? && !out[|out| - 1].timedOut
      && Follows(Events(out), log, start) && start + |Events(out)| == |log|
    decreases |ticks|
  {
    assert ticks[0] in ticks && log + [] == log;
    TurnContinues(log, ticks[0], AtSequence(next), start, limit, frames);
    QuietTurn(log, next, limit, ticks[0], frames);
    var turn := TakeTurn(log, ticks[0], AtSequence(next), limit, frames);
    if turn.next < |log| {
      PagesLeft(|log| - next, |ticks|, PageSize(limit));
      assert forall t :: t in ticks[1..] ==> t in ticks;
      DrainFinishes(log, turn.next, start, limit, ticks[1..], turn.frames);
    }
  }

  /** A page less of backlog takes a page less. */
  lemma PagesLeft(backlog: int, pages: nat, size: nat)
    requires backlog <= pages * size && backlog > size && pages > 0
    ensures backlog - size <= (pages - 1) * size && pages > 1
  {
  }

  lemma QuietTurn(log: seq<Event>, next: nat, limit: nat, tick: Tick, frames: seq<Frame>)
    requires next <= |log| && Quiet(tick) && StillOpen(frames)
    ensures
      var turn := TakeTurn(log, tick, AtSequence(next), limit, frames);
      && turn.next == (if next + PageSize(limit) <= |log| then next + PageSize(limit) else |log|)
      && (turn.ended <==> turn.next == |log|)
      && (turn.ended ==> turn.frames != [] && turn.frames[|turn.frames| - 1].Done?
                         && !turn.frames[|turn.frames| - 1].timedOut)
      && (!turn.ended ==> StillOpen(turn.frames))
  {
  }

  // ----- reconnecting

  ghost predicate UniqueEventIds(log: seq<Event>) {
    forall i, j :: 0 <= i < j < |log| && log[i].id.GetOr("") != "" ==> log[i].id != log[j].id
  }

  /** The Last-Event-ID a client holds after some received events. */
  function LastId(received: seq<Event>, initial: Option<string>): Option<string> {
    if received == [] then initial
    else
      var last := received[|received| - 1];
      if last.id.GetOr("") != "" then last.id else LastId(received[..|received| - 1], initial)
  }

  /** An event with an id that no earlier event has. Ids are no key of the log. */
  ghost predicate NewId(log: seq<Event>, i: nat) {
    i < |log| && log[i].id.GetOr("") != "" && forall j :: 0 <= j < i ==> log[j].id != log[i].id
  }

  lemma {:induction false} PositionBounds(log: seq<Event>, id: Option<string>, from: nat, i: nat)
    requires from <= i < |log| && log[i].id == id
    ensures from < PositionOf(log, id, from) <= i + 1
    ensures PositionOf(log, id, from) == i + 1 <==> forall j :: from <= j < i ==> log[j].id != id
    decreases i - from
  {
    if from < i && log[from].id != id {
      PositionBounds(log, id, from + 1, i);
    }
  }

  /** A reconnect behind an event starts there exactly when no earlier event has its id, and never
      later. */
  lemma BehindEvent(log: seq<Event>, i: nat)
    requires i < |log| && log[i].id.GetOr("") != ""
    ensures Behind(log, log[i].id) <= i + 1
    ensures Behind(log, log[i].id) == i + 1 <==> NewId(log, i)
  {
    PositionBounds(log, log[i].id, 0, i);
  }

  /** A cut connection's reconnect never skips an event, and starts exactly where the cut one stopped
      if and only if the last event received carries an id that no earlier event has. */
  lemma {:induction false} ReconnectResumes(log: seq<Event>, initial: Option<string>, start: nat, received: nat)
    requires start + received <= |log| && start == Behind(log, initial)
    ensures
      var resumed := Behind(log, LastId(log[start..start + received], initial));
      && resumed <= start + received
      && (resumed == start + received <==> received == 0 || NewId(log, start + received - 1))
    decreases received
  {
    if received > 0 {
      var last := start + received - 1;
      assert log[start..start + received][..received - 1] == log[start..last];
      if log[last].id.GetOr("") != "" {
        BehindEvent(log, last);
      } else {
        ReconnectResumes(log, initial, start, received - 1);
      }
    }
  }

  /** Where ids are unique, it repeats exactly the events received since the last one with an id. */
  lemma {:induction false} ReconnectRepeats(log: seq<Event>, initial: Option<string>, start: nat, received: nat)
    requires UniqueEventIds(log) && start + received <= |log| && start == Behind(log, initial)
    ensures
      var resumed := Behind(log, LastId(log[start..start + received], initial));
      && start <= resumed <= start + received
      && (resumed == start + received <==> received == 0 || log[start + received - 1].id.GetOr("") != "")
      && forall k :: resumed <= k < start + received ==> log[k].id.GetOr("") == ""
    decreases received
  {
    if received > 0 {
      var last := start + received - 1;
      assert log[start..start + received][..received - 1] == log[start..last];
      if log[last].id.GetOr("") != "" {
        BehindEvent(log, last);
      } else {
        ReconnectRepeats(log, initial, start, received - 1);
      }
    }
  }

  lemma FollowsJoin(a: seq<Event>, b: seq<Event>, log: seq<Event>, start: nat)
    requires Follows(a, log, start) && Follows(b, log, start + |a|)
    ensures Follows(a + b, log, start)
  {
  }

  /** A cursor that names no event, or an event already in the log. */
  ghost predicate Known(log: seq<Event>, id: Option<string>) {
    id.GetOr("") == "" || exists i :: 0 <= i < |log| && log[i].id == id
  }

  lemma {:induction false} PositionStaysPut(log: seq<Event>, more: seq<Event>, id: Option<string>, from: nat, i: nat)
    requires from <= i < |log| && log[i].id == id
    ensures PositionOf(log + more, id, from) == PositionOf(log, id, from)
    decreases i - from
  {
    if log[from].id != id {
      PositionStaysPut(log, more, id, from + 1, i);
    }
  }

  lemma KnownStaysPut(log: seq<Event>, more: seq<Event>, id: Option<string>)
    requires Known(log, id)
    ensures Behind(log, id) == Behind(log + more, id)
  {
    if id.GetOr("") != "" {
      var i :| 0 <= i < |log| && log[i].id == id;
      PositionStaysPut(log, more, id, 0, i);
    }
  }

  /** A client that reconnects behind the last event it received reads on from there, if no earlier
      event has that event's id: what the two connections send it, put together, is one piece of the
      log from its first cursor on. */
  lemma JoinedConnectionsSendOnePiece(
    log: seq<Event>, initial: Option<string>, start: nat, received: seq<Event>, limit: nat, ticks: seq<Tick>
  )
    requires Reads(ticks)
    requires start == Behind(log + ticks[0].appended, initial) && Follows(received, log, start)
    requires received != [] ==> NewId(log, start + |received| - 1)
    ensures Follows(received + Events(Stream(log, AfterId(LastId(received, initial)), limit, ticks, [])),
                    log + Appended(ticks), start)
  {
    ResumesBehind(log, ticks[0].appended, initial, start, received);
    var sent := SentBehind(log, AfterId(LastId(received, initial)), start + |received|, limit, ticks);
    FollowsLonger(received, log, Appended(ticks), start);
    FollowsJoin(received, sent, log + Appended(ticks), start);
  }

  lemma SentBehind(log: seq<Event>, cursor: Cursor, start: nat, limit: nat, ticks: seq<Tick>) returns (sent: seq<Event>)
    requires Reads(ticks) && start == StartOf(log + ticks[0].appended, cursor) <= |log + ticks[0].appended|
    ensures sent == Events(Stream(log, cursor, limit, ticks, [])) && Follows(sent, log + Appended(ticks), start)
  {
    SendsOnePiece(log, cursor, start, limit, ticks, []);
    sent := Events(Stream(log, cursor, limit, ticks, []));
  }

  lemma ResumesBehind(log: seq<Event>, more: seq<Event>, initial: Option<string>, start: nat, received: seq<Event>)
    requires start == Behind(log + more, initial) && Follows(received, log, start)
    requires received != [] ==> NewId(log, start + |received| - 1)
    ensures Behind(log + more, LastId(received, initial)) == start + |received|
  {
    var now := log + more;
    assert now[start..start + |received|] == received;
    if received != [] {
      var last: nat := start + |received| - 1;
      assert now[last] == log[last] && forall j :: 0 <= j < last ==> now[j] == log[j];
      assert NewId(now, last);
    }
    ReconnectResumes(now, initial, start, |received|);
  }

  /** The same from the first connection on: a connection is cut after any number of its events,
      the log goes on growing, and the client comes back with its Last-Event-ID. */
  lemma CutAndReconnect(
    log: seq<Event>, initial: Option<string>, limit: nat, ticks: seq<Tick>, first: seq<Event>, ticksAfter: seq<Tick>
  )
    requires Reads(ticks) && Reads(ticksAfter) && Known(log + ticks[0].appended, initial)
    requires first <= Events(Stream(log, AfterId(initial), limit, ticks, []))
    requires first != [] ==>
      NewId(log + Appended(ticks), Behind(log + ticks[0].appended, initial) + |first| - 1)
    ensures
      var later := log + Appended(ticks);
      Follows(first + Events(Stream(later, AfterId(LastId(first, initial)), limit, ticksAfter, [])),
              later + Appended(ticksAfter), Behind(log + ticks[0].appended, initial))
  {
    FirstPiece(log, initial, limit, ticks, first);
    ReconnectBehind(log, initial, limit, ticks, first, ticksAfter);
  }

  lemma ReconnectBehind(
    log: seq<Event>, initial: Option<string>, limit: nat, ticks: seq<Tick>, first: seq<Event>, ticksAfter: seq<Tick>
  )
    requires ticks != [] && Reads(ticksAfter) && Known(log + ticks[0].appended, initial)
    requires Follows(first, log + Appended(ticks), Behind(log + ticks[0].appended, initial))
    requires first != [] ==>
      NewId(log + Appended(ticks), Behind(log + ticks[0].appended, initial) + |first| - 1)
    ensures
      var later := log + Appended(ticks);
      Follows(first + Events(Stream(later, AfterId(LastId(first, initial)), limit, ticksAfter, [])),
              later + Appended(ticksAfter), Behind(log + ticks[0].appended, initial))
  {
    CursorStays(log, ticks, ticksAfter[0].appended, initial);
    JoinedConnectionsSendOnePiece(
      log + Appended(ticks), initial, Behind(log + ticks[0].appended, initial), first, limit, ticksAfter);
  }

  lemma FirstPiece(log: seq<Event>, initial: Option<string>, limit: nat, ticks: seq<Tick>, first: seq<Event>)
    requires Reads(ticks) && first <= Events(Stream(log, AfterId(initial), limit, ticks, []))
    ensures Follows(first, log + Appended(ticks), Behind(log + ticks[0].appended, initial))
  {
    SendsOnePiece(log, AfterId(initial), Behind(log + ticks[0].appended, initial), limit, ticks, []);
  }

  lemma Regroup(a: seq<Event>, b: seq<Event>, c: seq<Event>)
    ensures a + b + c == a + (b + c)
  {
  }

  lemma CursorStays(log: seq<Event>, ticks: seq<Tick>, more: seq<Event>, initial: Option<string>)
    requires ticks != [] && Known(log + ticks[0].appended, initial)
    ensures Behind(log + ticks[0].appended, initial) == Behind(log + Appended(ticks) + more, initial)
  {
    var now, rest := log + ticks[0].appended, Appended(ticks[1..]);
    assert log + Appended(ticks) == now + rest by {
      AppendedSplits(log, ticks);
    }
    Regroup(now, rest, more);
    KnownStaysPut(now, rest + more, initial);
  }
}

/** The live rows of one session key: how player events change their state and count paused time. */
module SessionPause {
  import opened Options

  datatype PlayState = Playing | Paused | Stopped | Buffering | Error | OtherState

  /** A row of the sessions table.  `lastPaused` is NULL while nothing is paused. */
  datatype Row = Row(ratingKey: int, ratingKeyWebsocket: int, guid: string, live: bool, liveUuid: Option<string>,
                     transcodeKey: string, state: PlayState, lastPaused: Option<int>, pausedCounter: int,
                     started: int, stopped: int)

  /** What the server says of a running session. */
  datatype Live = Live(ratingKey: int, ratingKeyWebsocket: int, guid: string, live: bool, liveUuid: Option<string>,
                       transcodeKey: string, state: PlayState)

  /** A player event. */
  datatype Timeline = Timeline(state: PlayState, ratingKey: int, liveUuid: Option<string>, transcodeKey: string)

  /** What one event finds outside the table: the server's answers, and the clock each time it is
      read.  `mark` and `reading` are the two readings of one pause. */
  datatype World = World(checkedAt: int, guid: Option<string>, refreshed: Option<Live>, refreshedAt: int,
                         mark: int, reading: int, live: Option<Live>, updatedAt: int,
                         bufferLive: Option<Live>, bufferAt: int, changeLive: Option<Live>, changeAt: int)

  /** None and 0 are both false in Python. */
  predicate IsSet(t: Option<int>) {
    t.Some? && t.value != 0
  }

  // ----- the four statements that change the table -----

  datatype Op =
    | Mark(mark: int, reading: int)        // set_session_last_paused with a time
    | Clear(reading: int)                  // set_session_last_paused with None
    | Rewrite(live: Live, now: int)        // write_session
    | SetState(state: PlayState, now: int) // set_session_state

  /** The counter that the loop over the rows ends with. */
  function NewCounter(rows: seq<Row>, reading: int): Option<int> {
    if rows == [] then None
    else
      var r := rows[|rows| - 1];
      if IsSet(r.lastPaused) then Some(r.pausedCounter + (reading - r.lastPaused.value))
      else NewCounter(rows[..|rows| - 1], reading)
  }

  function Pausing(rows: seq<Row>, lastPaused: Option<int>, reading: int): seq<Row> {
    var counter := NewCounter(rows, reading);
    seq(|rows|, i requires 0 <= i < |rows| =>
      var r := rows[i].(lastPaused := lastPaused);
      if IsSet(counter) then r.(pausedCounter := counter.value) else r)
  }

  function Refreshed(r: Row, l: Live, now: int): Row {
    Row(l.ratingKey, l.ratingKeyWebsocket, l.guid, l.live, l.liveUuid, l.transcodeKey, l.state,
        r.lastPaused, r.pausedCounter, r.started, now)
  }

  /** Rows are looked up by session key and rating key; a new row is inserted if there is none. */
  function Rewriting(rows: seq<Row>, l: Live, now: int): seq<Row> {
    if exists i | 0 <= i < |rows| :: rows[i].ratingKey == l.ratingKey then
      seq(|rows|, i requires 0 <= i < |rows| =>
        if rows[i].ratingKey == l.ratingKey then Refreshed(rows[i], l, now) else rows[i])
    else
      rows + [Row(l.ratingKey, l.ratingKeyWebsocket, l.guid, l.live, l.liveUuid, l.transcodeKey, l.state,
                  None, 0, now, now)]
  }

  function Setting(rows: seq<Row>, state: PlayState, now: int): seq<Row> {
    seq(|rows|, i requires 0 <= i < |rows| => rows[i].(state := state, stopped := now))
  }

  function Do(rows: seq<Row>, op: Op): seq<Row> {
    match op
    case Mark(mark, reading) => Pausing(rows, Some(mark), reading)
    case Clear(reading) => Pausing(rows, None, reading)
    case Rewrite(l, now) => Rewriting(rows, l, now)
    case SetState(state, now) => Setting(rows, state, now)
  }

  function DoAll(rows: seq<Row>, ops: seq<Op>): seq<Row> {
    if ops == [] then rows else Do(DoAll(rows, ops[..|ops| - 1]), ops[|ops| - 1])
  }

  lemma {:induction false} DoAllConcat(rows: seq<Row>, a: seq<Op>, b: seq<Op>)
    ensures DoAll(rows, a + b) == DoAll(DoAll(rows, a), b)
    decreases |b|
  {
    if b == [] {
      assert a + b == a;
    } else {
      assert (a + b)[..|a + b| - 1] == a + b[..|b| - 1];
      DoAllConcat(rows, a, b[..|b| - 1]);
    }
  }

  // ----- what each handler does -----

  function UpdateOps(live: Option<Live>, state: PlayState, now: int): seq<Op> {
    (if live.Some? then [Rewrite(live.value, now)] else []) + [SetState(state, now)]
  }

  function StartOps(t: Timeline, w: World): seq<Op> {
    if w.live.Some? then UpdateOps(w.live, t.state, w.updatedAt) else []
  }

  /** The same item is being played. */
  predicate SameItem(db: Row, t: Timeline, w: World) {
    && (t.ratingKey == db.ratingKey || t.ratingKey == db.ratingKeyWebsocket || t.liveUuid == db.liveUuid)
    && (db.live && w.checkedAt - db.stopped > 60 && w.guid.Some? ==> w.guid.value == db.guid)
  }

  function RefreshOps(db: Row, t: Timeline, w: World): seq<Op> {
    if t.state == Playing && w.checkedAt - db.stopped > 60 then UpdateOps(w.refreshed, t.state, w.refreshedAt) else []
  }

  function ChangeOps(db: Row, t: Timeline, w: World): seq<Op> {
    if t.state != db.state then
      if t.state == Paused then [Mark(w.mark, w.reading)] + UpdateOps(w.live, t.state, w.updatedAt)
      else if IsSet(db.lastPaused) && t.state == Playing then [Clear(w.reading)] + UpdateOps(w.live, t.state, w.updatedAt)
      else if t.state == Stopped then [Clear(w.reading), SetState(t.state, w.updatedAt)]
      else if t.state == Error then UpdateOps(w.live, t.state, w.updatedAt)
      else []
    else if t.state == Paused then [Mark(w.mark, w.reading)] + UpdateOps(w.live, t.state, w.updatedAt)
    else []
  }

  function BufferOps(t: Timeline, w: World): seq<Op> {
    if t.state == Buffering then UpdateOps(w.bufferLive, t.state, w.bufferAt) else []
  }

  function TranscodeOps(db: Row, t: Timeline, w: World): seq<Op> {
    if t.transcodeKey != db.transcodeKey && t.state != Stopped then UpdateOps(w.changeLive, t.state, w.changeAt) else []
  }

  /** All that one event does to the table. */
  function EventOps(rows: seq<Row>, t: Timeline, w: World): seq<Op> {
    if rows == [] then
      if t.state != Buffering then StartOps(t, w) else []
    else
      var db := rows[0];
      if SameItem(db, t, w) then RefreshOps(db, t, w) + ChangeOps(db, t, w) + BufferOps(t, w) + TranscodeOps(db, t, w)
      else [Clear(w.reading)] + StartOps(t, w)
  }

  /** The table after one event. */
  function Handled(rows: seq<Row>, t: Timeline, w: World): seq<Row> {
    DoAll(rows, EventOps(rows, t, w))
  }

  // ----- the handler -----

  class ActivityHandler {
    var rows: seq<Row>

    constructor ()
      ensures rows == []
    {
      rows := [];
    }

    method SetSessionLastPaused(timestamp: Option<int>, reading: int)
      modifies this
      ensures rows == Pausing(old(rows), timestamp, reading)
    {
      var pausedCounter: Option<int> := None;
      for n := 0 to |rows|
        invariant rows == old(rows)
        invariant pausedCounter == NewCounter(rows[..n], reading)
      {
        assert rows[..n + 1][..n] == rows[..n];
        var session := rows[n];
        if IsSet(session.lastPaused) {
          var pausedOffset := reading - session.lastPaused.value;
          if session.pausedCounter != 0 {
            pausedCounter := Some(session.pausedCounter + pausedOffset);
          } else {
            pausedCounter := Some(pausedOffset);
          }
        }
      }
      assert rows[..|rows|] == rows;
      var before := rows;
      rows := seq(|before|, i requires 0 <= i < |before| =>
        var r := before[i].(lastPaused := timestamp);
        if IsSet(pausedCounter) then r.(pausedCounter := pausedCounter.value) else r);
    }

    method WriteSession(session: Live, now: int)
      modifies this
      ensures rows == Rewriting(old(rows), session, now)
    {
      rows := Rewriting(rows, session, now);
    }

    method SetSessionState(state: PlayState, now: int)
      modifies this
      ensures rows == Setting(old(rows), state, now)
    {
      rows := Setting(rows, state, now);
    }

    method UpdateDbSession(session: Option<Live>, state: PlayState, now: int)
      modifies this
      ensures rows == DoAll(old(rows), UpdateOps(session, state, now))
    {
      ghost var start := rows;
      if session.Some? {
        DoTwo(start, Rewrite(session.value, now), SetState(state, now));
        WriteSession(session.value, now);
      } else {
        DoOne(start, SetState(state, now));
      }
      SetSessionState(state, now);
    }

    method OnStart(t: Timeline, w: World)
      modifies this
      ensures rows == DoAll(old(rows), StartOps(t, w))
    {
      if w.live.Some? {
        UpdateDbSession(w.live, t.state, w.updatedAt);
      }
    }

    method OnStop(t: Timeline, w: World, forceStop: bool)
      modifies this
      ensures rows == DoAll(old(rows), if forceStop then [Clear(w.reading)]
                                       else [Clear(w.reading), SetState(t.state, w.updatedAt)])
    {
      DoOne(rows, Clear(w.reading));
      DoTwo(rows, Clear(w.reading), SetState(t.state, w.updatedAt));
      SetSessionLastPaused(None, w.reading);
      if !forceStop {
        SetSessionState(t.state, w.updatedAt);
      }
    }

    method OnPause(t: Timeline, w: World)
      modifies this
      ensures rows == DoAll(old(rows), [Mark(w.mark, w.reading)] + UpdateOps(w.live, t.state, w.updatedAt))
    {
      DoOne(rows, Mark(w.mark, w.reading));
      DoAllConcat(rows, [Mark(w.mark, w.reading)], UpdateOps(w.live, t.state, w.updatedAt));
      SetSessionLastPaused(Some(w.mark), w.reading);
      UpdateDbSession(w.live, t.state, w.updatedAt);
    }

    method OnResume(t: Timeline, w: World)
      modifies this
      ensures rows == DoAll(old(rows), [Clear(w.reading)] + UpdateOps(w.live, t.state, w.updatedAt))
    {
      DoOne(rows, Clear(w.reading));
      DoAllConcat(rows, [Clear(w.reading)], UpdateOps(w.live, t.state, w.updatedAt));
      SetSessionLastPaused(None, w.reading);
      UpdateDbSession(w.live, t.state, w.updatedAt);
    }

    /** The state checks against the row the event found. */
    method CheckState(db: Row, t: Timeline, w: World)
      modifies this
      ensures rows == DoAll(old(rows), ChangeOps(db, t, w))
    {
      if t.state != db.state {
        if t.state == Paused {
          OnPause(t, w);
        } else if IsSet(db.lastPaused) && t.state == Playing {
          OnResume(t, w);
        } else if t.state == Stopped {
          OnStop(t, w, false);
        } else if t.state == Error {
          UpdateDbSession(w.live, t.state, w.updatedAt);
        }
      } else if t.state == Paused {
        OnPause(t, w);
      }
    }

    method Process(t: Timeline, w: World)
      modifies this
      ensures rows == Handled(old(rows), t, w)
    {
      ghost var start := rows;
      if rows != [] {
        var db := rows[0];
        if SameItem(db, t, w) {
          var a, b, c, d := RefreshOps(db, t, w), ChangeOps(db, t, w), BufferOps(t, w), TranscodeOps(db, t, w);
          if t.state == Playing && w.checkedAt - db.stopped > 60 {
            UpdateDbSession(w.refreshed, t.state, w.refreshedAt);
          }
          CheckState(db, t, w);
          if t.state == Buffering {
            UpdateDbSession(w.bufferLive, t.state, w.bufferAt);
          }
          if t.transcodeKey != db.transcodeKey && t.state != Stopped {
            UpdateDbSession(w.changeLive, t.state, w.changeAt);
          }
          DoAllConcat(start, a, b);
          DoAllConcat(start, a + b, c);
          DoAllConcat(start, a + b + c, d);
        } else {
          DoAllConcat(start, [Clear(w.reading)], StartOps(t, w));
          OnStop(t, w, true);
          OnStart(t, w);
        }
      } else if t.state != Buffering {
        OnStart(t, w);
      }
    }
  }

  lemma {:induction false} DoOne(rows: seq<Row>, op: Op)
    ensures DoAll(rows, [op]) == Do(rows, op)
  {
    assert [op][..0] == [];
    assert DoAll(rows, []) == rows;
  }

  lemma {:induction false} DoTwo(rows: seq<Row>, a: Op, b: Op)
    ensures DoAll(rows, [a, b]) == Do(Do(rows, a), b)
    ensures [a] + [b] == [a, b]
  {
    assert [a, b][..1] == [a];
    DoOne(rows, a);
  }

  // ----- a playing session is not paused -----

  /** All rows have one state; a row's pause is the first row's or none; and a playing or stopped row has
      none. */
  predicate Uniform(rows: seq<Row>) {
    && (forall i | 0 <= i < |rows| :: rows[i].state == rows[0].state)
    && (forall i | 0 <= i < |rows| :: rows[i].lastPaused == rows[0].lastPaused || rows[i].lastPaused == None)
  }

  predicate NoPause(rows: seq<Row>) {
    forall i | 0 <= i < |rows| :: !IsSet(rows[i].lastPaused)
  }

  predicate Consistent(rows: seq<Row>) {
    Uniform(rows) && (rows != [] && rows[0].state in {Playing, Stopped} ==> NoPause(rows))
  }

  /** The updates of one handler, one row's state being set last. */
  lemma {:induction false} UpdateKeeps(rows: seq<Row>, live: Option<Live>, state: PlayState, now: int)
    requires Uniform(rows)
    ensures var rows' := DoAll(rows, UpdateOps(live, state, now));
            && Uniform(rows') && (rows' != [] ==> rows'[0].state == state)
            && (NoPause(rows) ==> NoPause(rows'))
            && |rows| <= |rows'| && (rows != [] ==> rows'[0].lastPaused == rows[0].lastPaused)
  {
    if live.Some? {
      DoTwo(rows, Rewrite(live.value, now), SetState(state, now));
    } else {
      DoOne(rows, SetState(state, now));
      assert [] + [SetState(state, now)] == [SetState(state, now)];
    }
  }

  lemma {:induction false} PausingKeeps(rows: seq<Row>, lastPaused: Option<int>, reading: int)
    requires Uniform(rows)
    ensures Uniform(Pausing(rows, lastPaused, reading))
    ensures !IsSet(lastPaused) ==> NoPause(Pausing(rows, lastPaused, reading))
  {
  }

  lemma {:induction false} CheckKeeps(rows: seq<Row>, db: Row, t: Timeline, w: World)
    requires Uniform(rows) && rows != [] && rows[0].lastPaused == db.lastPaused
    requires rows[0].state == db.state || (t.state == Playing && rows[0].state == Playing)
    requires db.state in {Playing, Stopped} ==> NoPause(rows)
    ensures var rows' := DoAll(rows, ChangeOps(db, t, w));
            Consistent(rows') && rows' != [] && (t.state == Playing ==> NoPause(rows'))
  {
    DoOne(rows, Mark(w.mark, w.reading));
    DoOne(rows, Clear(w.reading));
    var ops := UpdateOps(w.live, t.state, w.updatedAt);
    if t.state == Paused {
      DoAllConcat(rows, [Mark(w.mark, w.reading)], ops);
      PausingKeeps(rows, Some(w.mark), w.reading);
      UpdateKeeps(Pausing(rows, Some(w.mark), w.reading), w.live, t.state, w.updatedAt);
    } else if t.state != db.state {
      if IsSet(db.lastPaused) && t.state == Playing {
        DoAllConcat(rows, [Clear(w.reading)], ops);
        PausingKeeps(rows, None, w.reading);
        UpdateKeeps(Pausing(rows, None, w.reading), w.live, t.state, w.updatedAt);
      } else if t.state == Stopped {
        DoTwo(rows, Clear(w.reading), SetState(t.state, w.updatedAt));
        PausingKeeps(rows, None, w.reading);
      } else if t.state == Error {
        UpdateKeeps(rows, w.live, t.state, w.updatedAt);
      }
    }
  }

  lemma {:induction false} RefreshKeeps(rows: seq<Row>, t: Timeline, w: World)
    requires Consistent(rows) && rows != []
    ensures var db := rows[0];
            var rows' := DoAll(rows, RefreshOps(db, t, w));
            && Uniform(rows') && rows' != [] && rows'[0].lastPaused == db.lastPaused
            && (rows'[0].state == db.state || (t.state == Playing && rows'[0].state == Playing))
            && (db.state in {Playing, Stopped} ==> NoPause(rows'))
  {
    UpdateKeeps(rows, w.refreshed, t.state, w.refreshedAt);
  }

  /** An update that is made or not; it sets the event's own state. */
  lemma {:induction false} MaybeUpdateKeeps(rows: seq<Row>, made: bool, live: Option<Live>, state: PlayState, now: int)
    requires Consistent(rows) && rows != [] && (state == Playing ==> NoPause(rows)) && (made ==> state != Stopped)
    ensures var rows' := DoAll(rows, if made then UpdateOps(live, state, now) else []);
            Consistent(rows') && rows' != [] && (state == Playing ==> NoPause(rows'))
  {
    UpdateKeeps(rows, live, state, now);
  }

  lemma {:induction false} SameItemKeeps(rows: seq<Row>, t: Timeline, w: World)
    requires Consistent(rows) && rows != []
    ensures var db := rows[0];
            Consistent(DoAll(DoAll(DoAll(DoAll(rows, RefreshOps(db, t, w)), ChangeOps(db, t, w)), BufferOps(t, w)),
                             TranscodeOps(db, t, w)))
  {
    var db := rows[0];
    RefreshKeeps(rows, t, w);
    var rows1 := DoAll(rows, RefreshOps(db, t, w));
    CheckKeeps(rows1, db, t, w);
    var rows2 := DoAll(rows1, ChangeOps(db, t, w));
    MaybeUpdateKeeps(rows2, t.state == Buffering, w.bufferLive, t.state, w.bufferAt);
    var rows3 := DoAll(rows2, BufferOps(t, w));
    MaybeUpdateKeeps(rows3, t.transcodeKey != db.transcodeKey && t.state != Stopped, w.changeLive, t.state, w.changeAt);
  }

  lemma {:induction false} OtherItemKeeps(rows: seq<Row>, t: Timeline, w: World)
    requires Consistent(rows)
    ensures Consistent(DoAll(DoAll(rows, [Clear(w.reading)]), StartOps(t, w)))
  {
    DoOne(rows, Clear(w.reading));
    PausingKeeps(rows, None, w.reading);
    UpdateKeeps(Pausing(rows, None, w.reading), w.live, t.state, w.updatedAt);
  }

  /** Whatever event comes next, a row whose state is playing or stopped has no pause running. */
  lemma {:induction false} EventKeepsConsistent(rows: seq<Row>, t: Timeline, w: World)
    requires Consistent(rows)
    ensures Consistent(Handled(rows, t, w))
  {
    if rows == [] {
      UpdateKeeps(rows, w.live, t.state, w.updatedAt);
    } else if SameItem(rows[0], t, w) {
      var db := rows[0];
      var a, b, c, d := RefreshOps(db, t, w), ChangeOps(db, t, w), BufferOps(t, w), TranscodeOps(db, t, w);
      DoAllConcat(rows, a, b);
      DoAllConcat(rows, a + b, c);
      DoAllConcat(rows, a + b + c, d);
      SameItemKeeps(rows, t, w);
    } else {
      DoAllConcat(rows, [Clear(w.reading)], StartOps(t, w));
      OtherItemKeeps(rows, t, w);
    }
  }

  function After(events: seq<(Timeline, World)>): seq<Row> {
    if events == [] then []
    else
      var rows := After(events[..|events| - 1]);
      var (t, w) := events[|events| - 1];
      Handled(rows, t, w)
  }

  /** After any events, with any answers of the server and any clock. */
  lemma {:induction false} PlayingIsNotPaused(events: seq<(Timeline, World)>)
    ensures Consistent(After(events))
    ensures forall r | r in After(events) && (r.state == Playing || r.state == Stopped) :: !IsSet(r.lastPaused)
  {
    if events != [] {
      PlayingIsNotPaused(events[..|events| - 1]);
      var (t, w) := events[|events| - 1];
      EventKeepsConsistent(After(events[..|events| - 1]), t, w);
    }
  }
}

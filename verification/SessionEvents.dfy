/** What each player event does to the rows of its session, told from the event and the row it finds. */
module SessionEvents {
  import opened Options
  import opened SessionPause

  // ----- what an event is about -----

  /** The event is about the item of the row. */
  predicate AboutRow(db: Row, t: Timeline, w: World) {
    && (t.ratingKey == db.ratingKey || t.ratingKey == db.ratingKeyWebsocket || t.liveUuid == db.liveUuid)
    && (!db.live || w.checkedAt - db.stopped <= 60 || w.guid == None || w.guid.value == db.guid)
  }

  predicate Pauses(t: Timeline) {
    t.state == Paused
  }

  /** The event ends the pause if there is one. */
  predicate EndsPause(db: Row, t: Timeline) {
    || (t.state == Stopped && db.state != Stopped)
    || (t.state == Playing && db.state != Playing && IsSet(db.lastPaused))
  }

  /** The states that are written whenever they arrive, or only when they are new. */
  predicate Changes(db: Row, t: Timeline) {
    || t.state == Paused || EndsPause(db, t)
    || (t.state == Error && db.state != Error)
  }

  predicate Refreshes(db: Row, t: Timeline, w: World) {
    t.state == Playing && w.checkedAt - db.stopped > 60
  }

  predicate Transcodes(db: Row, t: Timeline) {
    t.transcodeKey != db.transcodeKey && t.state != Stopped
  }

  /** When an event writes the state last; None if it does not. */
  function WritesAt(db: Row, t: Timeline, w: World): Option<int> {
    if Transcodes(db, t) then Some(w.changeAt)
    else if t.state == Buffering then Some(w.bufferAt)
    else if Changes(db, t) then Some(w.updatedAt)
    else if Refreshes(db, t, w) then Some(w.refreshedAt)
    else None
  }

  /** The last row with a pause running, or -1. */
  function LastSet(rows: seq<Row>): (k: int)
    ensures -1 <= k < |rows|
    ensures k >= 0 ==> IsSet(rows[k].lastPaused)
    ensures forall i | k < i < |rows| :: !IsSet(rows[i].lastPaused)
  {
    if rows == [] then -1
    else if IsSet(rows[|rows| - 1].lastPaused) then |rows| - 1
    else LastSet(rows[..|rows| - 1])
  }

  /** The counter of row `i` once a pause is counted: that of the row that was paused, with the seconds of
      its pause. */
  function Counted(rows: seq<Row>, i: nat, reading: int): int
    requires i < |rows|
  {
    var k := LastSet(rows);
    if k < 0 then rows[i].pausedCounter
    else
      var counter := rows[k].pausedCounter + (reading - rows[k].lastPaused.value);
      // a counter of 0 is false, and not written
      if counter != 0 then counter else rows[i].pausedCounter
  }

  // ----- the pieces -----

  lemma {:induction false} LastSetTells(rows: seq<Row>, reading: int)
    ensures var k := LastSet(rows);
            NewCounter(rows, reading)
            == if k < 0 then None else Some(rows[k].pausedCounter + (reading - rows[k].lastPaused.value))
  {
    if rows != [] { LastSetTells(rows[..|rows| - 1], reading); }
  }

  /** Rows with other pauses, and all else as it was. */
  ghost predicate Counts(rows: seq<Row>, rows': seq<Row>, lastPaused: Option<int>, reading: int) {
    && |rows'| == |rows|
    && forall i | 0 <= i < |rows| ::
         rows'[i] == rows[i].(lastPaused := lastPaused, pausedCounter := Counted(rows, i, reading))
  }

  lemma {:induction false} PausingCounts(rows: seq<Row>, lastPaused: Option<int>, reading: int)
    ensures Counts(rows, Pausing(rows, lastPaused, reading), lastPaused, reading)
  {
    LastSetTells(rows, reading);
  }

  /** The row before and after an update: state and time are new, the pause is as it was. */
  predicate RowUpdated(r: Row, r': Row, state: PlayState, now: int) {
    && r'.lastPaused == r.lastPaused && r'.pausedCounter == r.pausedCounter && r'.started == r.started
    && r'.state == state && r'.stopped == now
  }

  /** Rows after an update; there may be one more. */
  ghost predicate Updated(rows: seq<Row>, rows': seq<Row>, state: PlayState, now: int) {
    && |rows| <= |rows'|
    && (forall i | 0 <= i < |rows| :: RowUpdated(rows[i], rows'[i], state, now))
    && (forall i | |rows| <= i < |rows'| :: rows'[i].lastPaused == None && rows'[i].state == state)
  }

  lemma {:induction false} UpdateIs(rows: seq<Row>, live: Option<Live>, state: PlayState, now: int)
    ensures DoAll(rows, UpdateOps(live, state, now))
         == Setting(if live.Some? then Rewriting(rows, live.value, now) else rows, state, now)
  {
    if live.Some? {
      DoTwo(rows, Rewrite(live.value, now), SetState(state, now));
    } else {
      DoOne(rows, SetState(state, now));
      assert [] + [SetState(state, now)] == [SetState(state, now)];
    }
  }

  lemma {:induction false} UpdateUpdates(rows: seq<Row>, live: Option<Live>, state: PlayState, now: int)
    ensures Updated(rows, DoAll(rows, UpdateOps(live, state, now)), state, now)
  {
    UpdateIs(rows, live, state, now);
  }

  ghost predicate MaybeUpdated(rows: seq<Row>, rows': seq<Row>, made: bool, state: PlayState, now: int) {
    if made then Updated(rows, rows', state, now) else rows' == rows
  }

  // ----- an event about the item that is playing -----

  lemma {:induction false} RefreshIs(rows: seq<Row>, t: Timeline, w: World)
    requires rows != []
    ensures MaybeUpdated(rows, DoAll(rows, RefreshOps(rows[0], t, w)), Refreshes(rows[0], t, w), t.state, w.refreshedAt)
  {
    UpdateUpdates(rows, w.refreshed, t.state, w.refreshedAt);
  }

  lemma {:induction false} BufferIs(rows: seq<Row>, t: Timeline, w: World)
    ensures MaybeUpdated(rows, DoAll(rows, BufferOps(t, w)), t.state == Buffering, t.state, w.bufferAt)
  {
    UpdateUpdates(rows, w.bufferLive, t.state, w.bufferAt);
  }

  lemma {:induction false} TranscodeIs(rows: seq<Row>, db: Row, t: Timeline, w: World)
    ensures MaybeUpdated(rows, DoAll(rows, TranscodeOps(db, t, w)), Transcodes(db, t), t.state, w.changeAt)
  {
    UpdateUpdates(rows, w.changeLive, t.state, w.changeAt);
  }

  /** What the state checks do to a row. */
  ghost predicate RowChanged(rows: seq<Row>, i: nat, r': Row, db: Row, t: Timeline, w: World)
    requires i < |rows|
  {
    var r := rows[i];
    && r'.lastPaused == (if Pauses(t) then Some(w.mark) else if EndsPause(db, t) then None else r.lastPaused)
    && r'.pausedCounter == (if Pauses(t) || EndsPause(db, t) then Counted(rows, i, w.reading) else r.pausedCounter)
    && r'.started == r.started
    && (if Changes(db, t) then r'.state == t.state && r'.stopped == w.updatedAt
        else r'.state == r.state && r'.stopped == r.stopped)
  }

  ghost predicate Changed(rows: seq<Row>, rows': seq<Row>, db: Row, t: Timeline, w: World) {
    && |rows| <= |rows'|
    && (forall i | 0 <= i < |rows| :: RowChanged(rows, i, rows'[i], db, t, w))
    && (forall i | |rows| <= i < |rows'| :: rows'[i].lastPaused == None && rows'[i].state == t.state)
  }

  lemma {:induction false} CountThenUpdate(rows: seq<Row>, lastPaused: Option<int>, live: Option<Live>, db: Row,
                                           t: Timeline, w: World)
    requires lastPaused == if Pauses(t) then Some(w.mark) else None
    requires (Pauses(t) || EndsPause(db, t)) && t.state != Stopped
    ensures Changed(rows, DoAll(Pausing(rows, lastPaused, w.reading), UpdateOps(live, t.state, w.updatedAt)), db, t, w)
  {
    PausingCounts(rows, lastPaused, w.reading);
    UpdateUpdates(Pausing(rows, lastPaused, w.reading), live, t.state, w.updatedAt);
  }

  lemma {:induction false} StopChanges(rows: seq<Row>, db: Row, t: Timeline, w: World)
    requires t.state == Stopped && db.state != Stopped
    ensures Changed(rows, DoAll(rows, [Clear(w.reading), SetState(t.state, w.updatedAt)]), db, t, w)
  {
    DoTwo(rows, Clear(w.reading), SetState(t.state, w.updatedAt));
    PausingCounts(rows, None, w.reading);
  }

  lemma {:induction false} PauseChanges(rows: seq<Row>, db: Row, t: Timeline, w: World)
    requires t.state == Paused
    ensures Changed(rows, DoAll(rows, [Mark(w.mark, w.reading)] + UpdateOps(w.live, t.state, w.updatedAt)), db, t, w)
  {
    DoOne(rows, Mark(w.mark, w.reading));
    DoAllConcat(rows, [Mark(w.mark, w.reading)], UpdateOps(w.live, t.state, w.updatedAt));
    CountThenUpdate(rows, Some(w.mark), w.live, db, t, w);
  }

  lemma {:induction false} ResumeChanges(rows: seq<Row>, db: Row, t: Timeline, w: World)
    requires t.state == Playing && EndsPause(db, t)
    ensures Changed(rows, DoAll(rows, [Clear(w.reading)] + UpdateOps(w.live, t.state, w.updatedAt)), db, t, w)
  {
    DoOne(rows, Clear(w.reading));
    DoAllConcat(rows, [Clear(w.reading)], UpdateOps(w.live, t.state, w.updatedAt));
    CountThenUpdate(rows, None, w.live, db, t, w);
  }

  lemma {:induction false} ErrorChanges(rows: seq<Row>, db: Row, t: Timeline, w: World)
    requires t.state == Error && db.state != Error
    ensures Changed(rows, DoAll(rows, UpdateOps(w.live, t.state, w.updatedAt)), db, t, w)
  {
    UpdateUpdates(rows, w.live, t.state, w.updatedAt);
  }

  lemma {:induction false} NothingChanges(rows: seq<Row>, db: Row, t: Timeline, w: World)
    requires !Changes(db, t)
    ensures Changed(rows, rows, db, t, w)
  {
  }

  lemma {:induction false} ChangeIs(rows: seq<Row>, db: Row, t: Timeline, w: World)
    ensures Changed(rows, DoAll(rows, ChangeOps(db, t, w)), db, t, w)
  {
    if t.state == Paused {
      PauseChanges(rows, db, t, w);
    } else if t.state != db.state {
      if IsSet(db.lastPaused) && t.state == Playing {
        ResumeChanges(rows, db, t, w);
      } else if t.state == Stopped {
        StopChanges(rows, db, t, w);
      } else if t.state == Error {
        ErrorChanges(rows, db, t, w);
      } else {
        NothingChanges(rows, db, t, w);
      }
    } else {
      NothingChanges(rows, db, t, w);
    }
  }

  lemma {:induction false} HandledIs(rows: seq<Row>, t: Timeline, w: World)
    requires rows != [] && AboutRow(rows[0], t, w)
    ensures var db := rows[0];
            Handled(rows, t, w)
            == DoAll(DoAll(DoAll(DoAll(rows, RefreshOps(db, t, w)), ChangeOps(db, t, w)), BufferOps(t, w)),
                     TranscodeOps(db, t, w))
  {
    var db := rows[0];
    var a, b, c, d := RefreshOps(db, t, w), ChangeOps(db, t, w), BufferOps(t, w), TranscodeOps(db, t, w);
    DoAllConcat(rows, a, b);
    DoAllConcat(rows, a + b, c);
    DoAllConcat(rows, a + b + c, d);
  }

  /** What an event about the row's item makes of a row: a pause begins or goes on at a pause, ends at a
      stop and when a paused session plays again, and is left alone otherwise; where it begins, goes on or
      ends its seconds are counted. */
  ghost predicate RowAfter(rows: seq<Row>, i: nat, r': Row, t: Timeline, w: World)
    requires i < |rows|
  {
    var db, r := rows[0], rows[i];
    && r'.lastPaused == (if Pauses(t) then Some(w.mark) else if EndsPause(db, t) then None else r.lastPaused)
    && r'.pausedCounter == (if Pauses(t) || EndsPause(db, t) then Counted(rows, i, w.reading) else r.pausedCounter)
    && r'.started == r.started
    && (match WritesAt(db, t, w)
        case Some(at) => r'.state == t.state && r'.stopped == at
        case None => r'.state == r.state && r'.stopped == r.stopped)
  }

  /** Rows that came in with nothing paused do not matter to the count. */
  lemma {:induction false} LastSetPrefix(rows: seq<Row>, more: seq<Row>)
    requires |rows| <= |more| && (forall i | 0 <= i < |rows| :: more[i].lastPaused == rows[i].lastPaused)
    requires forall i | |rows| <= i < |more| :: more[i].lastPaused == None
    ensures LastSet(more) == LastSet(rows)
  {
  }

  lemma {:induction false} CountedSame(rows: seq<Row>, more: seq<Row>, i: nat, reading: int)
    requires i < |rows| <= |more| && forall k | 0 <= k < |rows| ::
               more[k].lastPaused == rows[k].lastPaused && more[k].pausedCounter == rows[k].pausedCounter
    requires forall k | |rows| <= k < |more| :: more[k].lastPaused == None
    ensures Counted(more, i, reading) == Counted(rows, i, reading)
  {
    LastSetPrefix(rows, more);
  }

  lemma {:induction false} ChangedLater(rows: seq<Row>, rows1: seq<Row>, r': Row, i: nat, db: Row, t: Timeline,
                                        w: World)
    requires i < |rows| && MaybeUpdated(rows, rows1, Refreshes(db, t, w), t.state, w.refreshedAt)
    requires RowChanged(rows1, i, r', db, t, w)
    ensures var r := rows[i];
            && r'.lastPaused == (if Pauses(t) then Some(w.mark) else if EndsPause(db, t) then None else r.lastPaused)
            && r'.pausedCounter == (if Pauses(t) || EndsPause(db, t) then Counted(rows, i, w.reading) else r.pausedCounter)
            && r'.started == r.started
            && (if Changes(db, t) then r'.state == t.state && r'.stopped == w.updatedAt
                else if Refreshes(db, t, w) then r'.state == t.state && r'.stopped == w.refreshedAt
                else r'.state == r.state && r'.stopped == r.stopped)
  {
    CountedSame(rows, rows1, i, w.reading);
    if Refreshes(db, t, w) { assert RowUpdated(rows[i], rows1[i], t.state, w.refreshedAt); }
  }

  /** After an event about the item of the first row every row is as told. */
  lemma {:induction false} SameItemEvent(rows: seq<Row>, t: Timeline, w: World)
    requires rows != [] && AboutRow(rows[0], t, w)
    ensures |rows| <= |Handled(rows, t, w)|
    ensures forall i | 0 <= i < |rows| :: RowAfter(rows, i, Handled(rows, t, w)[i], t, w)
  {
    var db := rows[0];
    HandledIs(rows, t, w);
    var rows1 := DoAll(rows, RefreshOps(db, t, w));
    var rows2 := DoAll(rows1, ChangeOps(db, t, w));
    var rows3 := DoAll(rows2, BufferOps(t, w));
    RefreshIs(rows, t, w);
    ChangeIs(rows1, db, t, w);
    BufferIs(rows2, t, w);
    TranscodeIs(rows3, db, t, w);
    forall i | 0 <= i < |rows| ensures RowAfter(rows, i, Handled(rows, t, w)[i], t, w) {
      assert RowChanged(rows1, i, rows2[i], db, t, w);
      ChangedLater(rows, rows1, rows2[i], i, db, t, w);
    }
  }

  // ----- an event about another item, or none -----

  /** A row for a session that has just begun. */
  predicate Fresh(r: Row, l: Live, state: PlayState, now: int) {
    && r.ratingKey == l.ratingKey && r.ratingKeyWebsocket == l.ratingKeyWebsocket && r.guid == l.guid
    && r.live == l.live && r.liveUuid == l.liveUuid && r.transcodeKey == l.transcodeKey
    && r.state == state && r.lastPaused == None && r.pausedCounter == 0 && r.started == now && r.stopped == now
  }

  /** An event that finds no row makes one, in its state and with nothing paused, unless the session is
      buffering or the server does not know it. */
  lemma {:induction false} NoRowEvent(t: Timeline, w: World)
    ensures var rows := Handled([], t, w);
            if t.state != Buffering && w.live.Some?
            then |rows| == 1 && Fresh(rows[0], w.live.value, t.state, w.updatedAt)
            else rows == []
  {
    if t.state != Buffering && w.live.Some? { UpdateIs([], w.live, t.state, w.updatedAt); }
  }

  /** An event about another item ends the pauses and counts them; the item gets a row of its own if the
      server knows the session and there is none for the item yet. */
  lemma {:induction false} OtherItemEvent(rows: seq<Row>, t: Timeline, w: World)
    requires rows != [] && !AboutRow(rows[0], t, w)
    ensures var rows' := Handled(rows, t, w);
            && |rows| <= |rows'|
            && (forall i | 0 <= i < |rows| ::
                  && rows'[i].lastPaused == None && rows'[i].pausedCounter == Counted(rows, i, w.reading)
                  && rows'[i].started == rows[i].started
                  && (if w.live.Some? then rows'[i].state == t.state && rows'[i].stopped == w.updatedAt
                      else rows'[i].state == rows[i].state && rows'[i].stopped == rows[i].stopped))
            && (if w.live.Some? && forall i | 0 <= i < |rows| :: rows[i].ratingKey != w.live.value.ratingKey
                then |rows'| == |rows| + 1 && Fresh(rows'[|rows|], w.live.value, t.state, w.updatedAt)
                else |rows'| == |rows|)
  {
    OtherItemIs(rows, t, w);
    var paused := Pausing(rows, None, w.reading);
    PausingCounts(rows, None, w.reading);
    if w.live.Some? {
      UpdateUpdates(paused, w.live, t.state, w.updatedAt);
      UpdateIs(paused, w.live, t.state, w.updatedAt);
      OneRowMore(paused, w.live.value, t.state, w.updatedAt);
    }
  }

  lemma {:induction false} OtherItemIs(rows: seq<Row>, t: Timeline, w: World)
    requires rows != [] && !AboutRow(rows[0], t, w)
    ensures Handled(rows, t, w)
         == var paused := Pausing(rows, None, w.reading);
            if w.live.Some? then DoAll(paused, UpdateOps(w.live, t.state, w.updatedAt)) else paused
  {
    DoAllConcat(rows, [Clear(w.reading)], StartOps(t, w));
    DoOne(rows, Clear(w.reading));
  }

  lemma {:induction false} OneRowMore(rows: seq<Row>, l: Live, state: PlayState, now: int)
    ensures var rows' := Setting(Rewriting(rows, l, now), state, now);
            if forall i | 0 <= i < |rows| :: rows[i].ratingKey != l.ratingKey
            then |rows'| == |rows| + 1 && Fresh(rows'[|rows|], l, state, now)
            else |rows'| == |rows|
  {
  }

  // ----- the rows the server speaks of -----

  /** A row carries what the server says of the session. */
  predicate Carries(r: Row, l: Live) {
    && r.ratingKey == l.ratingKey && r.ratingKeyWebsocket == l.ratingKeyWebsocket && r.guid == l.guid
    && r.live == l.live && r.liveUuid == l.liveUuid && r.transcodeKey == l.transcodeKey
  }

  /** The rows of the item carry what the server says, the rows of other items keep theirs, and there is a
      row of the item. */
  ghost predicate Told(rows: seq<Row>, rows': seq<Row>, l: Live) {
    && |rows| <= |rows'| && (exists i | 0 <= i < |rows'| :: Carries(rows'[i], l))
    && forall i | 0 <= i < |rows| ::
         if rows[i].ratingKey == l.ratingKey then Carries(rows'[i], l)
         else rows'[i].ratingKey == rows[i].ratingKey && rows'[i].transcodeKey == rows[i].transcodeKey
              && rows'[i].guid == rows[i].guid
  }

  lemma {:induction false} RewritingTells(rows: seq<Row>, l: Live, now: int)
    ensures Told(rows, Rewriting(rows, l, now), l)
  {
    var rows' := Rewriting(rows, l, now);
    if i :| 0 <= i < |rows| && rows[i].ratingKey == l.ratingKey {
      assert Carries(rows'[i], l);
    } else {
      assert Carries(rows'[|rows|], l);
    }
  }

  lemma {:induction false} SettingTells(rows: seq<Row>, rows': seq<Row>, l: Live, state: PlayState, now: int)
    requires Told(rows, rows', l)
    ensures Told(rows, Setting(rows', state, now), l)
  {
    var i :| 0 <= i < |rows'| && Carries(rows'[i], l);
    assert Carries(Setting(rows', state, now)[i], l);
  }

  lemma {:induction false} PausingTells(rows: seq<Row>, lastPaused: Option<int>, reading: int, rows': seq<Row>, l: Live)
    requires Told(Pausing(rows, lastPaused, reading), rows', l)
    ensures Told(rows, rows', l)
  {
    var paused := Pausing(rows, lastPaused, reading);
    forall i | 0 <= i < |rows|
      ensures paused[i].ratingKey == rows[i].ratingKey && paused[i].transcodeKey == rows[i].transcodeKey
           && paused[i].guid == rows[i].guid
    {
    }
  }

  /** A pause writes what the server says of the session into the rows of its item. */
  lemma {:induction false} PauseTells(rows: seq<Row>, t: Timeline, w: World)
    requires rows != [] && AboutRow(rows[0], t, w) && t.state == Paused && !Transcodes(rows[0], t) && w.live.Some?
    ensures Told(rows, Handled(rows, t, w), w.live.value)
  {
    HandledIs(rows, t, w);
    DoOne(rows, Mark(w.mark, w.reading));
    DoAllConcat(rows, [Mark(w.mark, w.reading)], UpdateOps(w.live, t.state, w.updatedAt));
    var paused := Pausing(rows, Some(w.mark), w.reading);
    UpdateIs(paused, w.live, t.state, w.updatedAt);
    RewritingTells(paused, w.live.value, w.updatedAt);
    SettingTells(paused, Rewriting(paused, w.live.value, w.updatedAt), w.live.value, t.state, w.updatedAt);
    PausingTells(rows, Some(w.mark), w.reading, Handled(rows, t, w), w.live.value);
  }
}

/** The play time of a session against the states and times of its player events. */
module PlayTime {
  import opened Options
  import opened SessionPause
  import opened SessionEvents

  type Event = (Timeline, World)

  // ----- the clock and the pauses of a run -----

  /** The clock does not go back while an event is handled. */
  predicate InOrder(w: World) {
    w.checkedAt <= w.refreshedAt <= w.mark <= w.reading <= w.updatedAt <= w.bufferAt <= w.changeAt
  }

  function EndOf(events: seq<Event>, start: int): int {
    if events == [] then start else events[|events| - 1].1.changeAt
  }

  /** Nor from one event to the next. */
  predicate ClockRuns(events: seq<Event>, start: int) {
    events == [] ||
    var front, w := events[..|events| - 1], events[|events| - 1].1;
    ClockRuns(front, start) && EndOf(front, start) <= w.checkedAt && InOrder(w)
  }

  predicate Known(live: Option<Live>, ratingKey: int, guid: string) {
    live.Some? ==> live.value.ratingKey == ratingKey && live.value.guid == guid
  }

  /** An event about the item, to which the server answers with the item. */
  predicate AboutItem(e: Event, ratingKey: int, guid: string) {
    var (t, w) := e;
    && t.ratingKey == ratingKey && (w.guid.Some? ==> w.guid.value == guid)
    && Known(w.live, ratingKey, guid) && Known(w.refreshed, ratingKey, guid)
    && Known(w.bufferLive, ratingKey, guid) && Known(w.changeLive, ratingKey, guid)
  }

  predicate AllAbout(events: seq<Event>, ratingKey: int, guid: string) {
    forall i | 0 <= i < |events| :: AboutItem(events[i], ratingKey, guid)
  }

  /** Whether the player is paused after these events: it is from a pause on until it plays or stops. */
  predicate IsPaused(events: seq<Event>) {
    events != [] &&
    match events[|events| - 1].0.state
    case Paused => true
    case Playing => false
    case Stopped => false
    case _ => IsPaused(events[..|events| - 1])
  }

  /** Whether the second from `u` falls into a pause. */
  predicate PausedAt(events: seq<Event>, u: int) {
    events != [] &&
    var (t, w) := events[|events| - 1];
    var before := PausedAt(events[..|events| - 1], u);
    match t.state
    case Paused => w.mark <= u || before
    case Playing => w.reading > u && before
    case Stopped => w.reading > u && before
    case _ => before
  }

  /** The number of paused seconds in `[from, till)`. */
  function PausedTime(events: seq<Event>, from: int, till: int): nat
    decreases till - from
  {
    if till <= from then 0 else PausedTime(events, from, till - 1) + (if PausedAt(events, till - 1) then 1 else 0)
  }

  /** A pause that is told again while it goes on reads the clock twice; the seconds in between are counted
      twice. */
  function ReadTwice(events: seq<Event>): int {
    if events == [] then 0
    else
      var front, (t, w) := events[..|events| - 1], events[|events| - 1];
      ReadTwice(front) + (if t.state == Paused && IsPaused(front) then w.reading - w.mark else 0)
  }

  // ----- counting seconds -----

  lemma {:induction false} TimeSame(a: seq<Event>, b: seq<Event>, from: int, till: int)
    requires forall u | from <= u < till :: PausedAt(a, u) == PausedAt(b, u)
    ensures PausedTime(a, from, till) == PausedTime(b, from, till)
    decreases till - from
  {
    if from < till { TimeSame(a, b, from, till - 1); }
  }

  lemma {:induction false} TimeSplit(events: seq<Event>, from: int, mid: int, till: int)
    requires from <= mid <= till
    ensures PausedTime(events, from, till) == PausedTime(events, from, mid) + PausedTime(events, mid, till)
    decreases till - mid
  {
    if mid < till { TimeSplit(events, from, mid, till - 1); }
  }

  lemma {:induction false} TimeAll(events: seq<Event>, from: int, till: int, paused: bool)
    requires from <= till && forall u | from <= u < till :: PausedAt(events, u) == paused
    ensures PausedTime(events, from, till) == (if paused then till - from else 0)
    decreases till - from
  {
    if from < till { TimeAll(events, from, till - 1, paused); }
  }

  lemma {:induction false} TimeBound(events: seq<Event>, from: int, till: int)
    requires from <= till
    ensures PausedTime(events, from, till) <= till - from
    decreases till - from
  {
    if from < till { TimeBound(events, from, till - 1); }
  }

  lemma {:induction false} AfterTheEnd(events: seq<Event>, start: int, u: int)
    requires ClockRuns(events, start) && EndOf(events, start) <= u
    ensures start <= EndOf(events, start) && PausedAt(events, u) == IsPaused(events)
    decreases |events|
  {
    if events != [] { AfterTheEnd(events[..|events| - 1], start, u); }
  }

  /** From when on an event counts. */
  function Counts(e: Event): int {
    if e.0.state == Paused then e.1.mark else e.1.reading
  }

  /** One more event leaves the seconds before it alone. */
  lemma {:induction false} TimeStep(front: seq<Event>, e: Event, start: int, now: int)
    requires ClockRuns(front, start) && EndOf(front, start) <= e.1.checkedAt && InOrder(e.1) && e.1.changeAt <= now
    ensures var at := Counts(e);
            && start <= at <= now && EndOf(front, start) <= at
            && PausedTime(front + [e], start, now)
               == PausedTime(front, start, at) + (if IsPaused(front + [e]) then now - at else 0)
            && PausedTime(front, start, now) == PausedTime(front, start, at) + (if IsPaused(front) then now - at else 0)
  {
    var more, at := front + [e], Counts(e);
    assert more[..|more| - 1] == front;
    AfterTheEnd(front, start, EndOf(front, start));
    forall u | at <= u ensures PausedAt(front, u) == IsPaused(front) && PausedAt(more, u) == IsPaused(more) {
      AfterTheEnd(front, start, u);
    }
    forall u | u < at ensures PausedAt(more, u) == PausedAt(front, u) {
    }
    TimeSplit(more, start, at, now);
    TimeSplit(front, start, at, now);
    TimeSame(more, front, start, at);
    TimeAll(more, at, now, IsPaused(more));
    TimeAll(front, at, now, IsPaused(front));
  }

  // ----- the row -----

  function Account(r: Row, now: int): int {
    r.pausedCounter + (if IsSet(r.lastPaused) then now - r.lastPaused.value else 0)
  }

  /** What the one row of the session says after these events. */
  ghost predicate Tells(rows: seq<Row>, events: seq<Event>, start: int, ratingKey: int, guid: string) {
    && |rows| == 1 && rows[0].ratingKey == ratingKey && rows[0].guid == guid && rows[0].started == start
    && IsSet(rows[0].lastPaused) == IsPaused(events)
    && rows[0].pausedCounter >= 0 && (IsPaused(events) ==> rows[0].lastPaused.value <= EndOf(events, start))
    && (rows[0].state == Playing || rows[0].state == Stopped ==> !IsPaused(events))
    && (forall now | EndOf(events, start) <= now ::
          Account(rows[0], now) == PausedTime(events, start, now) + ReadTwice(events))
  }

  lemma {:induction false} OneRowCounted(r: Row, reading: int)
    ensures Counted([r], 0, reading)
         == if IsSet(r.lastPaused) && r.pausedCounter + (reading - r.lastPaused.value) != 0
            then r.pausedCounter + (reading - r.lastPaused.value) else r.pausedCounter
  {
  }

  /** What one event does to the one row, in one line each. */
  lemma {:induction false} OneRowAfter(rows: seq<Row>, e: Event, ratingKey: int, guid: string)
    requires |rows| == 1 && rows[0].ratingKey == ratingKey && rows[0].guid == guid && AboutItem(e, ratingKey, guid)
    ensures |Handled(rows, e.0, e.1)| == 1 && RowAfter(rows, 0, Handled(rows, e.0, e.1)[0], e.0, e.1)
    ensures Handled(rows, e.0, e.1)[0].ratingKey == ratingKey && Handled(rows, e.0, e.1)[0].guid == guid
  {
    SameItemEvent(rows, e.0, e.1);
    StaysOneRow(rows, e, ratingKey, guid);
  }

  predicate OneRow(rows: seq<Row>, ratingKey: int, guid: string) {
    |rows| == 1 && rows[0].ratingKey == ratingKey && rows[0].guid == guid
  }

  lemma {:induction false} UpdateStays(rows: seq<Row>, live: Option<Live>, state: PlayState, now: int, ratingKey: int,
                                       guid: string)
    requires OneRow(rows, ratingKey, guid) && Known(live, ratingKey, guid)
    ensures OneRow(DoAll(rows, UpdateOps(live, state, now)), ratingKey, guid)
  {
    UpdateIs(rows, live, state, now);
  }

  lemma {:induction false} ChangeStays(rows: seq<Row>, db: Row, t: Timeline, w: World, ratingKey: int, guid: string)
    requires OneRow(rows, ratingKey, guid) && Known(w.live, ratingKey, guid)
    ensures OneRow(DoAll(rows, ChangeOps(db, t, w)), ratingKey, guid)
  {
    var ops := UpdateOps(w.live, t.state, w.updatedAt);
    DoOne(rows, Mark(w.mark, w.reading));
    DoOne(rows, Clear(w.reading));
    DoTwo(rows, Clear(w.reading), SetState(t.state, w.updatedAt));
    DoAllConcat(rows, [Mark(w.mark, w.reading)], ops);
    DoAllConcat(rows, [Clear(w.reading)], ops);
    UpdateStays(rows, w.live, t.state, w.updatedAt, ratingKey, guid);
    UpdateStays(Pausing(rows, Some(w.mark), w.reading), w.live, t.state, w.updatedAt, ratingKey, guid);
    UpdateStays(Pausing(rows, None, w.reading), w.live, t.state, w.updatedAt, ratingKey, guid);
  }

  lemma {:induction false} StaysOneRow(rows: seq<Row>, e: Event, ratingKey: int, guid: string)
    requires OneRow(rows, ratingKey, guid) && AboutItem(e, ratingKey, guid)
    ensures OneRow(Handled(rows, e.0, e.1), ratingKey, guid)
  {
    var (t, w) := e;
    var db := rows[0];
    HandledIs(rows, t, w);
    UpdateStays(rows, w.refreshed, t.state, w.refreshedAt, ratingKey, guid);
    var rows1 := DoAll(rows, RefreshOps(db, t, w));
    ChangeStays(rows1, db, t, w, ratingKey, guid);
    var rows2 := DoAll(rows1, ChangeOps(db, t, w));
    UpdateStays(rows2, w.bufferLive, t.state, w.bufferAt, ratingKey, guid);
    var rows3 := DoAll(rows2, BufferOps(t, w));
    UpdateStays(rows3, w.changeLive, t.state, w.changeAt, ratingKey, guid);
  }

  /** The row after an event tells the truth again. */
  lemma {:induction false} EventTells(rows: seq<Row>, front: seq<Event>, e: Event, start: int, ratingKey: int,
                                      guid: string)
    requires Tells(rows, front, start, ratingKey, guid) && AboutItem(e, ratingKey, guid) && 0 < start
    requires ClockRuns(front, start) && EndOf(front, start) <= e.1.checkedAt && InOrder(e.1)
    ensures Tells(Handled(rows, e.0, e.1), front + [e], start, ratingKey, guid)
  {
    var (t, w) := e;
    OneRowAfter(rows, e, ratingKey, guid);
    var r, r', more := rows[0], Handled(rows, t, w)[0], front + [e];
    assert more[..|more| - 1] == front && rows == [r];
    OneRowCounted(r, w.reading);
    AfterTheEnd(front, start, EndOf(front, start));
    forall now | w.changeAt <= now ensures Account(r', now) == PausedTime(more, start, now) + ReadTwice(more) {
      TimeStep(front, e, start, now);
      AccountStep(r, r', front, e, start, now);
    }
  }

  lemma {:induction false} AccountStep(r: Row, r': Row, front: seq<Event>, e: Event, start: int, now: int)
    requires Tells([r], front, start, r.ratingKey, r.guid) && RowAfter([r], 0, r', e.0, e.1) && 0 < start
    requires ClockRuns(front, start) && EndOf(front, start) <= e.1.checkedAt && InOrder(e.1) && e.1.changeAt <= now
    ensures Account(r', now) == PausedTime(front + [e], start, now) + ReadTwice(front + [e])
  {
    var at := Counts(e);
    assert (front + [e])[..|front|] == front;
    TimeStep(front, e, start, now);
    OneRowCounted(r, e.1.reading);
    assert Account(r, now) == PausedTime(front, start, now) + ReadTwice(front);
    assert Account(r, at) == PausedTime(front, start, at) + ReadTwice(front);
  }

  // ----- whole runs -----

  /** Events that leave no row: buffering, or of sessions the server does not know. */
  predicate Begins(e: Event) {
    e.0.state != Buffering && e.1.live.Some?
  }

  lemma {:induction false} NoRowYet(events: seq<Event>)
    requires forall i | 0 <= i < |events| :: !Begins(events[i])
    ensures After(events) == []
  {
    if events != [] {
      var e := events[|events| - 1];
      NoRowYet(events[..|events| - 1]);
      NoRowEvent(e.0, e.1);
    }
  }

  /** A run in which the session's row is made by the event `first`, about one item from then on. */
  ghost predicate OneItemRun(before: seq<Event>, first: Event, events: seq<Event>, ratingKey: int, guid: string) {
    && (forall i | 0 <= i < |before| :: !Begins(before[i]))
    && Begins(first) && Known(first.1.live, ratingKey, guid) && 0 < first.1.updatedAt
    && AllAbout(events, ratingKey, guid) && ClockRuns(events, first.1.updatedAt)
  }

  lemma {:induction false} BeginTells(before: seq<Event>, first: Event, ratingKey: int, guid: string)
    requires (forall i | 0 <= i < |before| :: !Begins(before[i])) && Begins(first)
    requires Known(first.1.live, ratingKey, guid)
    ensures Tells(After(before + [first]), [], first.1.updatedAt, ratingKey, guid)
  {
    assert (before + [first])[..|before|] == before;
    NoRowYet(before);
    NoRowEvent(first.0, first.1);
    forall now | first.1.updatedAt <= now ensures PausedTime([], first.1.updatedAt, now) == 0 {
      TimeAll([], first.1.updatedAt, now, false);
    }
  }

  lemma {:induction false} AfterNext(events: seq<Event>, e: Event)
    ensures After(events + [e]) == Handled(After(events), e.0, e.1)
  {
    assert (events + [e])[..|events|] == events;
  }

  lemma {:induction false} Regroup(a: seq<Event>, b: seq<Event>, e: Event)
    ensures a + (b + [e]) == a + b + [e]
  {
  }

  lemma {:induction false} ClockNext(events: seq<Event>, e: Event, start: int)
    requires ClockRuns(events + [e], start)
    ensures ClockRuns(events, start) && EndOf(events, start) <= e.1.checkedAt && InOrder(e.1)
  {
    assert (events + [e])[..|events|] == events;
  }

  lemma {:induction false} AboutNext(events: seq<Event>, e: Event, ratingKey: int, guid: string)
    requires AllAbout(events + [e], ratingKey, guid)
    ensures AllAbout(events, ratingKey, guid) && AboutItem(e, ratingKey, guid)
  {
    var more := events + [e];
    assert more[|events|] == e;
    forall i | 0 <= i < |events| ensures AboutItem(events[i], ratingKey, guid) {
      assert more[i] == events[i];
    }
  }

  lemma {:induction false} RunFront(before: seq<Event>, first: Event, events: seq<Event>, e: Event, ratingKey: int,
                                    guid: string)
    requires OneItemRun(before, first, events + [e], ratingKey, guid)
    ensures OneItemRun(before, first, events, ratingKey, guid) && AboutItem(e, ratingKey, guid)
    ensures EndOf(events, first.1.updatedAt) <= e.1.checkedAt && InOrder(e.1)
    ensures After(before + [first] + (events + [e])) == Handled(After(before + [first] + events), e.0, e.1)
  {
    ClockNext(events, e, first.1.updatedAt);
    AboutNext(events, e, ratingKey, guid);
    AfterNext(before + [first] + events, e);
    Regroup(before + [first], events, e);
  }

  lemma {:induction false} RunTells(before: seq<Event>, first: Event, events: seq<Event>, ratingKey: int, guid: string)
    requires OneItemRun(before, first, events, ratingKey, guid)
    ensures Tells(After(before + [first] + events), events, first.1.updatedAt, ratingKey, guid)
    decreases |events|
  {
    var all := before + [first] + events;
    if events == [] {
      assert all == before + [first];
      BeginTells(before, first, ratingKey, guid);
    } else {
      var front, e := events[..|events| - 1], events[|events| - 1];
      assert front + [e] == events;
      RunFront(before, first, front, e, ratingKey, guid);
      RunTells(before, first, front, ratingKey, guid);
      EventTells(After(before + [first] + front), front, e, first.1.updatedAt, ratingKey, guid);
    }
  }

  /** At the stop that ends a run the play time is the time from the first event to the stop without the
      paused seconds, short of those read twice; no pause is left, and the row is stopped. */
  lemma {:induction false} PlayTimeOfRun(before: seq<Event>, first: Event, events: seq<Event>, stop: Event,
                                         ratingKey: int, guid: string)
    requires OneItemRun(before, first, events + [stop], ratingKey, guid) && stop.0.state == Stopped
    requires var rows := After(before + [first] + events); rows != [] && rows[0].state != Stopped
    ensures var start, w := first.1.updatedAt, stop.1;
            var rows := After(before + [first] + events + [stop]);
            && |rows| == 1 && rows[0].state == Stopped && !IsSet(rows[0].lastPaused)
            && rows[0].started == start && rows[0].stopped == w.updatedAt
            && rows[0].stopped - rows[0].started - rows[0].pausedCounter
               == (w.updatedAt - start - PausedTime(events, start, w.reading)) - ReadTwice(events)
            && 0 <= w.updatedAt - start - PausedTime(events, start, w.reading)
  {
    var start, w, all := first.1.updatedAt, stop.1, before + [first] + events;
    RunFront(before, first, events, stop, ratingKey, guid);
    RunTells(before, first, events, ratingKey, guid);
    Regroup(before + [first], events, stop);
    OneRowAfter(After(all), stop, ratingKey, guid);
    var r := After(all)[0];
    assert After(all) == [r];
    OneRowCounted(r, w.reading);
    AfterTheEnd(events, start, EndOf(events, start));
    assert Account(r, w.reading) == PausedTime(events, start, w.reading) + ReadTwice(events);
    TimeBound(events, start, w.reading);
  }
}

/** The paused time a session row accounts for, against the seconds during which it was paused. */
module PauseAccounting {
  import opened Options
  import opened SessionPause

  // ----- clock and pauses -----

  function FirstTime(op: Op): int {
    match op
    case Mark(mark, _) => mark
    case Clear(reading) => reading
    case Rewrite(_, now) => now
    case SetState(_, now) => now
  }

  function LastTime(op: Op): int {
    match op
    case Mark(_, reading) => reading
    case Clear(reading) => reading
    case Rewrite(_, now) => now
    case SetState(_, now) => now
  }

  function EndTime(ops: seq<Op>, start: int): int {
    if ops == [] then start else LastTime(ops[|ops| - 1])
  }

  /** The clock never goes back. */
  predicate Clocked(ops: seq<Op>, start: int) {
    ops == [] ||
    (Clocked(ops[..|ops| - 1], start)
     && EndTime(ops[..|ops| - 1], start) <= FirstTime(ops[|ops| - 1]) <= LastTime(ops[|ops| - 1]))
  }

  /** Whether the second from `u` falls into a pause: the last pause or resume up to `u` is a pause. */
  predicate PausedAt(ops: seq<Op>, u: int) {
    ops != [] &&
    match ops[|ops| - 1]
    case Mark(mark, _) => mark <= u || PausedAt(ops[..|ops| - 1], u)
    case Clear(reading) => reading > u && PausedAt(ops[..|ops| - 1], u)
    case _ => PausedAt(ops[..|ops| - 1], u)
  }

  /** The number of paused seconds in `[from, till)`. */
  function PausedSeconds(ops: seq<Op>, from: int, till: int): nat
    decreases till - from
  {
    if till <= from then 0 else PausedSeconds(ops, from, till - 1) + (if PausedAt(ops, till - 1) then 1 else 0)
  }

  /** Whether the pause is still running. */
  predicate PauseRuns(ops: seq<Op>) {
    ops != [] &&
    match ops[|ops| - 1]
    case Mark(_, _) => true
    case Clear(_) => false
    case _ => PauseRuns(ops[..|ops| - 1])
  }

  /** A repeated pause reads the clock twice; the seconds in between are counted twice. */
  function Drift(ops: seq<Op>): int {
    if ops == [] then 0
    else
      var front := ops[..|ops| - 1];
      Drift(front) +
      match ops[|ops| - 1]
      case Mark(mark, reading) => if PauseRuns(front) then reading - mark else 0
      case _ => 0
  }

  predicate OneItem(ops: seq<Op>, ratingKey: int) {
    forall i | 0 <= i < |ops| && ops[i].Rewrite? :: ops[i].live.ratingKey == ratingKey
  }

  // ----- counting seconds -----

  lemma {:induction false} SecondsSame(a: seq<Op>, b: seq<Op>, from: int, till: int)
    requires forall u | from <= u < till :: PausedAt(a, u) == PausedAt(b, u)
    ensures PausedSeconds(a, from, till) == PausedSeconds(b, from, till)
    decreases till - from
  {
    if from < till { SecondsSame(a, b, from, till - 1); }
  }

  lemma {:induction false} SecondsSplit(ops: seq<Op>, from: int, mid: int, till: int)
    requires from <= mid <= till
    ensures PausedSeconds(ops, from, till) == PausedSeconds(ops, from, mid) + PausedSeconds(ops, mid, till)
    decreases till - mid
  {
    if mid < till { SecondsSplit(ops, from, mid, till - 1); }
  }

  lemma {:induction false} SecondsAll(ops: seq<Op>, from: int, till: int, paused: bool)
    requires from <= till && forall u | from <= u < till :: PausedAt(ops, u) == paused
    ensures PausedSeconds(ops, from, till) == (if paused then till - from else 0)
    decreases till - from
  {
    if from < till { SecondsAll(ops, from, till - 1, paused); }
  }

  lemma {:induction false} SecondsBound(ops: seq<Op>, from: int, till: int)
    requires from <= till
    ensures PausedSeconds(ops, from, till) <= till - from
    decreases till - from
  {
    if from < till { SecondsBound(ops, from, till - 1); }
  }

  lemma {:induction false} AfterTheEnd(ops: seq<Op>, start: int, u: int)
    requires Clocked(ops, start) && EndTime(ops, start) <= u
    ensures PausedAt(ops, u) == PauseRuns(ops)
    decreases |ops|
  {
    if ops != [] {
      var front := ops[..|ops| - 1];
      AfterTheEnd(front, start, u);
    }
  }

  lemma {:induction false} StartsFirst(ops: seq<Op>, start: int)
    requires Clocked(ops, start)
    ensures start <= EndTime(ops, start)
    decreases |ops|
  {
    if ops != [] { StartsFirst(ops[..|ops| - 1], start); }
  }

  /** One more step counts from its own time on and leaves the seconds before it alone. */
  lemma {:induction false} SecondsStep(ops: seq<Op>, op: Op, start: int, now: int)
    requires Clocked(ops + [op], start) && LastTime(op) <= now
    ensures Clocked(ops, start) && start <= FirstTime(op)
    ensures var t := FirstTime(op);
            var runs := if op.Mark? then true else if op.Clear? then false else PauseRuns(ops);
            && PauseRuns(ops + [op]) == runs
            && PausedSeconds(ops + [op], start, now) == PausedSeconds(ops, start, t) + (if runs then now - t else 0)
            && PausedSeconds(ops, start, now) == PausedSeconds(ops, start, t) + (if PauseRuns(ops) then now - t else 0)
  {
    var more, t := ops + [op], FirstTime(op);
    assert more[..|more| - 1] == ops;
    StartsFirst(ops, start);
    forall u | u >= t ensures PausedAt(ops, u) == PauseRuns(ops) && PausedAt(more, u) == PauseRuns(more) {
      AfterTheEnd(ops, start, u);
    }
    SecondsSplit(more, start, t, now);
    SecondsSplit(ops, start, t, now);
    SecondsSame(more, ops, start, t);
    SecondsAll(more, t, now, PauseRuns(more));
    SecondsAll(ops, t, now, PauseRuns(ops));
  }

  // ----- the row's account -----

  function Account(r: Row, now: int): int {
    r.pausedCounter + (if IsSet(r.lastPaused) then now - r.lastPaused.value else 0)
  }

  ghost predicate Balanced(rows: seq<Row>, row0: Row, ops: seq<Op>, start: int) {
    && |rows| == 1 && rows[0].ratingKey == row0.ratingKey && rows[0].started == row0.started
    && IsSet(rows[0].lastPaused) == PauseRuns(ops)
    && rows[0].pausedCounter >= 0 && (PauseRuns(ops) ==> rows[0].lastPaused.value <= EndTime(ops, start))
    && (forall now | EndTime(ops, start) <= now :: Account(rows[0], now) == PausedSeconds(ops, start, now) + Drift(ops))
  }

  lemma {:induction false} StepBalanced(rows: seq<Row>, row0: Row, ops: seq<Op>, op: Op, start: int)
    requires Balanced(rows, row0, ops, start) && Clocked(ops + [op], start) && 0 < start
    requires op.Rewrite? ==> op.live.ratingKey == row0.ratingKey
    ensures Balanced(Do(rows, op), row0, ops + [op], start)
  {
    var rows' := Do(rows, op);
    var t, e := FirstTime(op), LastTime(op);
    assert (ops + [op])[..|ops + [op]| - 1] == ops;
    assert rows[..0] == [];
    assert NewCounter(rows, e) == if IsSet(rows[0].lastPaused) then Some(Account(rows[0], e)) else NewCounter([], e);
    SecondsStep(ops, op, start, e);
    forall now | EndTime(ops + [op], start) <= now
      ensures Account(rows'[0], now) == PausedSeconds(ops + [op], start, now) + Drift(ops + [op])
    {
      SecondsStep(ops, op, start, now);
      assert Account(rows[0], e) == PausedSeconds(ops, start, e) + Drift(ops);
      assert Account(rows[0], now) == PausedSeconds(ops, start, now) + Drift(ops);
    }
  }

  /** At every later time the counter plus the running pause is the number of paused seconds, plus
      the drift; no rewrite of the row disturbs it. */
  lemma {:induction false} CounterIsPausedTime(row0: Row, ops: seq<Op>, start: int)
    requires row0.lastPaused == None && row0.pausedCounter == 0
    requires Clocked(ops, start) && 0 < start && OneItem(ops, row0.ratingKey)
    ensures Balanced(DoAll([row0], ops), row0, ops, start)
    decreases |ops|
  {
    if ops == [] {
      forall now | start <= now ensures PausedSeconds([], start, now) == 0 {
        SecondsAll([], start, now, false);
      }
    } else {
      var front, op := ops[..|ops| - 1], ops[|ops| - 1];
      CounterIsPausedTime(row0, front, start);
      assert front + [op] == ops;
      StepBalanced(DoAll([row0], front), row0, front, op, start);
    }
  }

  /** At a stop the time played is what is left of the session's time, short of the drift. */
  lemma {:induction false} PlayTimeAtStop(row0: Row, ops: seq<Op>, start: int, reading: int, stopped: int)
    requires row0.lastPaused == None && row0.pausedCounter == 0 && row0.started == start
    requires Clocked(ops + [Clear(reading), SetState(Stopped, stopped)], start) && 0 < start && OneItem(ops, row0.ratingKey)
    ensures var all := ops + [Clear(reading), SetState(Stopped, stopped)];
            var rows := DoAll([row0], all);
            && |rows| == 1 && rows[0].started == start && rows[0].stopped == stopped
            && stopped - rows[0].started - rows[0].pausedCounter
               == (stopped - start - PausedSeconds(ops, start, reading)) - Drift(ops)
            && 0 <= stopped - start - PausedSeconds(ops, start, reading)
  {
    var a, b := Clear(reading), SetState(Stopped, stopped);
    var all := ops + [a, b];
    assert all[..|all| - 1] == ops + [a] && (ops + [a])[..|ops + [a]| - 1] == ops;
    var rows := DoAll([row0], ops + [a]);
    PausedAtStop(row0, ops, start, reading);
    assert DoAll([row0], all) == Setting(rows, Stopped, stopped);
    SecondsBound(ops, start, reading);
  }

  /** The row after the pause is cleared. */
  lemma {:induction false} PausedAtStop(row0: Row, ops: seq<Op>, start: int, reading: int)
    requires row0.lastPaused == None && row0.pausedCounter == 0 && row0.started == start
    requires Clocked(ops + [Clear(reading)], start) && 0 < start && OneItem(ops, row0.ratingKey)
    ensures var rows := DoAll([row0], ops + [Clear(reading)]);
            && |rows| == 1 && rows[0].started == start && start <= reading
            && rows[0].pausedCounter == PausedSeconds(ops, start, reading) + Drift(ops)
  {
    var a := Clear(reading);
    var more := ops + [a];
    assert more[..|more| - 1] == ops;
    CounterIsPausedTime(row0, more, start);
    SecondsStep(ops, a, start, reading);
    StartsFirst(more, start);
    var rows := DoAll([row0], more);
    assert Account(rows[0], reading) == PausedSeconds(more, start, reading) + Drift(more);
  }

  /** The drift is never negative: the counter errs on the side of too much paused time. */
  lemma {:induction false} DriftGrows(ops: seq<Op>, start: int)
    requires Clocked(ops, start)
    ensures 0 <= Drift(ops)
    decreases |ops|
  {
    if ops != [] { DriftGrows(ops[..|ops| - 1], start); }
  }

  /** There is no drift exactly when both readings of every repeated pause agree; the readings of a first
      pause do not matter. */
  lemma {:induction false} NoDrift(ops: seq<Op>, start: int)
    requires Clocked(ops, start)
    ensures Drift(ops) == 0
       <==> forall i | 0 <= i < |ops| && ops[i].Mark? && PauseRuns(ops[..i]) :: ops[i].mark == ops[i].reading
    decreases |ops|
  {
    if ops != [] {
      var n := |ops| - 1;
      var front := ops[..n];
      NoDrift(front, start);
      DriftGrows(front, start);
      forall i | 0 <= i < n ensures front[..i] == ops[..i] && front[i] == ops[i] {
      }
    }
  }

  /** A pause repeated after a second, with a second between its two readings, and a stop at once: the
      play time is negative, whenever the session started. */
  lemma {:induction false} PlayTimeCanBeNegative(row0: Row, start: int)
    requires row0.lastPaused == None && row0.pausedCounter == 0 && row0.started == start > 0
    ensures var ops := [Mark(start, start), Mark(start + 1, start + 2)];
            var rows := DoAll([row0], ops + [Clear(start + 2), SetState(Stopped, start + 2)]);
            |rows| == 1 && rows[0].stopped - rows[0].started - rows[0].pausedCounter == -1
  {
    var a, b, c, d := Mark(start, start), Mark(start + 1, start + 2), Clear(start + 2), SetState(Stopped, start + 2);
    var ops := [a, b];
    assert ops[..1] == [a] && [a][..0] == [];
    assert PauseRuns([a]) && Drift([a]) == 0;
    assert Drift(ops) == Drift(ops[..1]) + (if PauseRuns(ops[..1]) then 1 else 0);
    assert Clocked([], start) && Clocked([a], start) && Clocked(ops, start);
    assert (ops + [c, d])[..3] == ops + [c] && (ops + [c])[..2] == ops;
    assert Clocked(ops + [c], start) && Clocked(ops + [c, d], start);
    forall u | start <= u < start + 2 ensures PausedAt(ops, u) {
      assert PausedAt([a], u);
    }
    SecondsAll(ops, start, start + 2, true);
    PlayTimeAtStop(row0, ops, start, start + 2, start + 2);
  }

  // ----- whole runs of events -----

  /** Everything a run of events does to the table, in order. */
  function OpsOf(events: seq<(Timeline, World)>): seq<Op> {
    if events == [] then []
    else
      var (t, w) := events[|events| - 1];
      OpsOf(events[..|events| - 1]) + EventOps(After(events[..|events| - 1]), t, w)
  }

  lemma {:induction false} AfterIsOps(events: seq<(Timeline, World)>)
    ensures After(events) == DoAll([], OpsOf(events))
    decreases |events|
  {
    if events != [] {
      var front := events[..|events| - 1];
      AfterIsOps(front);
      DoAllConcat([], OpsOf(front), EventOps(After(front), events[|events| - 1].0, events[|events| - 1].1));
    }
  }

  /** What is done first makes the row. */
  lemma {:induction false} FirstOps(t: Timeline, w: World)
    ensures EventOps([], t, w) != [] ==> EventOps([], t, w)[0].Rewrite?
  {
  }

  lemma {:induction false} FirstIsRewrite(events: seq<(Timeline, World)>)
    ensures OpsOf(events) != [] ==> OpsOf(events)[0].Rewrite?
    decreases |events|
  {
    if events != [] {
      var front := events[..|events| - 1];
      var (t, w) := events[|events| - 1];
      FirstIsRewrite(front);
      if OpsOf(front) == [] {
        AfterIsOps(front);
        assert After(front) == [];
        FirstOps(t, w);
        assert OpsOf(events) == EventOps([], t, w);
      } else {
        assert OpsOf(events)[0] == OpsOf(front)[0];
      }
    }
  }

  lemma {:induction false} DoFirst(ops: seq<Op>) returns (row0: Row)
    requires ops != [] && ops[0].Rewrite?
    ensures row0.ratingKey == ops[0].live.ratingKey && row0.lastPaused == None && row0.pausedCounter == 0
    ensures row0.started == ops[0].now && DoAll([], ops) == DoAll([row0], ops[1..])
  {
    row0 := MadeRow(ops[0].live, ops[0].now);
    DoOne([], ops[0]);
    DoAllConcat([], [ops[0]], ops[1..]);
    assert ops == [ops[0]] + ops[1..];
  }

  /** A run of events about one item works on the one row its first operation makes. */
  lemma {:induction false} FirstRow(events: seq<(Timeline, World)>, ratingKey: int) returns (row0: Row)
    requires OpsOf(events) != [] && OneItem(OpsOf(events), ratingKey)
    ensures row0.ratingKey == ratingKey && row0.lastPaused == None && row0.pausedCounter == 0
    ensures row0.started == LastTime(OpsOf(events)[0])
    ensures After(events) == DoAll([row0], OpsOf(events)[1..])
  {
    AfterIsOps(events);
    FirstIsRewrite(events);
    row0 := DoFirst(OpsOf(events));
  }

  lemma {:induction false} MadeRow(l: Live, now: int) returns (row0: Row)
    ensures Do([], Rewrite(l, now)) == [row0] && row0.ratingKey == l.ratingKey
    ensures row0.lastPaused == None && row0.pausedCounter == 0 && row0.started == now
  {
    row0 := Rewriting([], l, now)[0];
  }

  /** Over any run of events about one item, with a clock that does not go back, there is one row and
      its account is right at the end of the run and at any later time. */
  lemma {:induction false} RunIsBalanced(events: seq<(Timeline, World)>, ratingKey: int)
    requires var ops := OpsOf(events);
             ops != [] && OneItem(ops, ratingKey) && 0 < FirstTime(ops[0]) && Clocked(ops[1..], LastTime(ops[0]))
    ensures var ops := OpsOf(events);
            var start := LastTime(ops[0]);
            var rows := After(events);
            && |rows| == 1 && rows[0].started == start
            && (forall now | EndTime(ops[1..], start) <= now ::
                  Account(rows[0], now) == PausedSeconds(ops[1..], start, now) + Drift(ops[1..]))
  {
    var row0 := FirstRow(events, ratingKey);
    FirstIsRewrite(events);
    CounterIsPausedTime(row0, OpsOf(events)[1..], row0.started);
  }

  /** A stop clears the pause and sets the state, and nothing else. */
  lemma {:induction false} StopOps(rows: seq<Row>, t: Timeline, w: World)
    requires rows != [] && rows[0].state != Stopped && t.state == Stopped && SameItem(rows[0], t, w)
    ensures EventOps(rows, t, w) == [Clear(w.reading), SetState(Stopped, w.updatedAt)]
  {
  }

  lemma {:induction false} AfterStop(events: seq<(Timeline, World)>, t: Timeline, w: World)
    requires After(events) != [] && After(events)[0].state != Stopped
    requires t.state == Stopped && SameItem(After(events)[0], t, w)
    ensures After(events + [(t, w)]) == DoAll(After(events), [Clear(w.reading), SetState(Stopped, w.updatedAt)])
  {
    StopOps(After(events), t, w);
    assert (events + [(t, w)])[..|events|] == events;
  }

  /** At the stop that ends a run of events about one item, the time played is the session's time without
      its paused seconds, short of the drift. */
  lemma {:induction false} PlayTimeOfOperations(events: seq<(Timeline, World)>, t: Timeline, w: World, ratingKey: int)
    requires var ops := OpsOf(events);
             && ops != [] && OneItem(ops, ratingKey) && 0 < FirstTime(ops[0])
             && Clocked(ops[1..] + [Clear(w.reading), SetState(Stopped, w.updatedAt)], LastTime(ops[0]))
    requires After(events) != [] && After(events)[0].state != Stopped
    requires t.state == Stopped && SameItem(After(events)[0], t, w)
    ensures var ops := OpsOf(events);
            var start := LastTime(ops[0]);
            var rows := After(events + [(t, w)]);
            && |rows| == 1 && rows[0].started == start && rows[0].stopped == w.updatedAt
            && rows[0].stopped - rows[0].started - rows[0].pausedCounter
               == (w.updatedAt - start - PausedSeconds(ops[1..], start, w.reading)) - Drift(ops[1..])
            && 0 <= w.updatedAt - start - PausedSeconds(ops[1..], start, w.reading)
  {
    var rest, start := OpsOf(events)[1..], LastTime(OpsOf(events)[0]);
    var stop := [Clear(w.reading), SetState(Stopped, w.updatedAt)];
    var row0 := FirstRow(events, ratingKey);
    FirstIsRewrite(events);
    AfterStop(events, t, w);
    DoAllConcat([row0], rest, stop);
    PlayTimeAtStop(row0, rest, start, w.reading, w.updatedAt);
  }
}

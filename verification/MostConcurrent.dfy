/** The sweep that finds the most concurrent streams. */
module MostConcurrent {
  import opened Options
  import opened PythonText
  import opened StableSort

  /** A history row; times are seconds, a stream covers `[started, stopped)`. */
  datatype Row = Row(started: nat, stopped: nat)

  /** A start or stop of a stream. */
  datatype Event = Event(time: nat, isStart: bool)

  datatype Concurrent = Concurrent(title: string, count: int, started: Option<string>, stopped: Option<string>)

  // ----- sorting the events by text -----

  function Key(e: Event): string {
    Text(e.time) + (if e.isStart then "B" else "A")
  }

  predicate KeyLeq(a: Event, b: Event) {
    !TextBefore(Key(b), Key(a))
  }

  // ----- the sweep -----

  datatype Sweep = Sweep(count: int, lastCount: int, lastStart: string, best: Concurrent)

  function Delta(e: Event): int {
    if e.isStart then 1 else -1
  }

  /** A key without its last character. */
  function Chop(s: string): string {
    if s == [] then [] else s[..|s| - 1]
  }

  function Step(w: Sweep, e: Event): Sweep {
    if e.isStart then
      var count := w.count + 1;
      w.(count := count, lastStart := if count >= w.lastCount then Key(e) else w.lastStart)
    else if w.count >= w.lastCount then
      Sweep(w.count - 1, w.count, w.lastStart,
            Concurrent(w.best.title, w.count, Some(Chop(w.lastStart)), Some(Chop(Key(e)))))
    else w.(count := w.count - 1)
  }

  function SweepOver(title: string, events: seq<Event>): Sweep {
    if events == [] then Sweep(0, 0, [], Concurrent(title, 0, None, None))
    else Step(SweepOver(title, events[..|events| - 1]), events[|events| - 1])
  }

  function Events(rows: seq<Row>): seq<Event> {
    if rows == [] then []
    else Events(rows[..|rows| - 1]) + [Event(rows[|rows| - 1].started, true), Event(rows[|rows| - 1].stopped, false)]
  }

  function Result(title: string, rows: seq<Row>): Concurrent {
    SweepOver(title, Sorted(Events(rows), KeyLeq)).best
  }

  method CalcMostConcurrent(title: string, result: seq<Row>) returns (concurrent: Concurrent)
    ensures concurrent == Result(title, result)
  {
    var times: seq<Event> := [];
    for n := 0 to |result|
      invariant times == Events(result[..n])
    {
      assert result[..n + 1][..n] == result[..n];
      times := times + [Event(result[n].started, true)];
      times := times + [Event(result[n].stopped, false)];
    }
    assert result[..|result|] == result;
    times := Sorted(times, KeyLeq);
    var count, lastCount, lastStart := 0, 0, "";
    concurrent := Concurrent(title, 0, None, None);
    for n := 0 to |times|
      invariant SweepOver(title, times[..n]) == Sweep(count, lastCount, lastStart, concurrent)
    {
      var d := times[n];
      assert times[..n + 1][..n] == times[..n];
      if d.isStart {
        count := count + 1;
        if count >= lastCount { lastStart := Key(d); }
      } else {
        if count >= lastCount {
          lastCount := count;
          concurrent := concurrent.(count := count, started := Some(Chop(lastStart)), stopped := Some(Chop(Key(d))));
        }
        count := count - 1;
      }
    }
    assert times[..|times|] == times;
  }

  // ----- what it should find -----

  /** The number of streams that cover an instant. */
  function Overlap(rows: seq<Row>, t: nat): nat {
    if rows == [] then 0
    else
      var r := rows[|rows| - 1];
      Overlap(rows[..|rows| - 1], t) + (if r.started <= t < r.stopped then 1 else 0)
  }

  /** `c.count` is the largest overlap, and the window is the last stretch of time that has it. */
  ghost predicate IsPeak(rows: seq<Row>, c: Concurrent) {
    && c.count >= 0
    && (forall t: nat :: Overlap(rows, t) <= c.count)
    && (c.count > 0 ==> exists a: nat, b: nat ::
          && a < b && c.started == Some(Text(a)) && c.stopped == Some(Text(b))
          && (forall t: nat | a <= t < b :: Overlap(rows, t) == c.count)
          && (forall t: nat | b <= t :: Overlap(rows, t) < c.count))
  }

  /** No stream stops before it starts. */
  predicate Forward(rows: seq<Row>) {
    forall r | r in rows :: r.started <= r.stopped
  }

  /** The text keys compare as the times do. */
  predicate KeysAgree(events: seq<Event>) {
    forall a, b | a in events && b in events :: KeyLeq(a, b) <==> TimeLeq(a, b)
  }

  // ----- when text order is time order -----

  lemma {:induction false} TextBeforeSnoc(a: string, x: char, b: string, y: char)
    requires |a| == |b|
    ensures TextBefore(a + [x], b + [y]) <==> TextBefore(a, b) || (a == b && x < y)
  {
    if a == [] {
      assert a + [x] == [x] && b + [y] == [y];
      assert TextBefore([x], [y]) <==> x < y || (x == y && TextBefore([x][1..], [y][1..]));
    } else {
      assert (a + [x])[1..] == a[1..] + [x] && (b + [y])[1..] == b[1..] + [y];
      assert a == [a[0]] + a[1..] && b == [b[0]] + b[1..];
      TextBeforeSnoc(a[1..], x, b[1..], y);
    }
  }

  lemma {:induction false} DigitOrder(x: nat, y: nat)
    requires x < 10 && y < 10
    ensures Digit(x) < Digit(y) <==> x < y
    ensures Digit(x) == Digit(y) <==> x == y
  {
  }

  lemma {:induction false} TextOrder(m: nat, n: nat)
    requires |Text(m)| == |Text(n)|
    ensures TextBefore(Text(m), Text(n)) <==> m < n
    ensures Text(m) == Text(n) <==> m == n
  {
    if m < 10 {
      assert n < 10;
      DigitOrder(m, n);
      assert Text(m)[1..] == [] && Text(n)[1..] == [];
    } else {
      assert n >= 10;
      TextOrder(m / 10, n / 10);
      TextBeforeSnoc(Text(m / 10), Digit(m % 10), Text(n / 10), Digit(n % 10));
      DigitOrder(m % 10, n % 10);
      SnocEqual(Text(m / 10), Digit(m % 10), Text(n / 10), Digit(n % 10));
    }
  }

  lemma {:induction false} SnocEqual(a: string, x: char, b: string, y: char)
    ensures a + [x] == b + [y] <==> a == b && x == y
  {
    if a + [x] == b + [y] {
      assert (a + [x])[|a|] == x && (b + [y])[|b|] == y;
      assert (a + [x])[..|a|] == a && (b + [y])[..|b|] == b;
    }
  }

  /** The order in time; at the same time stops come first. */
  predicate TimeLeq(a: Event, b: Event) {
    a.time < b.time || (a.time == b.time && (a.isStart ==> b.isStart))
  }

  lemma {:induction false} KeyOrder(a: Event, b: Event)
    requires |Text(a.time)| == |Text(b.time)|
    ensures KeyLeq(a, b) <==> TimeLeq(a, b)
  {
    TextOrder(b.time, a.time);
    TextBeforeSnoc(Text(b.time), if b.isStart then 'B' else 'A', Text(a.time), if a.isStart then 'B' else 'A');
  }

  /** Where the keys agree the text sort does what a sort by time does. */
  lemma {:induction false} SortByTime(s: seq<Event>)
    requires KeysAgree(s)
    ensures Sorted(s, KeyLeq) == Sorted(s, TimeLeq)
  {
    if s != [] {
      SortByTime(s[1..]);
      SortedContents(s[1..], TimeLeq);
      var t := Sorted(s[1..], TimeLeq);
      forall e | e in t ensures e in s { assert e in multiset(t); assert e in s[1..]; }
      InsertByTime(s[0], t);
    }
  }

  lemma {:induction false} InsertByTime(x: Event, s: seq<Event>)
    requires forall e | e in s :: KeyLeq(x, e) <==> TimeLeq(x, e)
    ensures Insert(x, s, KeyLeq) == Insert(x, s, TimeLeq)
  {
    if s != [] {
      assert s[0] in s;
      InsertByTime(x, s[1..]);
    }
  }

  lemma {:induction false} KeyInjective(a: Event, b: Event)
    requires Key(a) == Key(b)
    ensures a == b
  {
    SnocEqual(Text(a.time), if a.isStart then 'B' else 'A', Text(b.time), if b.isStart then 'B' else 'A');
    TextOrder(a.time, b.time);
  }

  lemma {:induction false} KeyComparable()
    ensures Comparable(KeyLeq)
  {
    forall a: Event, b: Event ensures KeyLeq(a, b) || KeyLeq(b, a) { TextTotal(Key(a), Key(b)); }
    forall a: Event, b: Event, c: Event | KeyLeq(a, b) && KeyLeq(b, c) ensures KeyLeq(a, c) {
      TextTotal(Key(a), Key(b));
      TextTotal(Key(b), Key(c));
      TextTotal(Key(a), Key(c));
      if Key(a) != Key(b) && Key(b) != Key(c) { TextTransitive(Key(a), Key(b), Key(c)); }
    }
  }

  /** Both sorts put the events in the same order only where their keys compare as the times do. */
  lemma {:induction false} InBothOrders(s: seq<Event>, i: nat, j: nat)
    requires i < |s| && j < |s| && InOrder(s, KeyLeq) && InOrder(s, TimeLeq)
    ensures KeyLeq(s[i], s[j]) <==> TimeLeq(s[i], s[j])
  {
    if s[i] == s[j] {
      TextTotal(Key(s[i]), Key(s[i]));
    } else {
      TextTotal(Key(s[i]), Key(s[j]));
      if Key(s[i]) == Key(s[j]) { KeyInjective(s[i], s[j]); }
      assert i < j ==> KeyLeq(s[i], s[j]) && TimeLeq(s[i], s[j]);
      assert j < i ==> KeyLeq(s[j], s[i]) && TimeLeq(s[j], s[i]);
    }
  }

  /** The text sort is the sort by time if and only if the keys of the events compare as the times do. */
  lemma {:induction false} SortExact(s: seq<Event>)
    ensures Sorted(s, KeyLeq) == Sorted(s, TimeLeq) <==> KeysAgree(s)
  {
    if KeysAgree(s) {
      SortByTime(s);
    } else if Sorted(s, KeyLeq) == Sorted(s, TimeLeq) {
      KeyComparable();
      SortedInOrder(s, KeyLeq);
      SortedInOrder(s, TimeLeq);
      SortedContents(s, TimeLeq);
      AgreeIfInBothOrders(s, Sorted(s, TimeLeq));
    }
  }

  lemma {:induction false} AgreeIfInBothOrders(s: seq<Event>, t: seq<Event>)
    requires multiset(s) == multiset(t) && InOrder(t, KeyLeq) && InOrder(t, TimeLeq)
    ensures KeysAgree(s)
  {
    forall a, b | a in s && b in s ensures KeyLeq(a, b) <==> TimeLeq(a, b) {
      assert a in multiset(t) && b in multiset(t);
      var i :| 0 <= i < |t| && t[i] == a;
      var j :| 0 <= j < |t| && t[j] == b;
      InBothOrders(t, i, j);
    }
  }

  // ----- counting events -----

  function Sum(events: seq<Event>): int {
    if events == [] then 0 else Sum(events[..|events| - 1]) + Delta(events[|events| - 1])
  }

  /** Starts minus stops up to an instant. */
  function Net(events: seq<Event>, t: nat): int {
    if events == [] then 0
    else Net(events[1..], t) + (if events[0].time <= t then Delta(events[0]) else 0)
  }

  lemma {:induction false} NetConcat(a: seq<Event>, b: seq<Event>, t: nat)
    ensures Net(a + b, t) == Net(a, t) + Net(b, t)
  {
    if a == [] {
      assert a + b == b;
    } else {
      assert (a + b)[1..] == a[1..] + b;
      NetConcat(a[1..], b, t);
    }
  }

  lemma {:induction false} NetInsert(x: Event, s: seq<Event>, t: nat)
    ensures Net(Insert(x, s, TimeLeq), t) == Net(s, t) + (if x.time <= t then Delta(x) else 0)
  {
    if s == [] || TimeLeq(x, s[0]) {
      assert ([x] + s)[1..] == s;
    } else {
      NetInsert(x, s[1..], t);
      assert ([s[0]] + Insert(x, s[1..], TimeLeq))[1..] == Insert(x, s[1..], TimeLeq);
    }
  }

  lemma {:induction false} NetSorted(s: seq<Event>, t: nat)
    ensures Net(Sorted(s, TimeLeq), t) == Net(s, t)
  {
    if s != [] {
      NetSorted(s[1..], t);
      NetInsert(s[0], Sorted(s[1..], TimeLeq), t);
    }
  }

  lemma {:induction false} NetRow(r: Row, t: nat)
    ensures Net([Event(r.started, true), Event(r.stopped, false)], t)
         == (if r.started <= t then 1 else 0) - (if r.stopped <= t then 1 else 0)
  {
    var b, e := Event(r.started, true), Event(r.stopped, false);
    assert [b, e][1..] == [e] && [e][1..] == [];
    assert Net([e], t) == Net([], t) + (if e.time <= t then Delta(e) else 0);
  }

  lemma {:induction false} OverlapIsNet(rows: seq<Row>, t: nat)
    requires Forward(rows)
    ensures Overlap(rows, t) == Net(Events(rows), t)
  {
    if rows != [] {
      var front, r := rows[..|rows| - 1], rows[|rows| - 1];
      OverlapIsNet(front, t);
      NetConcat(Events(front), [Event(r.started, true), Event(r.stopped, false)], t);
      NetRow(r, t);
      assert r in rows;
    }
  }

  /** In events sorted by time, the net count at an instant is the sum over the events up to it. */
  lemma {:induction false} NetIsPrefix(events: seq<Event>, n: nat, t: nat)
    requires n <= |events|
    requires forall i | 0 <= i < |events| :: events[i].time <= t <==> i < n
    ensures Net(events, t) == Sum(events[..n])
  {
    if n < |events| {
      var front := events[..|events| - 1];
      NetIsPrefix(front, n, t);
      NetConcat(front, [events[|events| - 1]], t);
      assert front + [events[|events| - 1]] == events && front[..n] == events[..n];
      assert [events[|events| - 1]][1..] == [];
    } else if n > 0 {
      var front := events[..n - 1];
      assert events[..n] == events;
      NetIsPrefix(front, n - 1, t);
      NetConcat(front, [events[n - 1]], t);
      assert front + [events[n - 1]] == events && front[..n - 1] == front;
      assert [events[n - 1]][1..] == [];
    }
  }

  lemma {:induction false} NetOfTotal(rows: seq<Row>, events: seq<Event>, t: nat)
    requires Forward(rows) && events == Sorted(Events(rows), TimeLeq)
    ensures Overlap(rows, t) == Net(events, t)
  {
    OverlapIsNet(rows, t);
    NetSorted(Events(rows), t);
  }

  // ----- the sweep's invariant -----

  /** The best window so far ends at stop `r`; no stop passed since has seen as many streams. */
  ghost predicate Swept(events: seq<Event>, i: nat, w: Sweep, r: nat)
    requires i <= |events|
  {
    && w.count == Sum(events[..i])
    && w.lastCount == w.best.count >= 0
    && (forall j | 0 <= j < i && !events[j].isStart :: Sum(events[..j]) <= w.lastCount)
    && (i > 0 && events[i - 1].isStart && w.count >= w.lastCount ==> w.lastStart == Key(events[i - 1]))
    && (w.lastCount > 0 ==>
          && 0 < r < i && events[r - 1].isStart && !events[r].isStart && Sum(events[..r]) == w.lastCount
          && w.best.started == Some(Text(events[r - 1].time)) && w.best.stopped == Some(Text(events[r].time))
          && (forall j | r < j < i && !events[j].isStart :: Sum(events[..j]) < w.lastCount))
  }

  lemma {:induction false} SweepInvariant(title: string, events: seq<Event>, i: nat) returns (r: nat)
    requires i <= |events|
    ensures Swept(events, i, SweepOver(title, events[..i]), r)
  {
    r := 0;
    if i > 0 {
      r := SweepInvariant(title, events, i - 1);
      SweepOne(title, events, i - 1);
      r := SweepNext(events, i - 1, SweepOver(title, events[..i - 1]), r);
    }
  }

  lemma {:induction false} SweepOne(title: string, events: seq<Event>, i: nat)
    requires i < |events|
    ensures SweepOver(title, events[..i + 1]) == Step(SweepOver(title, events[..i]), events[i])
  {
    assert events[..i + 1][..i] == events[..i];
  }

  lemma {:induction false} SweepNext(events: seq<Event>, i: nat, w: Sweep, r: nat) returns (r': nat)
    requires i < |events| && Swept(events, i, w, r)
    ensures Swept(events, i + 1, Step(w, events[i]), r')
  {
    if events[i].isStart {
      SweepStart(events, i, w, r);
      r' := r;
    } else {
      r' := SweepStop(events, i, w, r);
    }
  }

  lemma {:induction false} SweepStart(events: seq<Event>, i: nat, w: Sweep, r: nat)
    requires i < |events| && events[i].isStart && Swept(events, i, w, r)
    ensures Swept(events, i + 1, Step(w, events[i]), r)
  {
    assert events[..i + 1][..i] == events[..i];
  }

  lemma {:induction false} SweepStop(events: seq<Event>, i: nat, w: Sweep, r: nat) returns (r': nat)
    requires i < |events| && !events[i].isStart && Swept(events, i, w, r)
    ensures Swept(events, i + 1, Step(w, events[i]), r')
  {
    r' := r;
    assert events[..i + 1][..i] == events[..i];
    if w.count >= w.lastCount {
      r' := i;
      ChopKey(events[i]);
      if w.count > 0 {
        // the event before is a start: a stop would have seen one stream more
        assert i > 0;
        assert events[..i][..i - 1] == events[..i - 1];
        assert events[i - 1].isStart;
        ChopKey(events[i - 1]);
      }
    }
  }

  lemma {:induction false} ChopKey(e: Event)
    ensures Chop(Key(e)) == Text(e.time)
  {
  }

  /** After any event the running sum is no more than what the next stop sees, or nothing stops any
      more and it is no more than the total. */
  lemma {:induction false} NextStop(events: seq<Event>, n: nat, bound: int)
    requires n <= |events| && Sum(events) == 0 <= bound
    requires forall j | n <= j < |events| && !events[j].isStart :: Sum(events[..j]) <= bound
    ensures Sum(events[..n]) <= bound
    decreases |events| - n
  {
    if n == |events| {
      assert events[..n] == events;
    } else if events[n].isStart {
      assert events[..n + 1][..n] == events[..n];
      NextStop(events, n + 1, bound);
    }
  }

  /** Every instant splits the sorted events. */
  lemma {:induction false} Split(events: seq<Event>, t: nat) returns (n: nat)
    requires InOrder(events, TimeLeq)
    ensures n <= |events| && forall i | 0 <= i < |events| :: events[i].time <= t <==> i < n
  {
    n := 0;
    while n < |events| && events[n].time <= t
      invariant n <= |events|
      invariant forall i | 0 <= i < n :: events[i].time <= t
    {
      n := n + 1;
    }
    forall i | n <= i < |events| ensures events[i].time > t {
      if i > n { assert TimeLeq(events[n], events[i]); }
    }
  }

  lemma {:induction false} TotalIsZero(rows: seq<Row>, t: nat)
    requires forall r | r in rows :: r.started <= t && r.stopped <= t
    ensures Net(Events(rows), t) == 0
  {
    if rows != [] {
      var front, r := rows[..|rows| - 1], rows[|rows| - 1];
      TotalIsZero(front, t);
      NetConcat(Events(front), [Event(r.started, true), Event(r.stopped, false)], t);
      NetRow(r, t);
      assert r in rows;
    }
  }

  lemma {:induction false} Latest(rows: seq<Row>) returns (t: nat)
    ensures forall r | r in rows :: r.started <= t && r.stopped <= t
    ensures forall e | e in Events(rows) :: e.time <= t
  {
    t := 0;
    if rows != [] {
      var front, r := rows[..|rows| - 1], rows[|rows| - 1];
      t := Latest(front);
      t := if r.started > t then r.started else t;
      t := if r.stopped > t then r.stopped else t;
    }
  }

  /** The sum over all events is zero. */
  lemma {:induction false} SumIsZero(rows: seq<Row>, events: seq<Event>)
    requires events == Sorted(Events(rows), TimeLeq)
    ensures Sum(events) == 0
  {
    var t := Latest(rows);
    TotalIsZero(rows, t);
    NetSorted(Events(rows), t);
    SortedContents(Events(rows), TimeLeq);
    forall i | 0 <= i < |events| ensures events[i].time <= t {
      assert events[i] in multiset(events);
    }
    NetIsPrefix(events, |events|, t);
    assert events[..|events|] == events;
  }

  /** The overlap at an instant is the running sum at some event, and not after that event's time. */
  lemma {:induction false} OverlapAt(rows: seq<Row>, events: seq<Event>, t: nat) returns (n: nat)
    requires Forward(rows) && events == Sorted(Events(rows), TimeLeq)
    ensures n <= |events| && (forall i | 0 <= i < |events| :: events[i].time <= t <==> i < n)
    ensures Overlap(rows, t) == Sum(events[..n])
  {
    SortedInOrder(Events(rows), TimeLeq);
    n := Split(events, t);
    NetOfTotal(rows, events, t);
    NetIsPrefix(events, n, t);
  }

  lemma {:induction false} WindowIsPeak(rows: seq<Row>, events: seq<Event>, w: Sweep, r: nat)
    requires Forward(rows) && events == Sorted(Events(rows), TimeLeq)
    requires Swept(events, |events|, w, r) && w.best.count > 0
    ensures var a, b := events[r - 1].time, events[r].time;
            && a < b && (forall t: nat | a <= t < b :: Overlap(rows, t) == w.best.count)
            && (forall t: nat | b <= t :: Overlap(rows, t) < w.best.count)
  {
    var a, b := events[r - 1].time, events[r].time;
    SumIsZero(rows, events);
    SortedInOrder(Events(rows), TimeLeq);
    assert TimeLeq(events[r - 1], events[r]);
    forall t: nat | a <= t < b ensures Overlap(rows, t) == w.best.count {
      var n := OverlapAt(rows, events, t);
      assert n == r;
    }
    forall t: nat | b <= t ensures Overlap(rows, t) < w.best.count {
      var n := OverlapAt(rows, events, t);
      assert n > r;
      NextStop(events, n, w.best.count - 1);
    }
  }

  lemma {:induction false} TitleStays(title: string, events: seq<Event>)
    ensures SweepOver(title, events).best.title == title
  {
    if events != [] { TitleStays(title, events[..|events| - 1]); }
  }

  /** Where the keys of the events compare as their times do, the sweep finds the largest overlap and the
      last window that has it. */
  lemma {:induction false} SweepFindsPeak(title: string, rows: seq<Row>)
    requires Forward(rows) && KeysAgree(Events(rows))
    ensures IsPeak(rows, Result(title, rows)) && Result(title, rows).title == title
  {
    TitleStays(title, Sorted(Events(rows), KeyLeq));
    var events := Sorted(Events(rows), TimeLeq);
    SortByTime(Events(rows));
    SumIsZero(rows, events);
    var r := SweepInvariant(title, events, |events|);
    assert events[..|events|] == events;
    var w := SweepOver(title, events);
    forall t: nat ensures Overlap(rows, t) <= w.best.count {
      var n := OverlapAt(rows, events, t);
      NextStop(events, n, w.best.count);
    }
    if w.best.count > 0 { WindowIsPeak(rows, events, w, r); }
  }

  // ----- times with the same number of digits -----

  function Power10(k: nat): nat {
    if k == 0 then 1 else 10 * Power10(k - 1)
  }

  lemma {:induction false} Digits(n: nat, k: nat)
    requires k > 0 && (k > 1 ==> Power10(k - 1) <= n) && n < Power10(k)
    ensures |Text(n)| == k
  {
    if k > 1 {
      assert Power10(k - 1) == 10 * Power10(k - 2) && Power10(k) == 10 * Power10(k - 1);
      Digits(n / 10, k - 1);
    }
  }

  lemma {:induction false} EventTimes(rows: seq<Row>, e: Event)
    requires e in Events(rows)
    ensures exists r | r in rows :: e.time == r.started || e.time == r.stopped
  {
    var front, r := rows[..|rows| - 1], rows[|rows| - 1];
    if e in Events(front) {
      EventTimes(front, e);
    } else {
      assert r in rows;
    }
  }

  /** Times of one width, such as the ten digits of the seconds from 2001 to 2286. */
  lemma {:induction false} OneWidthAgrees(rows: seq<Row>, k: nat)
    requires k > 0
    requires forall r | r in rows :: Power10(k - 1) <= r.started < Power10(k) && Power10(k - 1) <= r.stopped < Power10(k)
    ensures KeysAgree(Events(rows))
  {
    forall a, b | a in Events(rows) && b in Events(rows) ensures KeyLeq(a, b) <==> TimeLeq(a, b) {
      EventTimes(rows, a);
      EventTimes(rows, b);
      Digits(a.time, k);
      Digits(b.time, k);
      KeyOrder(a, b);
    }
  }

  /** On such rows the sweep is right. */
  lemma {:induction false} SweepFindsPeakAtOneWidth(title: string, rows: seq<Row>, k: nat)
    requires k > 0 && Forward(rows)
    requires forall r | r in rows :: Power10(k - 1) <= r.started < Power10(k) && Power10(k - 1) <= r.stopped < Power10(k)
    ensures IsPeak(rows, Result(title, rows))
  {
    OneWidthAgrees(rows, k);
    SweepFindsPeak(title, rows);
  }

  /** The keys have to agree for this: over a change in the number of digits the text sort can be off,
      and then the one stream here, from 9 to 10, is not counted. */
  lemma {:induction false} MixedWidthsMislead(title: string)
    ensures !KeysAgree(Events([Row(9, 10)]))
    ensures Overlap([Row(9, 10)], 9) == 1 && Result(title, [Row(9, 10)]).count == 0
  {
    var rows := [Row(9, 10)];
    var b, e := Event(9, true), Event(10, false);
    assert rows[..0] == [];
    assert Events(rows) == [b, e];
    assert Text(9) == "9";
    assert Text(1) == "1" && Text(10) == "10";
    assert Key(b)[0] == '9' && Key(e)[0] == '1';
    assert !KeyLeq(b, e) && TimeLeq(b, e) && KeyLeq(e, e);
    assert [b, e][1..] == [e] && [e][1..] == [];
    assert Sorted([e], KeyLeq) == [e];
    assert Insert(b, [e], KeyLeq) == [e, b] by { assert [e][1..] == []; }
    var events := [e, b];
    assert Sorted(Events(rows), KeyLeq) == events;
    assert events[..1] == [e] && [e][..0] == [];
    assert SweepOver(title, []).count == 0;
    assert SweepOver(title, [e]).best.count == 0;
  }
}

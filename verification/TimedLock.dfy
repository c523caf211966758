/** The rate limiter: threads that take turns, and what they wait for. */
module TimedLock {

  type Thread = nat

  /** Where a thread is between two steps that others can see. */
  datatype Place =
    | Outside
    | Acquired                 // has the lock, has not looked at the clock
    | Sleeping(until: real)    // for the rest of the interval
    | Looking                  // at the loop's condition
    | Fetching                 // has seen that the queue is not empty
    | Snoozing(until: real)    // for a queued time
    | Inside                   // in the body of the with statement
    | Leaving                  // has set the time of the last use
    | Failed                   // an exception left __enter__

  /** The entries so far, the last one outermost: when the lock was last used before, when the thread
      got in, and how many seconds of the queue it waited. */
  datatype Visits = NoVisit | Visit(before: Visits, since: real, at: real, drained: real)

  datatype Holder = Free | Held(thread: Thread)

  datatype State = State(
    clock: real,
    lastUsed: real,
    holder: Holder,
    queue: seq<real>,
    places: map<Thread, Place>,
    // history
    drained: real,
    visits: Visits,
    put: seq<real>,
    taken: seq<real>,
    missed: bool)

  datatype Step =
    | Acquire(t: Thread)
    | ReadClock(t: Thread)
    | Wake(t: Thread)
    | Look(t: Thread)
    | Fetch(t: Thread)
    | Exit(t: Thread)
    | Release(t: Thread)
    | Snooze(seconds: real)
    | Tick(elapsed: real)

  function PlaceOf(s: State, t: Thread): Place {
    if t in s.places then s.places[t] else Outside
  }

  function Goes(s: State, t: Thread, p: Place): State {
    s.(places := s.places[t := p])
  }

  /** Waiting for the lock and for the end of a sleep is not to have the step yet. */
  predicate Enabled(s: State, a: Step) {
    match a
    case Acquire(t) => PlaceOf(s, t) == Outside && s.holder == Free
    case ReadClock(t) => PlaceOf(s, t) == Acquired
    case Wake(t) =>
      var p := PlaceOf(s, t);
      (p.Sleeping? || p.Snoozing?) && s.clock >= p.until
    case Look(t) => PlaceOf(s, t) == Looking
    case Fetch(t) => PlaceOf(s, t) == Fetching
    case Exit(t) => PlaceOf(s, t) == Inside
    case Release(t) => PlaceOf(s, t) == Leaving
    case Snooze(_) => true
    case Tick(elapsed) => elapsed >= 0.0
  }

  function AfterAcquire(s: State, t: Thread): State {
    Goes(s, t, Acquired).(holder := Held(t), drained := 0.0)
  }

  function AfterReadClock(s: State, t: Thread, minimumDelta: real): State {
    var sleep := minimumDelta - (s.clock - s.lastUsed);
    Goes(s, t, if sleep >= 0.0 then Sleeping(s.clock + sleep) else Looking)
  }

  function AfterLook(s: State, t: Thread): State {
    if s.queue == [] then Goes(s, t, Inside).(visits := Visit(s.visits, s.lastUsed, s.clock, s.drained))
    else Goes(s, t, Fetching)
  }

  /** A sleep of less than nothing is an error. */
  function AfterFetch(s: State, t: Thread): State {
    if s.queue == [] then Goes(s, t, Looking).(missed := true)
    else
      var seconds := s.queue[0];
      var next := s.(queue := s.queue[1..], taken := s.taken + [seconds], drained := s.drained + seconds);
      Goes(next, t, if seconds < 0.0 then Failed else Snoozing(s.clock + seconds))
  }

  function Next(s: State, a: Step, minimumDelta: real): State {
    if !Enabled(s, a) then s
    else
      match a
      case Acquire(t) => AfterAcquire(s, t)
      case ReadClock(t) => AfterReadClock(s, t, minimumDelta)
      case Wake(t) => Goes(s, t, Looking)
      case Look(t) => AfterLook(s, t)
      case Fetch(t) => AfterFetch(s, t)
      case Exit(t) => Goes(s, t, Leaving).(lastUsed := s.clock)
      case Release(t) => Goes(s, t, Outside).(holder := Free)
      case Snooze(seconds) => s.(queue := s.queue + [seconds], put := s.put + [seconds])
      case Tick(elapsed) => s.(clock := s.clock + elapsed)
  }

  /** A schedule: any steps of any threads in any order, the last one outermost. */
  datatype Schedule = Start | Then(before: Schedule, step: Step)

  function Initial(clock: real): State {
    State(clock, 0.0, Free, [], map[], 0.0, NoVisit, [], [], false)
  }

  function RunFrom(s: State, schedule: Schedule, minimumDelta: real): State {
    match schedule
    case Start => s
    case Then(before, step) => Next(RunFrom(s, before, minimumDelta), step, minimumDelta)
  }

  function Run(clock: real, schedule: Schedule, minimumDelta: real): State {
    RunFrom(Initial(clock), schedule, minimumDelta)
  }

  // ----- what every step keeps -----

  /** A thread is at work exactly when it has the lock. */
  ghost predicate OneHolder(s: State) {
    forall t :: PlaceOf(s, t) != Outside <==> s.holder == Held(t)
  }

  function HolderPlace(s: State): Place {
    match s.holder
    case Free => Outside
    case Held(t) => PlaceOf(s, t)
  }

  /** The earliest time at which the holder may get in. */
  function Due(s: State, minimumDelta: real): real {
    s.lastUsed + minimumDelta + s.drained
  }

  /** How far the holder has got, and what it has waited for. */
  predicate InTime(s: State, minimumDelta: real) {
    match HolderPlace(s)
    case Outside | Leaving | Failed => true
    case Acquired => s.drained == 0.0
    case Sleeping(until) => until >= Due(s, minimumDelta)
    case Looking => s.clock >= Due(s, minimumDelta)
    case Fetching => s.clock >= Due(s, minimumDelta) && s.queue != []
    case Snoozing(until) => until >= Due(s, minimumDelta)
    case Inside => s.visits.Visit? && s.clock >= s.visits.at
  }

  /** Every entry came the interval and the queued time later than the last use, and that use was not
      before the previous entry. */
  predicate Spaced(v: Visits, minimumDelta: real) {
    v.NoVisit? || (
      && v.at >= v.since + minimumDelta + v.drained
      && (v.before.Visit? ==> v.since >= v.before.at)
      && Spaced(v.before, minimumDelta))
  }

  predicate UsedLast(s: State) {
    s.visits.Visit? && HolderPlace(s) != Inside ==> s.lastUsed >= s.visits.at
  }

  function Sum(q: seq<real>): real {
    if q == [] then 0.0 else Sum(q[..|q| - 1]) + q[|q| - 1]
  }

  function TotalDrained(v: Visits): real {
    if v.NoVisit? then 0.0 else TotalDrained(v.before) + v.drained
  }

  /** Seconds of the queue that the holder has taken on the way in. */
  function Pending(s: State): real {
    match HolderPlace(s)
    case Outside | Inside | Leaving => 0.0
    case _ => s.drained
  }

  /** First in, first out, nothing lost, and everything taken has delayed one entry. */
  predicate Accounted(s: State) {
    s.put == s.taken + s.queue && !s.missed && TotalDrained(s.visits) + Pending(s) == Sum(s.taken)
  }

  ghost predicate Valid(s: State, minimumDelta: real) {
    OneHolder(s) && InTime(s, minimumDelta) && Spaced(s.visits, minimumDelta) && UsedLast(s) && Accounted(s)
  }

  lemma {:induction false} SumAppend(q: seq<real>, x: real)
    ensures Sum(q + [x]) == Sum(q) + x
  {
    assert (q + [x])[..|q|] == q;
  }

  lemma {:induction false} HolderAt(s: State, t: Thread)
    requires OneHolder(s) && PlaceOf(s, t) != Outside
    ensures s.holder == Held(t) && HolderPlace(s) == PlaceOf(s, t)
  {
  }

  lemma {:induction false} AcquireKeeps(s: State, t: Thread, minimumDelta: real)
    requires Valid(s, minimumDelta) && Enabled(s, Acquire(t))
    ensures Valid(AfterAcquire(s, t), minimumDelta)
  {
  }

  lemma {:induction false} ReadClockKeeps(s: State, t: Thread, minimumDelta: real)
    requires Valid(s, minimumDelta) && Enabled(s, ReadClock(t))
    ensures Valid(AfterReadClock(s, t, minimumDelta), minimumDelta)
  {
    HolderAt(s, t);
  }

  lemma {:induction false} LookKeeps(s: State, t: Thread, minimumDelta: real)
    requires Valid(s, minimumDelta) && Enabled(s, Look(t))
    ensures Valid(AfterLook(s, t), minimumDelta)
  {
    HolderAt(s, t);
  }

  lemma {:induction false} MoveHead(taken: seq<real>, queue: seq<real>)
    requires queue != []
    ensures taken + queue == taken + [queue[0]] + queue[1..]
  {
  }

  lemma {:induction false} FetchKeeps(s: State, t: Thread, minimumDelta: real)
    requires Valid(s, minimumDelta) && Enabled(s, Fetch(t))
    ensures Valid(AfterFetch(s, t), minimumDelta)
  {
    HolderAt(s, t);
    SumAppend(s.taken, s.queue[0]);
    MoveHead(s.taken, s.queue);
  }

  lemma {:induction false} NextKeeps(s: State, a: Step, minimumDelta: real)
    requires Valid(s, minimumDelta)
    ensures Valid(Next(s, a, minimumDelta), minimumDelta)
  {
    if Enabled(s, a) {
      match a
      case Acquire(t) => AcquireKeeps(s, t, minimumDelta);
      case ReadClock(t) => ReadClockKeeps(s, t, minimumDelta);
      case Wake(t) => HolderAt(s, t);
      case Look(t) => LookKeeps(s, t, minimumDelta);
      case Fetch(t) => FetchKeeps(s, t, minimumDelta);
      case Exit(t) => HolderAt(s, t);
      case Release(t) => HolderAt(s, t);
      case Snooze(seconds) => assert s.put + [seconds] == s.taken + (s.queue + [seconds]);
      case Tick(_) =>
    }
  }

  lemma {:induction false} RunFromIsValid(s: State, schedule: Schedule, minimumDelta: real)
    requires Valid(s, minimumDelta)
    ensures Valid(RunFrom(s, schedule, minimumDelta), minimumDelta)
  {
    match schedule
    case Start =>
    case Then(before, step) =>
      RunFromIsValid(s, before, minimumDelta);
      NextKeeps(RunFrom(s, before, minimumDelta), step, minimumDelta);
  }

  lemma {:induction false} RunIsValid(clock: real, schedule: Schedule, minimumDelta: real)
    ensures Valid(Run(clock, schedule, minimumDelta), minimumDelta)
  {
    RunFromIsValid(Initial(clock), schedule, minimumDelta);
  }

  // ----- what follows for every schedule -----

  /** Two threads are never at work at once. */
  lemma {:induction false} OneAtATime(clock: real, schedule: Schedule, minimumDelta: real, t: Thread, u: Thread)
    requires var s := Run(clock, schedule, minimumDelta); PlaceOf(s, t) != Outside && PlaceOf(s, u) != Outside
    ensures t == u
  {
    RunIsValid(clock, schedule, minimumDelta);
  }

  function Count(v: Visits): nat {
    if v.NoVisit? then 0 else Count(v.before) + 1
  }

  function First(v: Visits): (first: Visits)
    requires v.Visit?
    ensures first.Visit? && first.before.NoVisit?
  {
    if v.before.NoVisit? then v else First(v.before)
  }

  /** A number of intervals; `IntervalsMultiply` has the product. */
  function Intervals(n: nat, minimumDelta: real): real {
    if n == 0 then 0.0 else Intervals(n - 1, minimumDelta) + minimumDelta
  }

  lemma {:induction false} OneMoreTime(n: real, x: real)
    ensures (n + 1.0) * x == n * x + x
  {
  }

  lemma {:induction false} IntervalsMultiply(n: nat, minimumDelta: real)
    ensures Intervals(n, minimumDelta) == n as real * minimumDelta
  {
    if n > 0 {
      IntervalsMultiply(n - 1, minimumDelta);
      OneMoreTime((n - 1) as real, minimumDelta);
      assert n as real == (n - 1) as real + 1.0;
    }
  }

  lemma {:induction false} SpacedSpan(v: Visits, minimumDelta: real)
    requires v.Visit? && Spaced(v, minimumDelta)
    ensures v.at - First(v).at
         >= Intervals(Count(v) - 1, minimumDelta) + TotalDrained(v) - First(v).drained
  {
    if v.before.Visit? { SpacedSpan(v.before, minimumDelta); }
  }

  /** From the first of N entries to the last it takes at least N - 1 intervals and what the entries
      after the first have waited for the queue. */
  lemma {:induction false} EntriesSpan(clock: real, schedule: Schedule, minimumDelta: real)
    requires Run(clock, schedule, minimumDelta).visits.Visit?
    ensures var v := Run(clock, schedule, minimumDelta).visits;
            v.at - First(v).at >= Intervals(Count(v) - 1, minimumDelta) + TotalDrained(v) - First(v).drained
  {
    RunIsValid(clock, schedule, minimumDelta);
    var v := Run(clock, schedule, minimumDelta).visits;
    SpacedSpan(v, minimumDelta);
  }

  /** A thread that gets in does so no earlier than the interval and the queued times it slept after the
      last use. */
  lemma {:induction false} EntryIsDue(clock: real, schedule: Schedule, minimumDelta: real, t: Thread)
    requires PlaceOf(Run(clock, schedule, minimumDelta), t) != Inside
    requires PlaceOf(Run(clock, Then(schedule, Look(t)), minimumDelta), t) == Inside
    ensures var s := Run(clock, schedule, minimumDelta);
            s.clock >= s.lastUsed + minimumDelta + s.drained && s.queue == []
  {
    RunIsValid(clock, schedule, minimumDelta);
    var s := Run(clock, schedule, minimumDelta);
    assert Enabled(s, Look(t));
    HolderAt(s, t);
  }

  lemma {:induction false} SumTogether(a: seq<real>, b: seq<real>)
    ensures Sum(a + b) == Sum(a) + Sum(b)
  {
    if b == [] {
      assert a + b == a;
    } else {
      var front := b[..|b| - 1];
      SumTogether(a, front);
      assert (a + b)[..|a + b| - 1] == a + front;
    }
  }

  /** Every snooze is taken once, in the order in which they were put; what has been put is what the
      entries have waited, what the holder has taken on its way in, and what is still queued. The queue
      is never found empty where an item was expected. */
  lemma {:induction false} SnoozesAreConserved(clock: real, schedule: Schedule, minimumDelta: real)
    ensures var s := Run(clock, schedule, minimumDelta);
            && s.put == s.taken + s.queue
            && Sum(s.put) == TotalDrained(s.visits) + Pending(s) + Sum(s.queue)
            && !s.missed
  {
    RunIsValid(clock, schedule, minimumDelta);
    var s := Run(clock, schedule, minimumDelta);
    SumTogether(s.taken, s.queue);
  }

  /** Some snooze that was taken was negative. */
  predicate TookNegative(s: State) {
    exists k | 0 <= k < |s.taken| :: s.taken[k] < 0.0
  }

  /** A thread has failed exactly when a negative snooze was taken. */
  ghost predicate FailsOnNegative(s: State) {
    (exists t :: PlaceOf(s, t) == Failed) <==> TookNegative(s)
  }

  lemma {:induction false} TakingOne(s: State, t: Thread)
    requires OneHolder(s) && PlaceOf(s, t) == Fetching && s.queue != []
    ensures TookNegative(AfterFetch(s, t)) <==> TookNegative(s) || s.queue[0] < 0.0
    ensures FailsOnNegative(s) ==> FailsOnNegative(AfterFetch(s, t))
  {
    var next := AfterFetch(s, t);
    assert next.taken[..|s.taken|] == s.taken && next.taken[|s.taken|] == s.queue[0];
    if k :| 0 <= k < |s.taken| && s.taken[k] < 0.0 { assert next.taken[k] < 0.0; }
    forall u ensures PlaceOf(s, u) != Failed && (u != t ==> PlaceOf(next, u) != Failed) {
      if u != t { assert PlaceOf(s, u) == Outside; }
    }
    assert PlaceOf(next, t) == Failed <==> s.queue[0] < 0.0;
  }

  lemma {:induction false} NextFailsOnNegative(s: State, a: Step, minimumDelta: real)
    requires Valid(s, minimumDelta) && FailsOnNegative(s)
    ensures FailsOnNegative(Next(s, a, minimumDelta))
  {
    var next := Next(s, a, minimumDelta);
    if Enabled(s, a) && a.Fetch? {
      HolderAt(s, a.t);
      TakingOne(s, a.t);
    } else {
      assert next.taken == s.taken;
      forall t ensures PlaceOf(next, t) == Failed <==> PlaceOf(s, t) == Failed {
      }
    }
  }

  /** In every run a thread has failed if and only if a negative snooze was taken from the queue. */
  lemma {:induction false} FailureExact(clock: real, schedule: Schedule, minimumDelta: real)
    ensures var s := Run(clock, schedule, minimumDelta);
            (exists t :: PlaceOf(s, t) == Failed) <==> exists k | 0 <= k < |s.taken| :: s.taken[k] < 0.0
  {
    if schedule.Then? {
      FailureExact(clock, schedule.before, minimumDelta);
      RunIsValid(clock, schedule.before, minimumDelta);
      NextFailsOnNegative(Run(clock, schedule.before, minimumDelta), schedule.step, minimumDelta);
    }
  }

  /** A negative snooze leaves __enter__ with an exception. From then on the lock is never released, and
      nobody gets in any more, whatever happens. */
  lemma {:induction false} FailureIsForever(s: State, t: Thread, schedule: Schedule, minimumDelta: real)
    requires Valid(s, minimumDelta) && PlaceOf(s, t) == Failed
    ensures var later := RunFrom(s, schedule, minimumDelta);
            PlaceOf(later, t) == Failed && later.holder == Held(t) && later.visits == s.visits
  {
    match schedule
    case Start =>
      HolderAt(s, t);
    case Then(before, step) =>
      FailureIsForever(s, t, before, minimumDelta);
      RunFromIsValid(s, before, minimumDelta);
      FailureStays(RunFrom(s, before, minimumDelta), t, step, minimumDelta);
  }

  lemma {:induction false} FailureStays(s: State, t: Thread, a: Step, minimumDelta: real)
    requires Valid(s, minimumDelta) && PlaceOf(s, t) == Failed
    ensures var next := Next(s, a, minimumDelta);
            PlaceOf(next, t) == Failed && next.holder == Held(t) && next.visits == s.visits
  {
    HolderAt(s, t);
  }

  // ----- from the arrival of the first thread -----

  /** What is left of the interval. */
  function Left(s: State, minimumDelta: real): real {
    var sleep := minimumDelta - (s.clock - s.lastUsed);
    if sleep >= 0.0 then sleep else 0.0
  }

  /** The time `n` entries take from the moment at which the lock is in state `s`. */
  function Span(s: State, n: nat, minimumDelta: real): real
    requires n > 0
  {
    Intervals(n - 1, minimumDelta) + Left(s, minimumDelta)
  }

  /** How a run goes on from a state in which the lock was free. */
  ghost predicate Paced(s: State, later: State, minimumDelta: real) {
    var n := Count(later.visits) - Count(s.visits);
    && n >= 0 && later.clock >= s.clock
    && (HolderPlace(later) != Outside && HolderPlace(later) != Failed ==> later.drained >= 0.0)
    && (n == 0 ==> later.lastUsed == s.lastUsed && HolderPlace(later) != Inside && HolderPlace(later) != Leaving)
    && (n > 0 ==> later.visits.Visit? && later.visits.at >= s.clock + Span(s, n, minimumDelta))
  }

  lemma {:induction false} EntryIsPaced(s: State, later: State, t: Thread, minimumDelta: real)
    requires Valid(later, minimumDelta) && Paced(s, later, minimumDelta)
    requires PlaceOf(later, t) == Looking && later.queue == []
    ensures Paced(s, AfterLook(later, t), minimumDelta)
  {
    HolderAt(later, t);
    assert HolderPlace(AfterLook(later, t)) == Inside;
  }

  lemma {:induction false} StepIsPaced(s: State, later: State, a: Step, minimumDelta: real)
    requires Valid(later, minimumDelta) && Paced(s, later, minimumDelta)
    ensures Paced(s, Next(later, a, minimumDelta), minimumDelta)
  {
    if Enabled(later, a) {
      match a
      case Acquire(t) =>
      case ReadClock(t) => HolderAt(later, t);
      case Wake(t) => HolderAt(later, t);
      case Look(t) =>
        HolderAt(later, t);
        if later.queue == [] { EntryIsPaced(s, later, t, minimumDelta); }
      case Fetch(t) => HolderAt(later, t);
      case Exit(t) => HolderAt(later, t);
      case Release(t) => HolderAt(later, t);
      case Snooze(_) =>
      case Tick(_) =>
    }
  }

  lemma {:induction false} RunIsPaced(s: State, schedule: Schedule, minimumDelta: real)
    requires Valid(s, minimumDelta) && s.holder == Free
    ensures Paced(s, RunFrom(s, schedule, minimumDelta), minimumDelta)
  {
    if schedule.Then? {
      RunIsPaced(s, schedule.before, minimumDelta);
      RunFromIsValid(s, schedule.before, minimumDelta);
      StepIsPaced(s, RunFrom(s, schedule.before, minimumDelta), schedule.step, minimumDelta);
    }
  }

  /** Whatever the threads do from a state in which the lock is free, the last of N more entries comes
      N - 1 intervals and what is left of the running one later, at the earliest. */
  lemma {:induction false} EntriesTake(s: State, schedule: Schedule, minimumDelta: real)
    requires Valid(s, minimumDelta) && s.holder == Free
    ensures var v := RunFrom(s, schedule, minimumDelta).visits;
            var n := Count(v) - Count(s.visits);
            n > 0 ==> v.Visit? && v.at - s.clock >= Intervals(n - 1, minimumDelta) + Left(s, minimumDelta)
  {
    RunIsPaced(s, schedule, minimumDelta);
  }

  // ----- the bound is exact -----

  ghost predicate Idle(s: State) {
    s.holder == Free && forall t :: PlaceOf(s, t) == Outside
  }

  /** Idle, with nothing queued, and just used. */
  ghost predicate Rested(s: State) {
    Idle(s) && s.queue == [] && s.clock == s.lastUsed
  }

  predicate NoneNegative(q: seq<real>) {
    forall i | 0 <= i < |q| :: q[i] >= 0.0
  }

  lemma {:induction false} RunThen(s: State, before: Schedule, step: Step, minimumDelta: real)
    ensures RunFrom(s, Then(before, step), minimumDelta) == Next(RunFrom(s, before, minimumDelta), step, minimumDelta)
  {
  }

  /** Thread `t` takes the lock and waits for what is left of the interval, if anything is. */
  function Arrive(schedule: Schedule, t: Thread, s: State, minimumDelta: real): Schedule {
    var read := Then(Then(schedule, Acquire(t)), ReadClock(t));
    if minimumDelta - (s.clock - s.lastUsed) >= 0.0 then Then(Then(read, Tick(Left(s, minimumDelta))), Wake(t)) else read
  }

  /** `r` is `s` with `t` before the loop over the queue. */
  ghost predicate Arrived(s: State, t: Thread, r: State, minimumDelta: real) {
    r == s.(clock := s.clock + Left(s, minimumDelta), holder := Held(t), drained := 0.0, places := r.places)
    && PlaceOf(r, t) == Looking && forall u | u != t :: PlaceOf(r, u) == Outside
  }

  lemma {:induction false} ArriveAtOnce(s: State, t: Thread, minimumDelta: real)
    requires s.holder == Free && (forall u :: PlaceOf(s, u) == Outside)
    requires minimumDelta - (s.clock - s.lastUsed) < 0.0
    ensures Arrived(s, t, Next(Next(s, Acquire(t), minimumDelta), ReadClock(t), minimumDelta), minimumDelta)
  {
    var read := Next(Next(s, Acquire(t), minimumDelta), ReadClock(t), minimumDelta);
    forall u | u != t ensures PlaceOf(read, u) == Outside { assert PlaceOf(s, u) == Outside; }
  }

  lemma {:induction false} ArriveAfterSleep(s: State, t: Thread, minimumDelta: real)
    requires s.holder == Free && (forall u :: PlaceOf(s, u) == Outside)
    requires minimumDelta - (s.clock - s.lastUsed) >= 0.0
    ensures var read := Next(Next(s, Acquire(t), minimumDelta), ReadClock(t), minimumDelta);
            var later := Next(read, Tick(Left(s, minimumDelta)), minimumDelta);
            Arrived(s, t, Next(later, Wake(t), minimumDelta), minimumDelta)
  {
    var read := Next(Next(s, Acquire(t), minimumDelta), ReadClock(t), minimumDelta);
    assert PlaceOf(read, t) == Sleeping(s.clock + Left(s, minimumDelta));
    var later := Next(read, Tick(Left(s, minimumDelta)), minimumDelta);
    var awake := Next(later, Wake(t), minimumDelta);
    forall u | u != t ensures PlaceOf(awake, u) == Outside { assert PlaceOf(s, u) == Outside; }
  }

  lemma {:induction false} Arrives(s0: State, schedule: Schedule, t: Thread, minimumDelta: real)
    requires var s := RunFrom(s0, schedule, minimumDelta); s.holder == Free && forall u :: PlaceOf(s, u) == Outside
    ensures var s := RunFrom(s0, schedule, minimumDelta);
            Arrived(s, t, RunFrom(s0, Arrive(schedule, t, s, minimumDelta), minimumDelta), minimumDelta)
  {
    var s := RunFrom(s0, schedule, minimumDelta);
    var acquired := Then(schedule, Acquire(t));
    var read := Then(acquired, ReadClock(t));
    RunThen(s0, schedule, Acquire(t), minimumDelta);
    RunThen(s0, acquired, ReadClock(t), minimumDelta);
    if minimumDelta - (s.clock - s.lastUsed) >= 0.0 {
      var later := Then(read, Tick(Left(s, minimumDelta)));
      RunThen(s0, read, Tick(Left(s, minimumDelta)), minimumDelta);
      RunThen(s0, later, Wake(t), minimumDelta);
      ArriveAfterSleep(s, t, minimumDelta);
    } else {
      ArriveAtOnce(s, t, minimumDelta);
    }
  }

  // ----- draining the queue -----

  /** One round of the loop over the queue, in which the clock runs as long as the queued time. */
  function TakeOne(schedule: Schedule, t: Thread, seconds: real): Schedule {
    Then(Then(Then(Then(schedule, Look(t)), Fetch(t)), Tick(seconds)), Wake(t))
  }

  function Drain(schedule: Schedule, t: Thread, queue: seq<real>): Schedule
    decreases |queue|
  {
    if queue == [] then schedule else Drain(TakeOne(schedule, t, queue[0]), t, queue[1..])
  }

  /** Thread `t` is at the loop over the queue, and no other thread has begun. */
  ghost predicate Draining(r: State, t: Thread) {
    r.holder == Held(t) && PlaceOf(r, t) == Looking && forall u | u != t :: PlaceOf(r, u) == Outside
  }

  /** `later` is `r` after the times in `queue` were slept. */
  ghost predicate Slept(r: State, later: State, queue: seq<real>) {
    && later.holder == r.holder && later.lastUsed == r.lastUsed && later.visits == r.visits
    && later.clock == r.clock + Sum(queue) && later.drained == r.drained + Sum(queue)
    && r.queue == queue + later.queue
  }

  lemma {:induction false} TakesOne(r: State, t: Thread, minimumDelta: real)
    requires Draining(r, t) && r.queue != [] && r.queue[0] >= 0.0
    ensures var taken := Next(Next(r, Look(t), minimumDelta), Fetch(t), minimumDelta);
            var later := Next(Next(taken, Tick(r.queue[0]), minimumDelta), Wake(t), minimumDelta);
            Draining(later, t) && Slept(r, later, [r.queue[0]])
  {
    var looked := Next(r, Look(t), minimumDelta);
    assert PlaceOf(looked, t) == Fetching;
    var taken := Next(looked, Fetch(t), minimumDelta);
    assert PlaceOf(taken, t) == Snoozing(r.clock + r.queue[0]);
    var later := Next(Next(taken, Tick(r.queue[0]), minimumDelta), Wake(t), minimumDelta);
    forall u | u != t ensures PlaceOf(later, u) == Outside { assert PlaceOf(r, u) == Outside; }
    SumOne(r.queue[0]);
  }

  lemma {:induction false} SumOne(x: real)
    ensures Sum([x]) == x
  {
    SumAppend([], x);
    assert [] + [x] == [x];
  }

  lemma {:induction false} RunTakeOne(s0: State, schedule: Schedule, t: Thread, seconds: real, minimumDelta: real)
    ensures var r := RunFrom(s0, schedule, minimumDelta);
            var taken := Next(Next(r, Look(t), minimumDelta), Fetch(t), minimumDelta);
            RunFrom(s0, TakeOne(schedule, t, seconds), minimumDelta)
            == Next(Next(taken, Tick(seconds), minimumDelta), Wake(t), minimumDelta)
  {
    RunThen(s0, schedule, Look(t), minimumDelta);
    RunThen(s0, Then(schedule, Look(t)), Fetch(t), minimumDelta);
    RunThen(s0, Then(Then(schedule, Look(t)), Fetch(t)), Tick(seconds), minimumDelta);
    RunThen(s0, Then(Then(Then(schedule, Look(t)), Fetch(t)), Tick(seconds)), Wake(t), minimumDelta);
  }

  lemma {:induction false} SleptTwice(a: State, b: State, c: State, x: seq<real>, y: seq<real>)
    requires Slept(a, b, x) && Slept(b, c, y)
    ensures Slept(a, c, x + y)
  {
    SumTogether(x, y);
    assert x + y + c.queue == x + (y + c.queue);
  }

  /** The queue is empty the sum of its times later. */
  lemma {:induction false} Drains(s0: State, schedule: Schedule, t: Thread, queue: seq<real>, minimumDelta: real)
    requires var r := RunFrom(s0, schedule, minimumDelta);
             Draining(r, t) && r.queue == queue && NoneNegative(queue)
    ensures var later := RunFrom(s0, Drain(schedule, t, queue), minimumDelta);
            Draining(later, t) && later.queue == [] && Slept(RunFrom(s0, schedule, minimumDelta), later, queue)
    decreases |queue|
  {
    var r := RunFrom(s0, schedule, minimumDelta);
    if queue != [] {
      var next := TakeOne(schedule, t, queue[0]);
      RunTakeOne(s0, schedule, t, queue[0], minimumDelta);
      TakesOne(r, t, minimumDelta);
      var b := RunFrom(s0, next, minimumDelta);
      assert b.queue == queue[1..];
      Drains(s0, next, t, queue[1..], minimumDelta);
      SleptTwice(r, b, RunFrom(s0, Drain(next, t, queue[1..]), minimumDelta), [queue[0]], queue[1..]);
      assert [queue[0]] + queue[1..] == queue;
    }
  }

  function EnterAndLeave(schedule: Schedule, t: Thread, s: State, minimumDelta: real): Schedule {
    Then(Then(Then(Drain(Arrive(schedule, t, s, minimumDelta), t, s.queue), Look(t)), Exit(t)), Release(t))
  }

  lemma {:induction false} LooksAndLeaves(r: State, t: Thread, minimumDelta: real)
    requires r.holder == Held(t) && r.queue == [] && PlaceOf(r, t) == Looking
    requires forall u | u != t :: PlaceOf(r, u) == Outside
    ensures var after := Next(Next(Next(r, Look(t), minimumDelta), Exit(t), minimumDelta), Release(t), minimumDelta);
            Rested(after) && after.clock == r.clock && after.visits == Visit(r.visits, r.lastUsed, r.clock, r.drained)
  {
    var inside := Next(r, Look(t), minimumDelta);
    var leaving := Next(inside, Exit(t), minimumDelta);
    assert PlaceOf(inside, t) == Inside && PlaceOf(leaving, t) == Leaving;
    var after := Next(leaving, Release(t), minimumDelta);
    forall u ensures PlaceOf(after, u) == Outside {
      if u != t { assert PlaceOf(r, u) == Outside; }
    }
  }

  /** One entry as soon as the lock lets it in. */
  lemma {:induction false} EntersAndLeaves(s0: State, schedule: Schedule, t: Thread, minimumDelta: real)
    requires var s := RunFrom(s0, schedule, minimumDelta); Idle(s) && NoneNegative(s.queue)
    ensures var s := RunFrom(s0, schedule, minimumDelta);
            var after := RunFrom(s0, EnterAndLeave(schedule, t, s, minimumDelta), minimumDelta);
            && Rested(after) && after.clock == s.clock + Left(s, minimumDelta) + Sum(s.queue)
            && after.visits == Visit(s.visits, s.lastUsed, after.clock, Sum(s.queue))
  {
    var s := RunFrom(s0, schedule, minimumDelta);
    var drained := Drain(Arrive(schedule, t, s, minimumDelta), t, s.queue);
    Arrives(s0, schedule, t, minimumDelta);
    Drains(s0, Arrive(schedule, t, s, minimumDelta), t, s.queue, minimumDelta);
    RunThen(s0, drained, Look(t), minimumDelta);
    RunThen(s0, Then(drained, Look(t)), Exit(t), minimumDelta);
    RunThen(s0, Then(Then(drained, Look(t)), Exit(t)), Release(t), minimumDelta);
    LooksAndLeaves(RunFrom(s0, drained, minimumDelta), t, minimumDelta);
  }

  /** From any idle state and for every N there is a schedule with N more entries that takes no longer, but
      for the times that are queued, and these it takes exactly. */
  lemma {:induction false} BoundIsReached(s: State, n: nat, minimumDelta: real) returns (schedule: Schedule)
    requires Idle(s) && NoneNegative(s.queue) && n > 0 && minimumDelta >= 0.0
    ensures var after := RunFrom(s, schedule, minimumDelta);
            && Rested(after) && Count(after.visits) == Count(s.visits) + n && after.visits.Visit?
            && after.visits.at == after.clock == s.clock + Span(s, n, minimumDelta) + Sum(s.queue)
  {
    if n == 1 {
      schedule := EnterAndLeave(Start, 0, s, minimumDelta);
      EntersAndLeaves(s, Start, 0, minimumDelta);
    } else {
      var before := BoundIsReached(s, n - 1, minimumDelta);
      var rested := RunFrom(s, before, minimumDelta);
      schedule := EnterAndLeave(before, n, rested, minimumDelta);
      EntersAndLeaves(s, before, n, minimumDelta);
    }
  }

  /** What the documentation promises of N more entries: they take N intervals. */
  ghost predicate Promise(s: State, n: nat, minimumDelta: real) {
    forall schedule: Schedule {:induction false} ::
      var v := RunFrom(s, schedule, minimumDelta).visits;
      v.Visit? && Count(v) == Count(s.visits) + n ==> v.at - s.clock >= Intervals(n, minimumDelta)
  }

  /** The promise holds exactly when there is no interval, or the first of the threads comes no later
      than the last use. */
  lemma {:induction false} PromiseExact(s: State, n: nat, minimumDelta: real)
    requires Valid(s, minimumDelta) && Idle(s) && s.queue == [] && n > 0 && minimumDelta >= 0.0
    ensures Promise(s, n, minimumDelta) <==> minimumDelta == 0.0 || s.clock <= s.lastUsed
  {
    forall schedule: Schedule {
      EntriesTake(s, schedule, minimumDelta);
    }
    var schedule := BoundIsReached(s, n, minimumDelta);
    var v := RunFrom(s, schedule, minimumDelta).visits;
    assert v.at - s.clock == Intervals(n - 1, minimumDelta) + Left(s, minimumDelta);
  }

  /** A fresh lock on a clock that counts from 1970 never keeps it. */
  lemma {:induction false} FreshLockBreaksPromise(clock: real, n: nat, minimumDelta: real)
    requires clock > 0.0 && n > 0 && minimumDelta > 0.0
    ensures !Promise(Initial(clock), n, minimumDelta)
  {
    RunIsValid(clock, Start, minimumDelta);
    PromiseExact(Initial(clock), n, minimumDelta);
  }

  // ----- the failure is reached -----

  /** A negative snooze put before the first entry makes that entry fail. */
  lemma {:induction false} FailureIsReached(clock: real, seconds: real, t: Thread,
                                            minimumDelta: real) returns (schedule: Schedule)
    requires seconds < 0.0
    ensures PlaceOf(Run(clock, schedule, minimumDelta), t) == Failed
  {
    var s0 := Initial(clock);
    var put := Then(Start, Snooze(seconds));
    RunThen(s0, Start, Snooze(seconds), minimumDelta);
    var s := RunFrom(s0, put, minimumDelta);
    assert s.queue == [seconds];
    Arrives(s0, put, t, minimumDelta);
    var arrive := Arrive(put, t, s, minimumDelta);
    RunThen(s0, arrive, Look(t), minimumDelta);
    RunThen(s0, Then(arrive, Look(t)), Fetch(t), minimumDelta);
    schedule := Then(Then(arrive, Look(t)), Fetch(t));
    var looking := RunFrom(s0, arrive, minimumDelta);
    assert PlaceOf(looking, t) == Looking && looking.queue == [seconds];
    assert PlaceOf(Next(looking, Look(t), minimumDelta), t) == Fetching;
  }

  // ----- the lock in place -----

  /** The lock with the threads that use it. */
  class TimedLock {
    const minimumDelta: real
    var clock: real
    var lastUsed: real
    var holder: Holder
    var queue: seq<real>
    var places: map<Thread, Place>
    ghost var drained: real
    ghost var visits: Visits
    ghost var put: seq<real>
    ghost var taken: seq<real>
    ghost var missed: bool

    constructor (minimumDelta: real, clock: real)
      ensures this.minimumDelta == minimumDelta && Now() == Initial(clock)
    {
      this.minimumDelta, this.clock, lastUsed, holder, queue, places := minimumDelta, clock, 0.0, Free, [], map[];
      drained, visits, put, taken, missed := 0.0, NoVisit, [], [], false;
    }

    ghost function Now(): State
      reads this
    {
      State(clock, lastUsed, holder, queue, places, drained, visits, put, taken, missed)
    }

    method Acquire(t: Thread)
      requires Enabled(Now(), Step.Acquire(t))
      modifies this
      ensures Now() == Next(old(Now()), Step.Acquire(t), minimumDelta)
    {
      holder := Held(t);
      places := places[t := Acquired];
      drained := 0.0;
    }

    method ReadClock(t: Thread)
      requires Enabled(Now(), Step.ReadClock(t))
      modifies this
      ensures Now() == Next(old(Now()), Step.ReadClock(t), minimumDelta)
    {
      var delta := clock - lastUsed;
      var sleepAmount := minimumDelta - delta;
      places := places[t := if sleepAmount >= 0.0 then Sleeping(clock + sleepAmount) else Looking];
    }

    method Wake(t: Thread)
      requires Enabled(Now(), Step.Wake(t))
      modifies this
      ensures Now() == Next(old(Now()), Step.Wake(t), minimumDelta)
    {
      places := places[t := Looking];
    }

    method Look(t: Thread)
      requires Enabled(Now(), Step.Look(t))
      modifies this
      ensures Now() == Next(old(Now()), Step.Look(t), minimumDelta)
    {
      if queue != [] {
        places := places[t := Fetching];
      } else {
        places := places[t := Inside];
        visits := Visit(visits, lastUsed, clock, drained);
      }
    }

    method Fetch(t: Thread)
      requires Enabled(Now(), Step.Fetch(t))
      modifies this
      ensures Now() == Next(old(Now()), Step.Fetch(t), minimumDelta)
    {
      if queue == [] {
        missed := true;
        places := places[t := Looking];
        return;
      }
      var seconds := queue[0];
      queue := queue[1..];
      taken, drained := taken + [seconds], drained + seconds;
      places := places[t := if seconds < 0.0 then Failed else Snoozing(clock + seconds)];
    }

    method Exit(t: Thread)
      requires Enabled(Now(), Step.Exit(t))
      modifies this
      ensures Now() == Next(old(Now()), Step.Exit(t), minimumDelta)
    {
      lastUsed := clock;
      places := places[t := Leaving];
    }

    method Release(t: Thread)
      requires Enabled(Now(), Step.Release(t))
      modifies this
      ensures Now() == Next(old(Now()), Step.Release(t), minimumDelta)
    {
      holder := Free;
      places := places[t := Outside];
    }

    method Snooze(seconds: real)
      modifies this
      ensures Now() == Next(old(Now()), Step.Snooze(seconds), minimumDelta)
    {
      queue := queue + [seconds];
      put := put + [seconds];
    }
  }
}

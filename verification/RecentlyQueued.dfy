/** What the recently added queue holds, told from the events alone.

    The handler's transition is described by what each kind of event does, and over whole runs by the
    items that wait: those created whose timer has not fired since, with the items above them. */
module RecentlyQueued {
  import opened RecentlyAdded

  // ----- the events that count -----

  /** A library item was created. */
  predicate Creates(t: Timeline) {
    && t.isItem && t.isLibrary && t.sectionId > 0 && t.state == 0 && t.metadataState == Created
    && t.mediaType != OtherMedia && t.mediaType != NoMedia
  }

  /** A library item was deleted. */
  predicate Deletes(t: Timeline) {
    t.isItem && t.isLibrary && t.state == 9 && t.metadataState == Deleted
  }

  // ----- one event -----

  /** The key has these children now, and had those of them before that are not `more`. */
  ghost predicate Gains(q: Queue, q': Queue, k: Key, more: set<Key>) {
    k in q' && q'[k] == (if k in q then q[k] else {}) + more
  }

  ghost predicate OthersStay(q: Queue, q': Queue, keys: set<Key>) {
    && q'.Keys == q.Keys + keys
    && forall k | k in q && k !in keys :: q'[k] == q[k]
  }

  /** A new episode or track is queued and leads back to its show or artist, is filed under its season or
      album, and that under the show or artist, whose timer starts anew. */
  lemma {:induction false} NewEpisode(s: State, t: Timeline, now: int, delay: nat)
    requires Creates(t) && (t.mediaType == Episode || t.mediaType == Track)
    requires t.ratingKey != t.parent && t.ratingKey != t.grandparent && t.parent != t.grandparent
    ensures var s' := Next(s, Arrives(t, now), delay);
            && Gains(s.queue, s'.queue, t.grandparent, {t.parent})
            && Gains(s.queue, s'.queue, t.parent, {t.ratingKey})
            && t.ratingKey in s'.queue && s'.queue[t.ratingKey] == {t.grandparent}
            && OthersStay(s.queue, s'.queue, {t.grandparent, t.parent, t.ratingKey})
            && s'.jobs == s.jobs[t.grandparent := now + delay]
  {
  }

  /** A new season or album is filed under its show or artist. */
  lemma {:induction false} NewSeason(s: State, t: Timeline, now: int, delay: nat)
    requires Creates(t) && (t.mediaType == Season || t.mediaType == Album)
    ensures var s' := Next(s, Arrives(t, now), delay);
            && Gains(s.queue, s'.queue, t.parent, {t.ratingKey}) && OthersStay(s.queue, s'.queue, {t.parent})
            && s'.jobs == s.jobs[t.parent := now + delay]
  {
  }

  /** A new movie, show or artist is queued with what is filed under it already. */
  lemma {:induction false} NewRoot(s: State, t: Timeline, now: int, delay: nat)
    requires Creates(t) && (t.mediaType == Movie || t.mediaType == Show || t.mediaType == Artist)
    ensures var s' := Next(s, Arrives(t, now), delay);
            && Gains(s.queue, s'.queue, t.ratingKey, {}) && OthersStay(s.queue, s'.queue, {t.ratingKey})
            && s'.jobs == s.jobs[t.ratingKey := now + delay]
  {
  }

  lemma {:induction false} FirstStep(q: Queue, p: seq<Key>)
    requires IsPath(q, p) && |p| > 1
    ensures p[0] in q && p[1] in q[p[0]]
  {
    assert p[0 + 1] in q[p[0]];
  }

  lemma {:induction false} NothingReached(q: Queue, k: Key)
    requires k in q && q[k] == {}
    ensures Kept(q, {k}) == q - {k}
  {
    forall x, p | x in q && Leads(q, {k}, x, p) ensures x == k {
      if |p| > 1 { FirstStep(q, p); }
    }
    assert Leads(q, {k}, k, [k]);
  }

  /** A deleted item that is queued with nothing filed under it goes, with its timer. */
  lemma {:induction false} DeletedItem(s: State, t: Timeline, now: int, delay: nat)
    requires Deletes(t) && t.ratingKey in s.queue && s.queue[t.ratingKey] == {}
    ensures Next(s, Arrives(t, now), delay) == State(s.queue - {t.ratingKey}, s.jobs - {t.ratingKey})
  {
    NothingReached(s.queue, t.ratingKey);
  }

  /** No other event changes anything. */
  lemma {:induction false} OtherEvent(s: State, t: Timeline, now: int, delay: nat)
    requires !Creates(t) && !(Deletes(t) && t.ratingKey in s.queue && s.queue[t.ratingKey] == {})
    ensures Next(s, Arrives(t, now), delay) == s
  {
  }

  // ----- what waits -----

  ghost function Children(w: set<Key>, lib: Library, k: Key): set<Key> {
    set c | c in w && c != k && lib.Parent(c) == k
  }

  /** The items that still wait after the timer of `r` has fired. */
  ghost function Outside(w: set<Key>, lib: Library, r: Key): set<Key> {
    set k | k in w && lib.RootOf(k) != r
  }

  /** One event: a created item comes to wait, and so do those above it; the timer of a tree takes out the
      tree; and deleting a root under which nothing waits takes it out. */
  ghost function WaitingAfter(w: set<Key>, e: Event, lib: Library): set<Key> {
    match e
    case Arrives(t, _) =>
      if Creates(t) then w + {t.ratingKey, lib.Parent(t.ratingKey), lib.RootOf(t.ratingKey)}
      else if Deletes(t) && lib.Level(t.ratingKey) == Root && Children(w, lib, t.ratingKey) == {} then w - {t.ratingKey}
      else w
    case Fires(r, _) => Outside(w, lib, r)
  }

  /** The items that wait after these events. */
  ghost function Waiting(events: seq<Event>, lib: Library): set<Key> {
    if events == [] then {}
    else WaitingAfter(Waiting(events[..|events| - 1], lib), events[|events| - 1], lib)
  }

  /** When an item of the tree was last created. */
  ghost function LastCreation(events: seq<Event>, lib: Library, r: Key): int {
    if events == [] then 0
    else
      var e := events[|events| - 1];
      if e.Arrives? && Creates(e.timeline) && lib.RootOf(e.timeline.ratingKey) == r then e.now
      else LastCreation(events[..|events| - 1], lib, r)
  }

  ghost predicate Closed(w: set<Key>, lib: Library) {
    forall k | k in w :: lib.Parent(k) in w
  }

  /** An entry of the queue: for every item that waits, but no empty one for a season or album; with the
      waiting items below it, and for a bottom item with its root. */
  ghost predicate HoldsAt(q: Queue, w: set<Key>, lib: Library, k: Key) {
    && (k in q <==> k in w && (lib.Level(k) == Middle ==> Children(w, lib, k) != {}))
    && (k in q ==> q[k] == if lib.Level(k) == Bottom then {lib.RootOf(k)} else Children(w, lib, k))
  }

  ghost predicate Holds(q: Queue, w: set<Key>, lib: Library) {
    forall k :: HoldsAt(q, w, lib, k)
  }

  /** A timer: for every root that waits, due the delay after the last creation in its tree. */
  ghost predicate TimedAt(jobs: map<Key, int>, w: set<Key>, events: seq<Event>, delay: nat, lib: Library, r: Key) {
    && (r in jobs <==> r in w && lib.Level(r) == Root)
    && (r in jobs ==> jobs[r] == LastCreation(events, lib, r) + delay)
  }

  ghost predicate Timed(jobs: map<Key, int>, w: set<Key>, events: seq<Event>, delay: nat, lib: Library) {
    forall r :: TimedAt(jobs, w, events, delay, lib, r)
  }

  // ----- the queue after one event -----

  /** The items above an item. */
  lemma {:induction false} Above(lib: Library, k: Key)
    requires lib.Forest()
    ensures lib.Level(k) == Bottom ==> lib.Level(lib.Parent(k)) == Middle && lib.Level(lib.RootOf(k)) == Root
    ensures lib.Level(k) == Middle ==> lib.Level(lib.Parent(k)) == Root && lib.RootOf(k) == lib.Parent(k)
    ensures lib.Level(k) == Root ==> lib.Parent(k) == k == lib.RootOf(k)
    ensures lib.Level(lib.RootOf(k)) == Root && lib.Parent(lib.RootOf(k)) == lib.RootOf(k)
  {
  }

  lemma {:induction false} NoneBelow(w: set<Key>, lib: Library, k: Key)
    requires Closed(w, lib) && k !in w
    ensures Children(w, lib, k) == {}
  {
  }

  /** The items below `k` when `c` comes to wait. */
  lemma {:induction false} ChildrenMore(w: set<Key>, lib: Library, c: Key, k: Key)
    ensures Children(w + {c}, lib, k) == Children(w, lib, k) + if c != k && lib.Parent(c) == k then {c} else {}
  {
  }

  lemma {:induction false} SameAt(q: Queue, q': Queue, w: set<Key>, w': set<Key>, lib: Library, k: Key)
    requires HoldsAt(q, w, lib, k) && (k in q' <==> k in q) && (k in q ==> q'[k] == q[k])
    requires (k in w' <==> k in w) && Children(w', lib, k) == Children(w, lib, k)
    ensures HoldsAt(q', w', lib, k)
  {
  }

  lemma {:induction false} GainAt(q: Queue, q': Queue, w: set<Key>, w': set<Key>, lib: Library, k: Key, more: set<Key>)
    requires HoldsAt(q, w, lib, k) && Closed(w, lib) && Gains(q, q', k, more)
    requires lib.Level(k) == Root || (lib.Level(k) == Middle && more != {})
    requires k in w' && Children(w', lib, k) == Children(w, lib, k) + more
    ensures HoldsAt(q', w', lib, k)
  {
    if k !in w { NoneBelow(w, lib, k); }
  }

  lemma {:induction false} SeasonAt(q: Queue, q': Queue, w: set<Key>, w': set<Key>, lib: Library, k: Key)
    requires HoldsAt(q, w, lib, k) && Closed(w, lib) && (k in q' <==> k in q) && (k in q ==> q'[k] == q[k])
    requires lib.Level(k) == Middle && k in w' && Children(w', lib, k) == Children(w, lib, k)
    ensures HoldsAt(q', w', lib, k)
  {
    if k !in w { NoneBelow(w, lib, k); }
  }

  /** What waits after a creation. */
  ghost function With(w: set<Key>, lib: Library, k: Key): set<Key> {
    w + {k, lib.Parent(k), lib.RootOf(k)}
  }

  /** The items below `k` after the creation of `c`. */
  lemma {:induction false} ChildrenWith(w: set<Key>, lib: Library, c: Key, k: Key)
    requires lib.Forest()
    ensures Children(With(w, lib, c), lib, k)
         == Children(w, lib, k) + (if c != k && lib.Parent(c) == k then {c} else {})
            + (if lib.Parent(c) != k && lib.RootOf(c) == k then {lib.Parent(c)} else {})
  {
    var p, g := lib.Parent(c), lib.RootOf(c);
    Above(lib, c);
    assert With(w, lib, c) == w + {c} + {p} + {g};
    ChildrenMore(w, lib, c, k);
    ChildrenMore(w + {c}, lib, p, k);
    ChildrenMore(w + {c} + {p}, lib, g, k);
  }

  lemma {:induction false} EpisodeStep(q: Queue, q': Queue, w: set<Key>, lib: Library, c: Key)
    requires lib.Forest() && Closed(w, lib) && Holds(q, w, lib) && lib.Level(c) == Bottom
    requires Gains(q, q', lib.RootOf(c), {lib.Parent(c)}) && Gains(q, q', lib.Parent(c), {c})
    requires c in q' && q'[c] == {lib.RootOf(c)} && OthersStay(q, q', {lib.RootOf(c), lib.Parent(c), c})
    ensures Holds(q', With(w, lib, c), lib)
  {
    Above(lib, c);
    forall k ensures HoldsAt(q', With(w, lib, c), lib, k) {
      assert HoldsAt(q, w, lib, k);
      ChildrenWith(w, lib, c, k);
      if k == lib.RootOf(c) {
        GainAt(q, q', w, With(w, lib, c), lib, k, {lib.Parent(c)});
      } else if k == lib.Parent(c) {
        GainAt(q, q', w, With(w, lib, c), lib, k, {c});
      } else if k != c {
        SameAt(q, q', w, With(w, lib, c), lib, k);
      }
    }
  }

  lemma {:induction false} SeasonStep(q: Queue, q': Queue, w: set<Key>, lib: Library, c: Key)
    requires lib.Forest() && Closed(w, lib) && Holds(q, w, lib) && lib.Level(c) == Middle
    requires Gains(q, q', lib.Parent(c), {c}) && OthersStay(q, q', {lib.Parent(c)})
    ensures Holds(q', With(w, lib, c), lib)
  {
    Above(lib, c);
    forall k ensures HoldsAt(q', With(w, lib, c), lib, k) {
      assert HoldsAt(q, w, lib, k);
      ChildrenWith(w, lib, c, k);
      if k == lib.Parent(c) {
        GainAt(q, q', w, With(w, lib, c), lib, k, {c});
      } else if k == c {
        SeasonAt(q, q', w, With(w, lib, c), lib, k);
      } else {
        SameAt(q, q', w, With(w, lib, c), lib, k);
      }
    }
  }

  lemma {:induction false} RootStep(q: Queue, q': Queue, w: set<Key>, lib: Library, c: Key)
    requires lib.Forest() && Closed(w, lib) && Holds(q, w, lib) && lib.Level(c) == Root
    requires Gains(q, q', c, {}) && OthersStay(q, q', {c})
    ensures Holds(q', With(w, lib, c), lib)
  {
    Above(lib, c);
    forall k ensures HoldsAt(q', With(w, lib, c), lib, k) {
      assert HoldsAt(q, w, lib, k);
      ChildrenWith(w, lib, c, k);
      if k == c {
        GainAt(q, q', w, With(w, lib, c), lib, k, {});
      } else {
        SameAt(q, q', w, With(w, lib, c), lib, k);
      }
    }
  }

  lemma {:induction false} CreateStep(s: State, t: Timeline, now: int, delay: nat, w: set<Key>, lib: Library)
    requires lib.Forest() && Closed(w, lib) && Holds(s.queue, w, lib) && Creates(t) && Truthful(t, lib)
    ensures var s' := Next(s, Arrives(t, now), delay);
            && Holds(s'.queue, With(w, lib, t.ratingKey), lib)
            && s'.jobs == s.jobs[lib.RootOf(t.ratingKey) := now + delay]
  {
    var q' := Next(s, Arrives(t, now), delay).queue;
    Above(lib, t.ratingKey);
    match t.mediaType
    case Episode | Track =>
      NewEpisode(s, t, now, delay);
      EpisodeStep(s.queue, q', w, lib, t.ratingKey);
    case Season | Album =>
      NewSeason(s, t, now, delay);
      SeasonStep(s.queue, q', w, lib, t.ratingKey);
    case _ =>
      NewRoot(s, t, now, delay);
      RootStep(s.queue, q', w, lib, t.ratingKey);
  }

  /** Whether a deletion takes the item out of what waits. */
  ghost predicate Gone(w: set<Key>, lib: Library, k: Key) {
    lib.Level(k) == Root && Children(w, lib, k) == {}
  }

  lemma {:induction false} GoneIsEmpty(q: Queue, w: set<Key>, lib: Library, k: Key)
    requires Holds(q, w, lib)
    ensures k in q && q[k] == {} <==> k in w && Gone(w, lib, k)
  {
    assert HoldsAt(q, w, lib, k);
  }

  lemma {:induction false} WithoutOne(q: Queue, w: set<Key>, lib: Library, k: Key)
    requires lib.Forest() && Holds(q, w, lib) && lib.Level(k) == Root
    ensures Holds(q - {k}, w - {k}, lib)
  {
    Above(lib, k);
    forall x ensures HoldsAt(q - {k}, w - {k}, lib, x) {
      assert HoldsAt(q, w, lib, x);
      assert Children(w - {k}, lib, x) == Children(w, lib, x);
    }
  }

  lemma {:induction false} DeleteStep(s: State, t: Timeline, now: int, delay: nat, w: set<Key>, lib: Library)
    requires lib.Forest() && Holds(s.queue, w, lib) && Deletes(t)
    ensures var k, s' := t.ratingKey, Next(s, Arrives(t, now), delay);
            && Holds(s'.queue, if Gone(w, lib, k) then w - {k} else w, lib)
            && s'.jobs == if k in w && Gone(w, lib, k) then s.jobs - {k} else s.jobs
  {
    var k := t.ratingKey;
    GoneIsEmpty(s.queue, w, lib, k);
    if k in s.queue && s.queue[k] == {} {
      DeletedItem(s, t, now, delay);
      WithoutOne(s.queue, w, lib, k);
    } else {
      OtherEvent(s, t, now, delay);
      if Gone(w, lib, k) { assert w - {k} == w; }
    }
  }

  lemma {:induction false} ChildrenOutside(w: set<Key>, lib: Library, r: Key, k: Key)
    requires lib.Forest() && lib.RootOf(k) != r
    ensures Children(Outside(w, lib, r), lib, k) == Children(w, lib, k)
  {
    forall c | c in w && c != k && lib.Parent(c) == k ensures lib.RootOf(c) != r {
      Above(lib, c);
      Above(lib, k);
    }
  }

  lemma {:induction false} FireStep(s: State, r: Key, now: int, delay: nat, w: set<Key>, lib: Library)
    requires Filed(s.queue, lib) && Holds(s.queue, w, lib) && r in s.queue && lib.Level(r) == Root
    ensures Holds(Next(s, Fires(r, now), delay).queue, Outside(w, lib, r), lib)
  {
    KeptFromRoot(s.queue, lib, r);
    var q' := map k | k in s.queue && lib.RootOf(k) != r :: s.queue[k];
    assert Next(s, Fires(r, now), delay).queue == q';
    forall k ensures HoldsAt(q', Outside(w, lib, r), lib, k) {
      assert HoldsAt(s.queue, w, lib, k);
      if lib.RootOf(k) != r { ChildrenOutside(w, lib, r, k); }
    }
  }

  // ----- the timers after one event -----

  lemma {:induction false} LastNext(front: seq<Event>, e: Event, lib: Library, r: Key)
    ensures LastCreation(front + [e], lib, r)
         == if e.Arrives? && Creates(e.timeline) && lib.RootOf(e.timeline.ratingKey) == r then e.now
            else LastCreation(front, lib, r)
  {
    assert (front + [e])[..|front|] == front;
  }

  lemma {:induction false} CreateTimes(jobs: map<Key, int>, w: set<Key>, front: seq<Event>, e: Event, delay: nat,
                                       lib: Library)
    requires lib.Forest() && Timed(jobs, w, front, delay, lib) && e.Arrives? && Creates(e.timeline)
    ensures var c := e.timeline.ratingKey;
            Timed(jobs[lib.RootOf(c) := e.now + delay], With(w, lib, c), front + [e], delay, lib)
  {
    var c := e.timeline.ratingKey;
    var jobs', w', events := jobs[lib.RootOf(c) := e.now + delay], With(w, lib, c), front + [e];
    Above(lib, c);
    forall r ensures TimedAt(jobs', w', events, delay, lib, r) {
      assert TimedAt(jobs, w, front, delay, lib, r);
      LastNext(front, e, lib, r);
    }
  }

  lemma {:induction false} OtherTimes(jobs: map<Key, int>, jobs': map<Key, int>, w: set<Key>, w': set<Key>,
                                      front: seq<Event>, e: Event,
                   delay: nat, lib: Library)
    requires Timed(jobs, w, front, delay, lib) && !(e.Arrives? && Creates(e.timeline))
    requires forall r :: r in jobs' <==> r in jobs && r in w'
    requires w' <= w && forall r | r in jobs' :: jobs'[r] == jobs[r]
    ensures Timed(jobs', w', front + [e], delay, lib)
  {
    forall r ensures TimedAt(jobs', w', front + [e], delay, lib, r) {
      assert TimedAt(jobs, w, front, delay, lib, r);
      LastNext(front, e, lib, r);
    }
  }

  // ----- whole runs -----

  lemma {:induction false} WaitingIsClosed(events: seq<Event>, lib: Library)
    requires lib.Forest()
    ensures Closed(Waiting(events, lib), lib)
    decreases |events|
  {
    if events != [] {
      var before := Waiting(events[..|events| - 1], lib);
      WaitingIsClosed(events[..|events| - 1], lib);
      match events[|events| - 1]
      case Arrives(t, _) =>
        Above(lib, t.ratingKey);
        forall k | k in before && lib.Parent(k) == t.ratingKey && k != t.ratingKey
          ensures k in Children(before, lib, t.ratingKey)
        {
        }
      case Fires(r, _) =>
        forall k | k in before && lib.RootOf(k) != r ensures lib.RootOf(lib.Parent(k)) != r { Above(lib, k); }
    }
  }

  ghost predicate InStep(s: State, w: set<Key>, events: seq<Event>, delay: nat, lib: Library) {
    Holds(s.queue, w, lib) && Timed(s.jobs, w, events, delay, lib)
  }

  lemma {:induction false} WaitingNext(front: seq<Event>, e: Event, lib: Library)
    ensures Waiting(front + [e], lib) == WaitingAfter(Waiting(front, lib), e, lib)
  {
    assert (front + [e])[..|front|] == front;
  }

  lemma {:induction false} ArrivalStep(s: State, front: seq<Event>, t: Timeline, now: int, delay: nat, lib: Library)
    requires lib.Forest() && Closed(Waiting(front, lib), lib) && Truthful(t, lib)
    requires InStep(s, Waiting(front, lib), front, delay, lib)
    ensures InStep(Next(s, Arrives(t, now), delay), Waiting(front + [Arrives(t, now)], lib), front + [Arrives(t, now)],
                   delay, lib)
  {
    var w, e, k := Waiting(front, lib), Arrives(t, now), t.ratingKey;
    WaitingNext(front, e, lib);
    var s' := Next(s, e, delay);
    if Creates(t) {
      CreateStep(s, t, now, delay, w, lib);
      CreateTimes(s.jobs, w, front, e, delay, lib);
    } else if Deletes(t) {
      DeleteStep(s, t, now, delay, w, lib);
      forall r | r in s.jobs ensures r in w { assert TimedAt(s.jobs, w, front, delay, lib, r); }
      OtherTimes(s.jobs, s'.jobs, w, if Gone(w, lib, k) then w - {k} else w, front, e, delay, lib);
    } else {
      OtherEvent(s, t, now, delay);
      forall r | r in s.jobs ensures r in w { assert TimedAt(s.jobs, w, front, delay, lib, r); }
      OtherTimes(s.jobs, s.jobs, w, w, front, e, delay, lib);
    }
  }

  lemma {:induction false} FiringStep(s: State, front: seq<Event>, r: Key, now: int, delay: nat, lib: Library)
    requires Valid(s, lib) && r in s.jobs && InStep(s, Waiting(front, lib), front, delay, lib)
    ensures InStep(Next(s, Fires(r, now), delay), Waiting(front + [Fires(r, now)], lib), front + [Fires(r, now)],
                   delay, lib)
  {
    var w, e := Waiting(front, lib), Fires(r, now);
    WaitingNext(front, e, lib);
    FireStep(s, r, now, delay, w, lib);
    forall x | x in s.jobs ensures x in w && lib.RootOf(x) == x {
      assert TimedAt(s.jobs, w, front, delay, lib, x);
      Above(lib, x);
    }
    OtherTimes(s.jobs, s.jobs - {r}, w, Outside(w, lib, r), front, e, delay, lib);
  }

  /** Over every run the queue holds exactly what waits, and the timers are those of the roots that wait,
      each due the delay after the last creation in its tree. */
  lemma {:induction false} RunQueuesExactly(events: seq<Event>, delay: nat, lib: Library)
    requires lib.Forest() && Possible(events, delay, lib)
    ensures Holds(After(events, delay).queue, Waiting(events, lib), lib)
    ensures Timed(After(events, delay).jobs, Waiting(events, lib), events, delay, lib)
    decreases |events|
  {
    if events == [] {
      forall k ensures HoldsAt(map[], {}, lib, k) && TimedAt(map[], {}, [], delay, lib, k) {
      }
    } else {
      var front, e := events[..|events| - 1], events[|events| - 1];
      var s := After(front, delay);
      RunQueuesExactly(front, delay, lib);
      RunStaysValid(front, delay, lib);
      WaitingIsClosed(front, lib);
      match e {
        case Arrives(t, now) => ArrivalStep(s, front, t, now, delay, lib);
        case Fires(r, now) => FiringStep(s, front, r, now, delay, lib);
      }
      assert front + [e] == events;
    }
  }

  // ----- what that means for an item -----

  /** Some event creates the item, and after it neither does the timer of its tree fire nor is it
      deleted. */
  ghost predicate CreatedSince(events: seq<Event>, lib: Library, k: Key) {
    events != [] &&
    match events[|events| - 1]
    case Arrives(t, _) =>
      if Creates(t) && t.ratingKey == k then true
      else !(Deletes(t) && t.ratingKey == k) && CreatedSince(events[..|events| - 1], lib, k)
    case Fires(r, _) => r != lib.RootOf(k) && CreatedSince(events[..|events| - 1], lib, k)
  }

  lemma {:induction false} CreatedWaits(events: seq<Event>, lib: Library, k: Key)
    requires lib.Forest() && CreatedSince(events, lib, k)
    ensures k in Waiting(events, lib)
    decreases |events|
  {
    match events[|events| - 1]
    case Arrives(t, _) =>
      if !(Creates(t) && t.ratingKey == k) { CreatedWaits(events[..|events| - 1], lib, k); }
    case Fires(r, _) =>
      CreatedWaits(events[..|events| - 1], lib, k);
  }

  /** An item that was created since the last firing of its tree's timer and not deleted since is queued
      or filed, and the timer of its tree is due the delay after the last creation in it. */
  lemma {:induction false} CreatedIsQueued(events: seq<Event>, delay: nat, lib: Library, k: Key)
    requires lib.Forest() && Possible(events, delay, lib) && CreatedSince(events, lib, k)
    ensures var s, p, r := After(events, delay), lib.Parent(k), lib.RootOf(k);
            && (lib.Level(k) != Middle ==> k in s.queue)
            && (lib.Level(k) != Root ==> p in s.queue && k in s.queue[p] && r in s.queue)
            && (lib.Level(k) == Bottom ==> p in s.queue[r])
            && r in s.jobs && s.jobs[r] == LastCreation(events, lib, r) + delay
  {
    RunQueuesExactly(events, delay, lib);
    CreatedWaits(events, lib, k);
    WaitingIsClosed(events, lib);
    WaitingIsQueued(After(events, delay).queue, Waiting(events, lib), lib, k);
    assert TimedAt(After(events, delay).jobs, Waiting(events, lib), events, delay, lib, lib.RootOf(k));
  }

  lemma {:induction false} WaitingIsQueued(q: Queue, w: set<Key>, lib: Library, k: Key)
    requires lib.Forest() && Closed(w, lib) && Holds(q, w, lib) && k in w
    ensures var p, r := lib.Parent(k), lib.RootOf(k);
            && (lib.Level(k) != Middle ==> k in q)
            && (lib.Level(k) != Root ==> p in q && k in q[p] && r in q)
            && (lib.Level(k) == Bottom ==> p in q[r])
            && r in w && lib.Level(r) == Root
  {
    var p, r := lib.Parent(k), lib.RootOf(k);
    Above(lib, k);
    assert p in w && r in w;
    assert HoldsAt(q, w, lib, k) && HoldsAt(q, w, lib, p) && HoldsAt(q, w, lib, r);
    if lib.Level(k) != Root { assert k in Children(w, lib, p); }
    if lib.Level(k) == Bottom { assert p in Children(w, lib, r); }
  }
}

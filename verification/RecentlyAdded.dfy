/** The queue of recently added library items, the timers that clear it, and the recursive delete.

    The queue maps a key to the keys filed under it.  It is cyclic on purpose: a show leads to its
    seasons, a season to its episodes, and an episode back to its show. */
module RecentlyAdded {

  type Key = int
  type Queue = map<Key, set<Key>>

  // ----- reachability -----

  ghost predicate IsPath(q: Queue, p: seq<Key>) {
    forall i | 0 <= i < |p| - 1 :: p[i] in q && p[i + 1] in q[p[i]]
  }

  ghost predicate Leads(q: Queue, from: set<Key>, to: Key, p: seq<Key>) {
    p != [] && p[0] in from && p[|p| - 1] == to && IsPath(q, p)
  }

  ghost predicate Reaches(q: Queue, from: set<Key>, to: Key) {
    exists p: seq<Key> :: Leads(q, from, to, p)
  }

  /** The queue without the keys that can be reached. */
  ghost function Kept(q: Queue, from: set<Key>): Queue {
    map k | k in q && !Reaches(q, from, k) :: q[k]
  }

  lemma {:induction false} LastVisit(p: seq<Key>, k: Key) returns (i: nat)
    requires k in p
    ensures i < |p| && p[i] == k && forall j | i < j < |p| :: p[j] != k
  {
    i := |p| - 1;
    while p[i] != k
      invariant 0 <= i < |p|
      invariant forall j | i < j < |p| :: p[j] != k
      invariant k in p[..i + 1]
      decreases i
    {
      assert p[..i + 1] == p[..i] + [p[i]];
      i := i - 1;
    }
  }

  /** Taking a key out before following its children loses no way to any other key. */
  lemma {:induction false} PopThenChildren(q: Queue, k: Key)
    requires k in q
    ensures Kept(q, {k}) == Kept(q - {k}, q[k])
  {
    var q1 := q - {k};
    assert Leads(q, {k}, k, [k]);
    forall x | x in q1
      ensures Reaches(q, {k}, x) <==> Reaches(q1, q[k], x)
    {
      if Reaches(q1, q[k], x) {
        var p :| Leads(q1, q[k], x, p);
        var p' := [k] + p;
        assert IsPath(q, p') by {
          forall i | 0 <= i < |p'| - 1 ensures p'[i] in q && p'[i + 1] in q[p'[i]] {
            if i > 0 { assert p'[i] == p[i - 1] && p'[i + 1] == p[i]; }
          }
        }
        assert Leads(q, {k}, x, p');
      }
      if Reaches(q, {k}, x) {
        var p :| Leads(q, {k}, x, p);
        var i := LastVisit(p, k);
        var tail := p[i + 1..];
        assert p[i] in q && p[i + 1] in q[p[i]];
        assert IsPath(q1, tail) by {
          forall j | 0 <= j < |tail| - 1 ensures tail[j] in q1 && tail[j + 1] in q1[tail[j]] {
            assert tail[j] == p[i + 1 + j] && tail[j + 1] == p[i + 2 + j];
          }
        }
        assert Leads(q1, q[k], x, tail);
      }
    }
  }

  lemma {:induction false} PathOnward(q: Queue, from: set<Key>, p: seq<Key>, i: nat)
    requires i < |p| && IsPath(q, p) && Reaches(q, from, p[i])
    ensures Reaches(q, from, p[|p| - 1])
  {
    var a :| Leads(q, from, p[i], a);
    var b := a + p[i + 1..];
    forall j | 0 <= j < |b| - 1 ensures b[j] in q && b[j + 1] in q[b[j]] {
      if j < |a| - 1 {
        assert b[j] == a[j] && b[j + 1] == a[j + 1];
      } else {
        assert b[j] == p[i + 1 + j - |a|] && b[j + 1] == p[i + 2 + j - |a|];
      }
    }
    assert Leads(q, from, p[|p| - 1], b);
  }

  /** Deleting from one set of keys and then from one more key is deleting from both. */
  lemma {:induction false} DeleteOneMore(q: Queue, from: set<Key>, k: Key)
    ensures Kept(Kept(q, from), {k}) == Kept(q, from + {k})
  {
    var q1 := Kept(q, from);
    forall x | x in q
      ensures Reaches(q, from + {k}, x) <==> Reaches(q, from, x) || Reaches(q1, {k}, x)
    {
      if Reaches(q, from + {k}, x) && !Reaches(q, from, x) {
        var p :| Leads(q, from + {k}, x, p);
        if p[0] in from { assert Leads(q, from, x, p); }
        assert IsPath(q1, p) by {
          forall i | 0 <= i < |p| - 1 ensures p[i] in q1 && p[i + 1] in q1[p[i]] {
            if Reaches(q, from, p[i]) { PathOnward(q, from, p, i); }
          }
        }
        assert Leads(q1, {k}, x, p);
      }
      if Reaches(q, from, x) {
        var p :| Leads(q, from, x, p);
        assert Leads(q, from + {k}, x, p);
      }
      if Reaches(q1, {k}, x) {
        var p :| Leads(q1, {k}, x, p);
        assert IsPath(q, p);
        assert Leads(q, from + {k}, x, p);
      }
    }
  }

  lemma {:induction false} NotEmpty(s: set<Key>)
    ensures s == {} || exists k :: k in s
  {
    if forall k: Key :: k !in s { assert s == {}; }
  }

  lemma {:induction false} DeleteNothing(q: Queue)
    ensures Kept(q, {}) == q
  {
  }

  lemma {:induction false} DeleteAbsent(q: Queue, k: Key)
    requires k !in q
    ensures Kept(q, {k}) == q
  {
    forall p, x | Leads(q, {k}, x, p) ensures x == k {
      assert p[0] !in q;
    }
  }

  // ----- the library's hierarchy -----

  datatype Level = Root | Middle | Bottom

  /** Seasons and albums with the show or artist they belong to, episodes and tracks with their season
      or album; every other key is a root. */
  datatype Library = Library(seasons: map<Key, Key>, episodes: map<Key, Key>)
  {
    function Level(k: Key): Level {
      if k in episodes then Bottom else if k in seasons then Middle else Root
    }

    /** A root is its own parent. */
    function Parent(k: Key): Key {
      if k in episodes then episodes[k] else if k in seasons then seasons[k] else k
    }

    function RootOf(k: Key): Key {
      Parent(Parent(k))
    }

    /** Parents are one level up. */
    ghost predicate Forest() {
      && (forall k | k in seasons :: k !in episodes && seasons[k] !in seasons && seasons[k] !in episodes)
      && (forall k | k in episodes :: episodes[k] in seasons)
    }
  }

  // ----- timeline events and timers -----

  datatype Media = Movie | Show | Artist | Season | Album | Episode | Track | OtherMedia | NoMedia
  datatype MetadataState = Created | Deleted | NoMetadataState | OtherMetadataState

  datatype Timeline = Timeline(isItem: bool, isLibrary: bool, ratingKey: Key, parent: Key, grandparent: Key,
                               mediaType: Media, sectionId: int, state: int, metadataState: MetadataState,
                               hasQueueSize: bool)

  /** The queue and the due times of the `rating_key-` jobs. */
  datatype State = State(queue: Queue, jobs: map<Key, int>)

  function Under(q: Queue, k: Key): set<Key> {
    if k in q then q[k] else {}
  }

  function File(q: Queue, k: Key, child: Key): Queue {
    q[k := Under(q, k) + {child}]
  }

  predicate IsNew(t: Timeline) {
    t.mediaType != NoMedia && t.sectionId > 0 && t.state == 0 && t.metadataState == Created
  }

  predicate IsProcessed(t: Timeline, q: Queue) {
    && t.mediaType in {Movie, Show, Artist} && t.sectionId > 0 && t.state == 5
    && t.metadataState == NoMetadataState && !t.hasQueueSize && t.ratingKey in q
  }

  /** What one timeline event does. */
  ghost function Processed(s: State, t: Timeline, due: int): State {
    if !t.isItem || !t.isLibrary then s
    else if IsNew(t) then
      match t.mediaType
      case Episode | Track =>
        State(File(File(s.queue, t.grandparent, t.parent), t.parent, t.ratingKey)[t.ratingKey := {t.grandparent}],
              s.jobs[t.grandparent := due])
      case Season | Album => State(File(s.queue, t.parent, t.ratingKey), s.jobs[t.parent := due])
      case Movie | Show | Artist =>
        State(s.queue[t.ratingKey := Under(s.queue, t.ratingKey)], s.jobs[t.ratingKey := due])
      case _ => s
    else if IsProcessed(t, s.queue) then s
    else if t.state == 9 && t.metadataState == Deleted && t.ratingKey in s.queue && s.queue[t.ratingKey] == {} then
      State(Kept(s.queue, {t.ratingKey}), s.jobs - {t.ratingKey})
    else s
  }

  /** What the clearing of one key does. */
  ghost function Cleared(s: State, k: Key): State {
    State(Kept(s.queue, {k}), s.jobs)
  }

  // ----- what is announced -----

  /** One call of on_created, with the grouped keys if there are any. */
  datatype Call = Single(subject: Key) | Grouped(subject: Key, children: set<Key>)

  /** What a child stands for: the keys filed under it, or itself. */
  ghost predicate ItemOf(q: Queue, child: Key, x: Key) {
    if Under(q, child) == {} then x == child else x in Under(q, child)
  }

  /** The leaves queued under a key. */
  ghost predicate IsItem(q: Queue, k: Key, x: Key)
    requires k in q
  {
    if q[k] == {} then x == k else exists c | c in q[k] :: ItemOf(q, c, x)
  }

  ghost predicate Covers(q: Queue, call: Call, x: Key) {
    match call
    case Single(k) => x == k
    case Grouped(k, children) => x in children || exists c | c in children :: x in Under(q, c)
  }

  ghost predicate Never(q: Queue, calls: seq<Call>, x: Key) {
    forall i | 0 <= i < |calls| :: !Covers(q, calls[i], x)
  }

  ghost predicate Once(q: Queue, calls: seq<Call>, x: Key) {
    exists i | 0 <= i < |calls| :: Covers(q, calls[i], x) && Never(q, calls[..i], x) && Never(q, calls[i + 1..], x)
  }

  /** The calls for one child: itself if nothing is filed under it, one for all its grandchildren if they
      are grouped and several, and otherwise one for each. */
  ghost predicate ForChild(q: Queue, child: Key, groupParent: bool, call: Call) {
    var grandchildren := if child in q then q[child] else {};
    if grandchildren == {} then call == Single(child)
    else if groupParent && |grandchildren| > 1 then call == Grouped(child, grandchildren)
    else call.Single? && call.subject in grandchildren
  }

  /** The calls for a key: itself if nothing is filed under it, one for all its children if they are
      grouped and several, and otherwise those for each child. */
  ghost predicate ForKey(q: Queue, key: Key, groupParent: bool, groupGrandparent: bool, call: Call)
    requires key in q
  {
    if q[key] == {} then call == Single(key)
    else if groupGrandparent && |q[key]| > 1 then call == Grouped(key, q[key])
    else exists child | child in q[key] :: ForChild(q, child, groupParent, call)
  }

  lemma {:induction false} OneMoreCall(calls: seq<Call>, call: Call)
    ensures forall c :: c in calls + [call] <==> c in calls || c == call
  {
  }

  lemma {:induction false} TakeOne(children: set<Key>, todo: set<Key>, child: Key)
    requires child in todo && todo <= children
    ensures forall c :: c in children - (todo - {child}) <==> c in children - todo || c == child
  {
  }

  lemma {:induction false} MoreCalls(calls: seq<Call>, more: seq<Call>)
    ensures forall c :: c in calls + more <==> c in calls || c in more
  {
  }

  lemma {:induction false} OnceThenNever(q: Queue, a: seq<Call>, b: seq<Call>, x: Key)
    requires Once(q, a, x) && Never(q, b, x)
    ensures Once(q, a + b, x)
  {
    var i :| 0 <= i < |a| && Covers(q, a[i], x) && Never(q, a[..i], x) && Never(q, a[i + 1..], x);
    assert (a + b)[..i] == a[..i] && (a + b)[i + 1..] == a[i + 1..] + b && (a + b)[i] == a[i];
  }

  lemma {:induction false} NeverThenOnce(q: Queue, a: seq<Call>, b: seq<Call>, x: Key)
    requires Never(q, a, x) && Once(q, b, x)
    ensures Once(q, a + b, x)
  {
    var i :| 0 <= i < |b| && Covers(q, b[i], x) && Never(q, b[..i], x) && Never(q, b[i + 1..], x);
    var j := |a| + i;
    assert (a + b)[..j] == a + b[..i] && (a + b)[j + 1..] == b[i + 1..] && (a + b)[j] == b[i];
  }

  lemma {:induction false} OnceAlone(q: Queue, call: Call, x: Key)
    requires Covers(q, call, x)
    ensures Once(q, [call], x)
  {
    assert [call][0] == call && [call][..0] == [] && [call][1..] == [];
  }

  lemma {:induction false} OneCallMore(q: Queue, calls: seq<Call>, k: Key, x: Key, called: bool)
    requires if called then Once(q, calls, x) && x != k else Never(q, calls, x) && x == k
    ensures Once(q, calls + [Single(k)], x)
  {
    if called {
      OnceThenNever(q, calls, [Single(k)], x);
    } else {
      OnceAlone(q, Single(k), k);
      NeverThenOnce(q, calls, [Single(k)], k);
    }
  }

  /** One call for each of the keys and no others. */
  ghost predicate Announced(q: Queue, calls: seq<Call>, keys: set<Key>) {
    && (forall x | x in keys :: Once(q, calls, x))
    && (forall x | x !in keys :: Never(q, calls, x))
    && (forall call :: call in calls <==> call.Single? && call.subject in keys)
  }

  lemma {:induction false} NoneAnnounced(q: Queue)
    ensures Announced(q, [], {})
  {
  }

  lemma {:induction false} AnnounceOneMore(q: Queue, calls: seq<Call>, keys: set<Key>, k: Key)
    requires Announced(q, calls, keys) && k !in keys
    ensures Announced(q, calls + [Single(k)], keys + {k})
  {
    forall x | x in keys + {k} ensures Once(q, calls + [Single(k)], x) {
      OneCallMore(q, calls, k, x, x in keys);
    }
    forall x | x !in keys + {k} ensures Never(q, calls + [Single(k)], x) {
      NeverMore(q, calls, k, x);
    }
    OneMoreCall(calls, Single(k));
  }

  lemma {:induction false} NeverMore(q: Queue, calls: seq<Call>, k: Key, x: Key)
    requires Never(q, calls, x) && x != k
    ensures Never(q, calls + [Single(k)], x)
  {
  }

  // ----- the invariant -----

  /** Keys are filed under their parents only, a bottom key points back at its root, and whatever is
      in the queue is filed under its parent. */
  ghost predicate Filed(q: Queue, lib: Library) {
    && lib.Forest()
    && (forall k, c | k in q && c in q[k] ::
          match lib.Level(k)
          case Root => lib.Level(c) == Middle && lib.Parent(c) == k
          case Middle => lib.Level(c) == Bottom && lib.Parent(c) == k
          case Bottom => c == lib.RootOf(k))
    && (forall k | k in q && lib.Level(k) == Bottom :: q[k] == {lib.RootOf(k)})
    && (forall k | k in q && lib.Level(k) == Middle :: q[k] != {})
    && (forall k | k in q && lib.Level(k) != Root :: lib.Parent(k) in q && k in q[lib.Parent(k)])
  }

  /** Jobs are for roots in the queue, and every key in the queue has a job for its root. */
  ghost predicate Valid(s: State, lib: Library) {
    && Filed(s.queue, lib)
    && (forall r | r in s.jobs :: lib.Level(r) == Root && r in s.queue)
    && (forall k | k in s.queue :: lib.RootOf(k) in s.jobs)
  }

  /** An event says of its item what the library's hierarchy says. */
  ghost predicate Truthful(t: Timeline, lib: Library) {
    match t.mediaType
    case Episode | Track =>
      lib.Level(t.ratingKey) == Bottom && lib.Parent(t.ratingKey) == t.parent && lib.Parent(t.parent) == t.grandparent
    case Season | Album =>
      lib.Level(t.ratingKey) == Middle && lib.Parent(t.ratingKey) == t.parent
    case Movie | Show | Artist => lib.Level(t.ratingKey) == Root
    case _ => true
  }

  lemma {:induction false} SameRootOneStep(q: Queue, lib: Library, k: Key, c: Key)
    requires Filed(q, lib) && k in q && c in q[k]
    ensures lib.RootOf(c) == lib.RootOf(k)
  {
    match lib.Level(k)
    case Root =>
    case Middle =>
    case Bottom =>
      assert lib.Level(lib.Parent(k)) == Middle;
      assert lib.Level(lib.Parent(lib.Parent(k))) == Root;
  }

  lemma {:induction false} SameRootAlong(q: Queue, lib: Library, p: seq<Key>)
    requires Filed(q, lib) && p != [] && IsPath(q, p)
    ensures lib.RootOf(p[|p| - 1]) == lib.RootOf(p[0])
    decreases |p|
  {
    if |p| > 1 {
      var n := |p| - 1;
      assert p[n - 1] in q && p[n] in q[p[n - 1]];
      SameRootOneStep(q, lib, p[n - 1], p[n]);
      SameRootAlong(q, lib, p[..n]);
    }
  }

  /** From a root one reaches exactly the keys of its own tree. */
  lemma {:induction false} ReachedFromRoot(q: Queue, lib: Library, r: Key, k: Key)
    requires Filed(q, lib) && r in q && lib.Level(r) == Root && k in q
    ensures Reaches(q, {r}, k) <==> lib.RootOf(k) == r
  {
    if Reaches(q, {r}, k) {
      var p :| Leads(q, {r}, k, p);
      SameRootAlong(q, lib, p);
    }
    if lib.RootOf(k) == r {
      match lib.Level(k)
      case Root => assert Leads(q, {r}, k, [r]);
      case Middle => assert Leads(q, {r}, k, [r, k]);
      case Bottom =>
        var m := lib.Parent(k);
        assert Leads(q, {r}, k, [r, m, k]);
    }
  }

  /** The key can be reached from a key with a pending job. */
  ghost predicate HasTimer(s: State, k: Key) {
    exists r :: r in s.jobs && Reaches(s.queue, {r}, k)
  }

  lemma {:induction false} EveryKeyHasTimer(s: State, lib: Library, k: Key)
    requires Valid(s, lib) && k in s.queue
    ensures HasTimer(s, k)
  {
    ReachedFromRoot(s.queue, lib, lib.RootOf(k), k);
  }

  lemma {:induction false} KeptFromRoot(q: Queue, lib: Library, r: Key)
    requires Filed(q, lib) && r in q && lib.Level(r) == Root
    ensures Kept(q, {r}) == map k | k in q && lib.RootOf(k) != r :: q[k]
    ensures Filed(Kept(q, {r}), lib)
  {
    forall k | k in q ensures Reaches(q, {r}, k) <==> lib.RootOf(k) == r {
      ReachedFromRoot(q, lib, r, k);
    }
    var q' := Kept(q, {r});
    forall k | k in q' && lib.Level(k) != Root ensures lib.Parent(k) in q' && k in q'[lib.Parent(k)] {
      assert lib.RootOf(lib.Parent(k)) == lib.RootOf(k);
    }
  }

  /** A season or album is filed under its show or artist; it gets no entry of its own. */
  lemma {:induction false} FileSeason(q: Queue, lib: Library, k: Key)
    requires Filed(q, lib) && lib.Level(k) == Middle
    ensures Filed(File(q, lib.Parent(k), k), lib)
  {
    var q' := File(q, lib.Parent(k), k);
    forall x | x in q' && lib.Level(x) != Root ensures lib.Parent(x) in q' && x in q'[lib.Parent(x)] {
      assert x in q;
    }
  }

  /** A key is filed under a season that is filed itself, and leads back to the show. */
  lemma {:induction false} FileBottom(q: Queue, lib: Library, k: Key)
    requires Filed(q, lib) && lib.Level(k) == Bottom
    requires var m := lib.Parent(k); lib.Parent(m) in q && m in q[lib.Parent(m)]
    ensures Filed(File(q, lib.Parent(k), k)[k := {lib.RootOf(k)}], lib)
  {
    var m := lib.Parent(k);
    var q' := File(q, m, k)[k := {lib.RootOf(k)}];
    forall x | x in q' && lib.Level(x) != Root ensures lib.Parent(x) in q' && x in q'[lib.Parent(x)] {
      if x != k && x != m { assert x in q; }
    }
  }

  /** An episode or track is filed under its season, the season under the show, and leads back there. */
  lemma {:induction false} FileEpisode(q: Queue, lib: Library, k: Key)
    requires Filed(q, lib) && lib.Level(k) == Bottom
    ensures var m := lib.Parent(k);
            Filed(File(File(q, lib.Parent(m), m), m, k)[k := {lib.RootOf(k)}], lib)
  {
    var m := lib.Parent(k);
    FileSeason(q, lib, m);
    FileBottom(File(q, lib.Parent(m), m), lib, k);
  }

  lemma {:induction false} FileRoot(q: Queue, lib: Library, k: Key)
    requires Filed(q, lib) && lib.Level(k) == Root
    ensures Filed(q[k := Under(q, k)], lib)
  {
    var q' := q[k := Under(q, k)];
    forall x | x in q' && lib.Level(x) != Root ensures lib.Parent(x) in q' && x in q'[lib.Parent(x)] {
      assert x in q;
    }
  }

  lemma {:induction false} NewEpisodeKeepsValid(s: State, t: Timeline, due: int, lib: Library)
    requires Valid(s, lib) && IsNew(t) && t.isItem && t.isLibrary && Truthful(t, lib)
    requires t.mediaType == Episode || t.mediaType == Track
    ensures Valid(Processed(s, t, due), lib)
  {
    FileEpisode(s.queue, lib, t.ratingKey);
  }

  lemma {:induction false} NewSeasonKeepsValid(s: State, t: Timeline, due: int, lib: Library)
    requires Valid(s, lib) && IsNew(t) && t.isItem && t.isLibrary && Truthful(t, lib)
    requires t.mediaType == Season || t.mediaType == Album
    ensures Valid(Processed(s, t, due), lib)
  {
    FileSeason(s.queue, lib, t.ratingKey);
  }

  lemma {:induction false} NewRootKeepsValid(s: State, t: Timeline, due: int, lib: Library)
    requires Valid(s, lib) && IsNew(t) && t.isItem && t.isLibrary && Truthful(t, lib)
    requires t.mediaType == Movie || t.mediaType == Show || t.mediaType == Artist
    ensures Valid(Processed(s, t, due), lib)
  {
    FileRoot(s.queue, lib, t.ratingKey);
  }

  lemma {:induction false} NewKeepsValid(s: State, t: Timeline, due: int, lib: Library)
    requires Valid(s, lib) && IsNew(t) && t.isItem && t.isLibrary && Truthful(t, lib)
    ensures Valid(Processed(s, t, due), lib)
  {
    match t.mediaType
    case Episode | Track => NewEpisodeKeepsValid(s, t, due, lib);
    case Season | Album => NewSeasonKeepsValid(s, t, due, lib);
    case Movie | Show | Artist => NewRootKeepsValid(s, t, due, lib);
    case _ =>
  }

  /** A root without children is alone in its tree. */
  lemma {:induction false} AloneInTree(q: Queue, k: Key, lib: Library, x: Key)
    requires Filed(q, lib) && k in q && q[k] == {} && x in q && lib.RootOf(x) == k
    ensures x == k
  {
  }

  lemma {:induction false} DeletedKeepsValid(s: State, k: Key, lib: Library)
    requires Valid(s, lib) && k in s.queue && s.queue[k] == {}
    ensures Kept(s.queue, {k}) == s.queue - {k}
    ensures Valid(State(Kept(s.queue, {k}), s.jobs - {k}), lib)
  {
    RootAlone(s.queue, k, lib);
    KeptFromRoot(s.queue, lib, k);
    RootGone(s.queue, s.jobs, k, lib, Kept(s.queue, {k}));
  }

  lemma {:induction false} RootAlone(q: Queue, k: Key, lib: Library)
    requires Filed(q, lib) && k in q && q[k] == {}
    ensures lib.Level(k) == Root && (map x | x in q && lib.RootOf(x) != k :: q[x]) == q - {k}
  {
    forall x | x in q && lib.RootOf(x) == k ensures x == k { AloneInTree(q, k, lib, x); }
  }

  lemma {:induction false} RootGone(q: Queue, jobs: map<Key, int>, k: Key, lib: Library, left: Queue)
    requires forall r | r in jobs :: lib.Level(r) == Root && r in q
    requires forall x | x in q :: lib.RootOf(x) in jobs
    requires left == map x | x in q && lib.RootOf(x) != k :: q[x]
    ensures forall r | r in jobs - {k} :: lib.Level(r) == Root && r in left
    ensures forall x | x in left :: lib.RootOf(x) in jobs - {k}
  {
  }

  lemma {:induction false} EventKeepsValid(s: State, t: Timeline, due: int, lib: Library)
    requires Valid(s, lib) && Truthful(t, lib)
    ensures Valid(Processed(s, t, due), lib)
  {
    if t.isItem && t.isLibrary {
      if IsNew(t) {
        NewKeepsValid(s, t, due, lib);
      } else if t.ratingKey in s.queue && s.queue[t.ratingKey] == {} {
        DeletedKeepsValid(s, t.ratingKey, lib);
      }
    }
  }

  // ----- whole runs -----

  datatype Event = Arrives(timeline: Timeline, now: int) | Fires(key: Key, now: int)

  /** The scheduler runs a job once it is due, and the job is gone by then. */
  ghost predicate Enabled(s: State, e: Event, lib: Library) {
    match e
    case Arrives(t, _) => Truthful(t, lib)
    case Fires(k, now) => k in s.jobs && s.jobs[k] <= now
  }

  ghost function Next(s: State, e: Event, delay: nat): State {
    match e
    case Arrives(t, now) => Processed(s, t, now + delay)
    case Fires(k, _) => Cleared(State(s.queue, s.jobs - {k}), k)
  }

  ghost function After(events: seq<Event>, delay: nat): State {
    if events == [] then State(map[], map[])
    else Next(After(events[..|events| - 1], delay), events[|events| - 1], delay)
  }

  ghost predicate Possible(events: seq<Event>, delay: nat, lib: Library) {
    events == [] ||
    (Possible(events[..|events| - 1], delay, lib) && Enabled(After(events[..|events| - 1], delay), events[|events| - 1], lib))
  }

  lemma {:induction false} ArrivalKeepsValid(s: State, t: Timeline, now: int, delay: nat, lib: Library)
    requires Valid(s, lib) && Truthful(t, lib)
    ensures Valid(Next(s, Arrives(t, now), delay), lib)
  {
    EventKeepsValid(s, t, now + delay, lib);
  }

  lemma {:induction false} RunStaysValid(events: seq<Event>, delay: nat, lib: Library)
    requires lib.Forest() && Possible(events, delay, lib)
    ensures Valid(After(events, delay), lib)
    decreases |events|
  {
    if events != [] {
      var before, e := After(events[..|events| - 1], delay), events[|events| - 1];
      RunStaysValid(events[..|events| - 1], delay, lib);
      if e.Arrives? {
        ArrivalKeepsValid(before, e.timeline, e.now, delay, lib);
      } else {
        FiringKeepsValid(before, e.key, e.now, delay, lib);
      }
      assert After(events, delay) == Next(before, e, delay);
    }
  }

  lemma {:induction false} FiringKeepsValid(s: State, k: Key, now: int, delay: nat, lib: Library)
    requires Valid(s, lib) && k in s.jobs
    ensures Valid(Next(s, Fires(k, now), delay), lib)
  {
    KeptFromRoot(s.queue, lib, k);
    RootGone(s.queue, s.jobs, k, lib, Kept(s.queue, {k}));
  }

  lemma {:induction false} NoKeys(q: Queue)
    ensures q == map[] || exists k :: k in q
  {
    if forall k: Key :: k !in q { assert q.Keys == {}; }
  }

  lemma {:induction false} ValidNeverLeaks(s: State, lib: Library)
    requires Valid(s, lib)
    ensures && (forall k | k in s.queue :: HasTimer(s, k))
            && (forall r | r in s.jobs :: r in s.queue)
            && (s.jobs == map[] ==> s.queue == map[])
  {
    forall k | k in s.queue ensures HasTimer(s, k) {
      EveryKeyHasTimer(s, lib, k);
    }
    forall k | k in s.queue ensures s.jobs != map[] {
      assert lib.RootOf(k) in s.jobs;
    }
    NoKeys(s.queue);
  }

  /** Over every run: every queued key is reachable from a key with a pending job, every pending job
      finds its key, and when no job is pending nothing is queued. */
  lemma {:induction false} RunNeverLeaks(events: seq<Event>, delay: nat, lib: Library)
    requires lib.Forest() && Possible(events, delay, lib)
    ensures var s := After(events, delay);
            && (forall k | k in s.queue :: HasTimer(s, k))
            && (forall r | r in s.jobs :: r in s.queue)
            && (s.jobs == map[] ==> s.queue == map[])
  {
    RunStaysValid(events, delay, lib);
    ValidNeverLeaks(After(events, delay), lib);
  }

  // ----- the handler -----

  class TimelineHandler {
    var queue: Queue
    var jobs: map<Key, int>
    var created: seq<Call>
    const delay: nat
    const groupParent: bool
    const groupGrandparent: bool

    constructor (delay: nat, groupParent: bool, groupGrandparent: bool)
      ensures queue == map[] && jobs == map[] && created == []
      ensures this.delay == delay && this.groupParent == groupParent && this.groupGrandparent == groupGrandparent
    {
      queue, jobs, created := map[], map[], [];
      this.delay, this.groupParent, this.groupGrandparent := delay, groupParent, groupGrandparent;
    }

    /** `del_keys` of one key */
    method DelKey(key: Key)
      modifies this`queue
      ensures queue == Kept(old(queue), {key})
      ensures |queue| <= |old(queue)|
      decreases |queue|, 0
    {
      if key in queue {
        var children := queue[key];
        PopThenChildren(queue, key);
        assert queue.Keys == (queue - {key}).Keys + {key};
        queue := queue - {key};
        DelKeys(children);
      } else {
        DeleteAbsent(queue, key);
      }
    }

    /** `del_keys` of a set: it pops keys while it walks, in whatever order the set yields them. */
    method DelKeys(keys: set<Key>)
      modifies this`queue
      ensures queue == Kept(old(queue), keys)
      ensures |queue| <= |old(queue)|
      decreases |queue|, 1
    {
      var todo := keys;
      DeleteNothing(queue);
      while todo != {}
        invariant todo <= keys
        invariant queue == Kept(old(queue), keys - todo)
        invariant |queue| <= |old(queue)|
        decreases todo
      {
        NotEmpty(todo);
        var child :| child in todo;
        DeleteOneMore(old(queue), keys - todo, child);
        DelKey(child);
        assert keys - (todo - {child}) == (keys - todo) + {child};
        todo := todo - {child};
      }
      assert keys - todo == keys;
    }

    method ScheduleCallback(key: Key, removeJob: bool, due: int)
      modifies this`jobs
      ensures jobs == if removeJob then old(jobs) - {key} else old(jobs)[key := due]
    {
      if key in jobs {
        if removeJob {
          jobs := jobs - {key};
        } else {
          jobs := jobs[key := due];
        }
      } else if !removeJob {
        jobs := jobs[key := due];
      }
    }

    method Process(t: Timeline, now: int)
      modifies this`queue, this`jobs
      ensures State(queue, jobs) == Processed(old(State(queue, jobs)), t, now + delay)
    {
      if !t.isItem { return; }
      if !t.isLibrary { return; }
      if t.mediaType != NoMedia && t.sectionId > 0 && t.state == 0 && t.metadataState == Created {
        if t.mediaType in {Episode, Track} {
          var grandparentSet := Under(queue, t.grandparent);
          grandparentSet := grandparentSet + {t.parent};
          queue := queue[t.grandparent := grandparentSet];
          var parentSet := Under(queue, t.parent);
          parentSet := parentSet + {t.ratingKey};
          queue := queue[t.parent := parentSet];
          queue := queue[t.ratingKey := {t.grandparent}];
          ScheduleCallback(t.grandparent, false, now + delay);
        } else if t.mediaType in {Season, Album} {
          var parentSet := Under(queue, t.parent);
          parentSet := parentSet + {t.ratingKey};
          queue := queue[t.parent := parentSet];
          ScheduleCallback(t.parent, false, now + delay);
        } else if t.mediaType in {Movie, Show, Artist} {
          var queueSet := Under(queue, t.ratingKey);
          queue := queue[t.ratingKey := queueSet];
          ScheduleCallback(t.ratingKey, false, now + delay);
        }
      } else if IsProcessed(t, queue) {
      } else if t.state == 9 && t.metadataState == Deleted {
        if t.ratingKey in queue && queue[t.ratingKey] == {} {
          DelKey(t.ratingKey);
          ScheduleCallback(t.ratingKey, true, 0);
        }
      }
    }

    method OnCreated(call: Call)
      modifies this`created
      ensures created == old(created) + [call]
    {
      created := created + [call];
    }

    /** The calls for one child; every key it stands for is covered once, and no other key but a root. */
    method AnnounceChild(child: Key, ghost lib: Library, ghost before: seq<Call>)
      requires Filed(queue, lib) && lib.Level(child) == Middle && created == before
      modifies this`created
      ensures |before| <= |created| && created[..|before|] == before
      ensures forall x | ItemOf(queue, child, x) :: Once(queue, created[|before|..], x)
      ensures forall x | lib.Level(x) != Root && !ItemOf(queue, child, x) :: Never(queue, created[|before|..], x)
      ensures forall call :: call in created[|before|..] <==> ForChild(queue, child, groupParent, call)
    {
      var grandchildren := Under(queue, child);
      if groupParent && |grandchildren| > 1 {
        OnCreated(Grouped(child, grandchildren));
        assert created[|before|..] == [Grouped(child, grandchildren)];
        forall x | ItemOf(queue, child, x) ensures Once(queue, created[|before|..], x) {
          OnceAlone(queue, Grouped(child, grandchildren), x);
        }
      } else if grandchildren != {} {
        AnnounceGrandchildren(grandchildren, before);
      } else {
        OnCreated(Single(child));
        assert created[|before|..] == [Single(child)];
        OnceAlone(queue, Single(child), child);
      }
    }

    /** One call for each grandchild, in whatever order. */
    method AnnounceGrandchildren(grandchildren: set<Key>, ghost before: seq<Call>)
      requires created == before
      modifies this`created
      ensures |before| <= |created| && created[..|before|] == before
      ensures Announced(queue, created[|before|..], grandchildren)
    {
      var todo := grandchildren;
      ghost var done: set<Key>, calls: seq<Call> := {}, [];
      NoneAnnounced(queue);
      while todo != {}
        invariant done !! todo && done + todo == grandchildren
        invariant created == before + calls && Announced(queue, calls, done)
        decreases todo
      {
        NotEmpty(todo);
        var grandchild :| grandchild in todo;
        OnCreated(Single(grandchild));
        AnnounceOneMore(queue, calls, done, grandchild);
        calls, done := calls + [Single(grandchild)], done + {grandchild};
        todo := todo - {grandchild};
      }
      assert done == grandchildren && created[|before|..] == calls;
    }

    /** The timer callback.  `found` is false where the lookup of the key would fail. */
    method ClearRecentlyAdded(key: Key, ghost lib: Library) returns (found: bool)
      requires Filed(queue, lib) && lib.Level(key) == Root
      modifies this`queue, this`created
      ensures found == (key in old(queue))
      ensures !found ==> queue == old(queue) && created == old(created)
      ensures found ==> queue == Kept(old(queue), {key})
      ensures |old(created)| <= |created| && created[..|old(created)|] == old(created)
      ensures found ==> forall x | IsItem(old(queue), key, x) :: Once(old(queue), created[|old(created)|..], x)
      ensures found ==> forall call :: call in created[|old(created)|..]
                                  <==> ForKey(old(queue), key, groupParent, groupGrandparent, call)
    {
      found := key in queue;
      if !found { return; }
      var children := queue[key];
      ghost var start := |created|;
      if groupGrandparent && |children| > 1 {
        OnCreated(Grouped(key, children));
        assert created[start..] == [Grouped(key, children)];
        forall x | IsItem(queue, key, x) ensures Once(queue, created[start..], x) {
          OnceAlone(queue, Grouped(key, children), x);
        }
      } else if children != {} {
        AnnounceChildren(key, children, lib);
      } else {
        OnCreated(Single(key));
        assert created[start..] == [Single(key)];
        OnceAlone(queue, Single(key), key);
      }
      DelKey(key);
    }

    method AnnounceChildren(key: Key, children: set<Key>, ghost lib: Library)
      requires Filed(queue, lib) && lib.Level(key) == Root && key in queue && children == queue[key] != {}
      modifies this`created
      ensures |old(created)| <= |created| && created[..|old(created)|] == old(created)
      ensures forall x | IsItem(queue, key, x) :: Once(queue, created[|old(created)|..], x)
      ensures forall call :: call in created[|old(created)|..]
                        <==> exists child | child in children :: ForChild(queue, child, groupParent, call)
    {
      ghost var start := |created|;
      var todo := children;
      while todo != {}
        invariant todo <= children
        invariant start <= |created| && created[..start] == old(created)
        invariant forall c, x | c in children - todo && ItemOf(queue, c, x) :: Once(queue, created[start..], x)
        invariant forall c, x | c in todo && ItemOf(queue, c, x) :: Never(queue, created[start..], x)
        invariant forall call :: call in created[start..]
                            <==> exists child | child in children - todo :: ForChild(queue, child, groupParent, call)
        decreases todo
      {
        NotEmpty(todo);
        var child :| child in todo;
        ghost var before := created;
        AnnounceChild(child, lib, before);
        ghost var calls, more := before[start..], created[|before|..];
        assert created == before + more && created[start..] == calls + more;
        MoreCalls(calls, more);
        TakeOne(children, todo, child);
        forall x | ItemOf(queue, child, x) ensures Once(queue, created[start..], x) {
          NeverThenOnce(queue, calls, more, x);
        }
        forall c, x | c in children - todo && ItemOf(queue, c, x) ensures Once(queue, created[start..], x) {
          ItemsApart(queue, lib, key, c, child, x);
          OnceThenNever(queue, calls, more, x);
        }
        forall c, x | c in todo - {child} && ItemOf(queue, c, x) ensures Never(queue, created[start..], x) {
          ItemsApart(queue, lib, key, c, child, x);
        }
        todo := todo - {child};
      }
      assert children - todo == children;
    }
  }

  /** What one child stands for no other child does. */
  lemma {:induction false} ItemsApart(q: Queue, lib: Library, key: Key, c: Key, d: Key, x: Key)
    requires Filed(q, lib) && key in q && lib.Level(key) == Root && c in q[key] && d in q[key] && c != d
    requires ItemOf(q, c, x)
    ensures !ItemOf(q, d, x) && lib.Level(x) != Root
  {
  }
}

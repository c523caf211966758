/** How a written session is grouped with the row before it: the `reference_id` of session_history. */
module HistoryGrouping {

  datatype Media = Movie | Episode | Track | OtherMedia

  /** The percentages from which an item counts as watched. */
  datatype Config = Config(movie: int, tv: int, music: int)

  /** What is written of a session. */
  datatype Session = Session(user: int, ratingKey: int, viewOffset: int, duration: int, media: Media, live: bool,
                             guid: string)

  /** A row of session_history; ids start at 1, and 0 stands for a reference not set yet. */
  datatype Row = Row(id: nat, session: Session, referenceId: nat)

  datatype Lookup = NoRow | Found(row: Row)

  // ----- percentages -----

  /** Python's `round`: halves go to the even neighbour. */
  function Round(x: real): (n: int)
    ensures n as real - 0.5 <= x <= n as real + 0.5
  {
    var low := x.Floor;
    if x - low as real < 0.5 then low
    else if x - low as real > 0.5 then low + 1
    else if low % 2 == 0 then low else low + 1
  }

  function GetPercent(value1: int, value2: int): int {
    if value1 != 0 && value2 != 0 then Round(value1 as real / value2 as real * 100.0) else 0
  }

  function WatchedPercent(config: Config, media: Media): int {
    match media
    case Movie => config.movie
    case Episode => config.tv
    case Track => config.music
    case OtherMedia => 0
  }

  /** Not far enough into the item to count as watched. */
  predicate Unwatched(config: Config, viewOffset: int, s: Session) {
    GetPercent(viewOffset, s.duration) < WatchedPercent(config, s.media)
  }

  // ----- what unwatched means -----

  /** Rounding to the even neighbour stays below a whole number exactly below the half before it, or on
      that half if it lies behind an even number. */
  lemma {:induction false} RoundBelow(x: real, p: int)
    ensures Round(x) < p <==> x < p as real - 0.5 || (x == p as real - 0.5 && p % 2 == 1)
  {
    var low := x.Floor;
    if x == p as real - 0.5 { assert low == p - 1; }
  }

  lemma {:induction false} TimesOut(x: real, d: real, y: real)
    requires d > 0.0
    ensures x < y <==> x * d < y * d
    ensures x == y <==> x * d == y * d
  {
    if x < y { Larger(y - x, d); assert (y - x) * d == y * d - x * d; }
    if y < x { Larger(x - y, d); assert (x - y) * d == x * d - y * d; }
  }

  lemma {:induction false} Larger(x: real, d: real)
    requires x > 0.0 && d > 0.0
    ensures x * d > 0.0
  {
  }

  lemma {:induction false} PercentTimes(v: int, d: int)
    requires d != 0
    ensures v as real / d as real * 100.0 * d as real == 100.0 * v as real
  {
    assert v as real / d as real * d as real == v as real;
  }

  lemma {:induction false} HalfTimes(p: int, d: int)
    ensures 2.0 * ((p as real - 0.5) * d as real) == ((2 * p - 1) * d) as real
  {
    assert (2.0 * (p as real - 0.5)) * d as real == ((2 * p - 1) as real) * d as real;
    assert 2.0 * (p as real - 0.5) == (2 * p - 1) as real;
    RealProduct(2 * p - 1, d);
  }

  lemma {:induction false} RealProduct(a: int, b: int)
    ensures a as real * b as real == (a * b) as real
  {
  }

  lemma {:induction false} AsWhole(x: real, y: real, v: int, w: int)
    requires x == 100.0 * v as real && 2.0 * y == w as real
    ensures x < y <==> 200 * v < w
    ensures x == y <==> 200 * v == w
  {
  }

  /** A fraction in percent against a whole number and a half, without the division. */
  lemma {:induction false} PercentAgainst(v: int, d: int, p: int)
    requires d > 0
    ensures var x, w := v as real / d as real * 100.0, (2 * p - 1) * d;
            && (x < p as real - 0.5 <==> 200 * v < w)
            && (x == p as real - 0.5 <==> 200 * v == w)
  {
    var x, y := v as real / d as real * 100.0, p as real - 0.5;
    TimesOut(x, d as real, y);
    PercentTimes(v, d);
    HalfTimes(p, d);
    AsWhole(x * d as real, y * d as real, v, (2 * p - 1) * d);
  }

  /** A percentage is below `p` exactly when twice the hundredfold offset is below (2p - 1) durations, or
      equal to them for an odd `p`; without an offset or a duration it is 0. */
  lemma {:induction false} PercentBelow(v: int, d: int, p: int)
    requires d >= 0
    ensures GetPercent(v, d) < p
       <==> if v == 0 || d == 0 then 0 < p
            else 200 * v < (2 * p - 1) * d || (200 * v == (2 * p - 1) * d && p % 2 == 1)
  {
    if v != 0 && d != 0 {
      PercentAgainst(v, d, p);
      RoundBelow(v as real / d as real * 100.0, p);
    }
  }

  /** Not watched: the offset is short of the percentage that is set for the kind of media, rounded. */
  lemma {:induction false} UnwatchedMeans(config: Config, viewOffset: int, s: Session, p: int)
    requires s.duration >= 0
    requires s.media == Movie ==> p == config.movie
    requires s.media == Episode ==> p == config.tv
    requires s.media == Track ==> p == config.music
    requires s.media == OtherMedia ==> p == 0
    ensures Unwatched(config, viewOffset, s)
       <==> if viewOffset == 0 || s.duration == 0 then 0 < p
            else 200 * viewOffset < (2 * p - 1) * s.duration
                 || (200 * viewOffset == (2 * p - 1) * s.duration && p % 2 == 1)
  {
    PercentBelow(viewOffset, s.duration, p);
  }

  // ----- the queries -----

  predicate SameItem(r: Row, s: Session) {
    r.session.user == s.user && r.session.ratingKey == s.ratingKey
  }

  /** The newest row of the user for the item, or -1. */
  function NewestOfItem(rows: seq<Row>, s: Session): (p: int)
    ensures -1 <= p < |rows|
    ensures p >= 0 ==> SameItem(rows[p], s)
    ensures forall i | p < i < |rows| :: !SameItem(rows[i], s)
  {
    if rows == [] then -1
    else if SameItem(rows[|rows| - 1], s) then |rows| - 1
    else NewestOfItem(rows[..|rows| - 1], s)
  }

  /** The newest row of the user, or -1. */
  function NewestOfUser(rows: seq<Row>, s: Session): (p: int)
    ensures -1 <= p < |rows|
    ensures p >= 0 ==> rows[p].session.user == s.user
    ensures forall i | p < i < |rows| :: rows[i].session.user != s.user
  {
    if rows == [] then -1
    else if rows[|rows| - 1].session.user == s.user then |rows| - 1
    else NewestOfUser(rows[..|rows| - 1], s)
  }

  /** `... WHERE user_id = ? AND rating_key = ? ORDER BY id DESC LIMIT 2` */
  function NewestTwo(rows: seq<Row>, s: Session): seq<Row> {
    var p := NewestOfItem(rows, s);
    if p < 0 then []
    else
      var q := NewestOfItem(rows[..p], s);
      if q < 0 then [rows[p]] else [rows[p], rows[q]]
  }

  /** Once a session's own row is written it is the newer of the two. */
  lemma {:induction false} NewestTwoBehind(rows: seq<Row>, row: Row)
    ensures var p := NewestOfItem(rows, row.session);
            NewestTwo(rows + [row], row.session) == if p < 0 then [row] else [row, rows[p]]
  {
    assert (rows + [row])[..|rows|] == rows;
  }

  // ----- the reference -----

  /** The reference of a session written behind `rows` under the id `id`. */
  function Reference(rows: seq<Row>, id: nat, s: Session, config: Config): nat {
    var p := if s.live then NewestOfUser(rows, s) else NewestOfItem(rows, s);
    if p < 0 then id
    else if s.live then
      if rows[p].session.guid == s.guid then rows[p].referenceId else id
    else if Unwatched(config, rows[p].session.viewOffset, s) && rows[p].session.viewOffset <= s.viewOffset then
      rows[p].referenceId
    else id
  }

  function Written(rows: seq<Row>, id: nat, s: Session, config: Config): seq<Row> {
    rows + [Row(id, s, Reference(rows, id, s, config))]
  }

  class ActivityProcessor {
    var history: seq<Row>
    var lastId: nat
    const config: Config

    constructor (config: Config)
      ensures history == [] && lastId == 0 && this.config == config
    {
      history, lastId := [], 0;
      this.config := config;
    }

    /** The part of `write_session_history` that inserts the row and sets its reference. */
    method WriteSessionHistory(s: Session)
      requires Ascending(history, lastId)
      modifies this`history, this`lastId
      ensures lastId == old(lastId) + 1
      ensures history == Written(old(history), lastId, s, config)
      ensures Ascending(history, lastId)
    {
      lastId := lastId + 1;
      ghost var before := history;
      history := history + [Row(lastId, s, 0)];
      var reference := FindReference(s);
      assert history[..|before|] == before;
      UpdateReference(lastId, reference);
      assert history[..|before|] == before;
    }

    /** The reference for the row just inserted.  The query for a live session joins the metadata
        table, which has no row for the new id yet. */
    method FindReference(s: Session) returns (reference: nat)
      requires history != [] && history[|history| - 1] == Row(lastId, s, 0)
      ensures reference == Reference(history[..|history| - 1], lastId, s, config)
    {
      var newRow := history[|history| - 1];
      var newSession, prevSession := NoRow, NoRow;
      var prevProgressPercent, mediaWatchedPercent := 0, 0;
      if s.live {
        var p := NewestOfUser(history[..|history| - 1], s);
        if p >= 0 { newSession, prevSession := Found(newRow), Found(history[p]); }
      } else {
        var result := NewestTwo(history, s);
        assert history == history[..|history| - 1] + [newRow];
        NewestTwoBehind(history[..|history| - 1], newRow);
        if |result| > 1 {
          newSession, prevSession := Found(result[0]), Found(result[1]);
          prevProgressPercent := GetPercent(result[1].session.viewOffset, s.duration);
          mediaWatchedPercent := WatchedPercent(config, s.media);
        }
      }
      if prevSession == NoRow && newSession == NoRow {
        reference := lastId;
      } else if (prevProgressPercent < mediaWatchedPercent &&
                 prevSession.row.session.viewOffset <= newSession.row.session.viewOffset) ||
                (s.live && prevSession.row.session.guid == newSession.row.session.guid) {
        reference := prevSession.row.referenceId;
      } else {
        reference := newSession.row.id;
      }
    }

    /** `UPDATE session_history SET reference_id = ? WHERE id = ?` */
    method UpdateReference(id: nat, reference: nat)
      modifies this`history
      ensures |history| == |old(history)|
      ensures forall i | 0 <= i < |history| ::
                history[i] == (if old(history)[i].id == id then old(history)[i].(referenceId := reference)
                               else old(history)[i])
    {
      var rows := history;
      history := seq(|rows|, i requires 0 <= i < |rows| =>
        if rows[i].id == id then rows[i].(referenceId := reference) else rows[i]);
    }
  }

  // ----- what holds of every table written this way -----

  ghost predicate Ascending(rows: seq<Row>, lastId: nat) {
    && (forall i | 0 <= i < |rows| :: 0 < rows[i].id <= lastId)
    && (forall i, j | 0 <= i < j < |rows| :: rows[i].id < rows[j].id)
  }

  /** The reference is the id of an earlier row of the same user, or of the row itself, and that row
      refers to itself. */
  ghost predicate Resolves(rows: seq<Row>, i: nat)
    requires i < |rows|
  {
    exists j | 0 <= j <= i ::
      && rows[j].id == rows[i].referenceId && rows[j].session.user == rows[i].session.user
      && rows[j].referenceId == rows[j].id
  }

  ghost predicate Grouped(rows: seq<Row>, lastId: nat) {
    && Ascending(rows, lastId)
    && (forall i | 0 <= i < |rows| :: Resolves(rows, i))
  }

  lemma {:induction false} WriteKeepsGrouped(rows: seq<Row>, lastId: nat, s: Session, config: Config)
    requires Grouped(rows, lastId)
    ensures Grouped(Written(rows, lastId + 1, s, config), lastId + 1)
  {
    var rows' := Written(rows, lastId + 1, s, config);
    var n := |rows|;
    forall i | 0 <= i < |rows'| ensures Resolves(rows', i) {
      if i < n {
        assert Resolves(rows, i);
        var j :| 0 <= j <= i && rows[j].id == rows[i].referenceId && rows[j].session.user == rows[i].session.user
                 && rows[j].referenceId == rows[j].id;
        assert rows'[j] == rows[j] && rows'[i] == rows[i];
      } else if rows'[n].referenceId == lastId + 1 {
        assert rows'[n].id == lastId + 1;
      } else {
        var p := if s.live then NewestOfUser(rows, s) else NewestOfItem(rows, s);
        assert Resolves(rows, p);
        var j :| 0 <= j <= p && rows[j].id == rows[p].referenceId && rows[j].session.user == rows[p].session.user
                 && rows[j].referenceId == rows[j].id;
        assert rows'[j] == rows[j];
      }
    }
  }

  // ----- runs without live sessions -----

  /** An item keeps its duration and its media type. */
  ghost predicate SteadyItems(rows: seq<Row>) {
    forall i, j | 0 <= i < |rows| && 0 <= j < |rows| && rows[i].session.ratingKey == rows[j].session.ratingKey ::
      rows[i].session.duration == rows[j].session.duration && rows[i].session.media == rows[j].session.media
  }

  ghost predicate NoLive(rows: seq<Row>) {
    forall i | 0 <= i < |rows| :: !rows[i].session.live
  }

  /** `j` is the next row after `i` of the same user for the same item. */
  ghost predicate Adjacent(rows: seq<Row>, i: nat, j: nat)
    requires i < |rows| && j < |rows|
  {
    var s := rows[j].session;
    && i < j && rows[i].session.user == s.user && rows[i].session.ratingKey == s.ratingKey
    && forall k | i < k < j :: !(rows[k].session.user == s.user && rows[k].session.ratingKey == s.ratingKey)
  }

  /** Two rows in one group: one item of one user, everything between them in the group too, playback
      going forward, and the earlier one not yet watched. */
  ghost predicate OneGroup(rows: seq<Row>, config: Config, i: nat, j: nat)
    requires i < j < |rows|
  {
    var a, b := rows[i].session, rows[j].session;
    && a.user == b.user && a.ratingKey == b.ratingKey
    && a.viewOffset <= b.viewOffset
    && Unwatched(config, a.viewOffset, b)
    && (forall k | i < k < j && rows[k].session.user == b.user && rows[k].session.ratingKey == b.ratingKey ::
          rows[k].referenceId == rows[i].referenceId)
  }

  ghost predicate Groups(rows: seq<Row>, config: Config) {
    forall i, j | 0 <= i < j < |rows| && rows[i].referenceId == rows[j].referenceId :: OneGroup(rows, config, i, j)
  }

  lemma {:induction false} ReferenceNotLater(rows: seq<Row>, lastId: nat, i: nat)
    requires Grouped(rows, lastId) && i < |rows|
    ensures 0 < rows[i].referenceId <= rows[i].id <= lastId
  {
    assert Resolves(rows, i);
    var j :| 0 <= j <= i && rows[j].id == rows[i].referenceId;
  }

  lemma {:induction false} WriteKeepsGroups(rows: seq<Row>, lastId: nat, s: Session, config: Config)
    requires Grouped(rows, lastId) && Groups(rows, config)
    requires var rows' := Written(rows, lastId + 1, s, config); SteadyItems(rows') && NoLive(rows')
    ensures Groups(Written(rows, lastId + 1, s, config), config)
  {
    var rows' := Written(rows, lastId + 1, s, config);
    var n := |rows|;
    assert rows'[n].session == s;
    forall i, j | 0 <= i < j < |rows'| && rows'[i].referenceId == rows'[j].referenceId
      ensures OneGroup(rows', config, i, j)
    {
      if j < n {
        assert OneGroup(rows, config, i, j);
      } else {
        ReferenceNotLater(rows, lastId, i);
        var p := NewestOfItem(rows, s);
        assert rows'[n].referenceId == rows[p].referenceId;
        if i < p {
          assert OneGroup(rows, config, i, p);
          assert rows'[p].session.duration == rows'[n].session.duration;
        } else {
          assert p < i ==> OneGroup(rows, config, p, i);
          assert i == p;
        }
      }
    }
  }

  lemma {:induction false} SteadyFront(rows: seq<Row>, n: nat)
    requires n <= |rows| && SteadyItems(rows) && NoLive(rows)
    ensures SteadyItems(rows[..n]) && NoLive(rows[..n])
  {
    assert forall i | 0 <= i < n :: rows[..n][i] == rows[i];
  }

  // ----- whole runs -----

  function After(sessions: seq<Session>, config: Config): seq<Row> {
    if sessions == [] then []
    else Written(After(sessions[..|sessions| - 1], config), |sessions|, sessions[|sessions| - 1], config)
  }

  /** After any sessions, live or not: every reference is the id of a row of the same user that is not
      newer and refers to itself. */
  lemma {:induction false} RunIsGrouped(sessions: seq<Session>, config: Config)
    ensures Grouped(After(sessions, config), |sessions|)
  {
    if sessions != [] {
      var front := sessions[..|sessions| - 1];
      RunIsGrouped(front, config);
      WriteKeepsGrouped(After(front, config), |front|, sessions[|front|], config);
    }
  }

  /** After any sessions that are not live: a group is one unbroken stretch of a user's rows for one
      item, playing forward, of which only the last row may be watched. */
  lemma {:induction false} RunKeepsGroups(sessions: seq<Session>, config: Config)
    requires SteadyItems(After(sessions, config)) && NoLive(After(sessions, config))
    ensures Groups(After(sessions, config), config)
  {
    if sessions != [] {
      var front := sessions[..|sessions| - 1];
      var rows := After(front, config);
      var all := After(sessions, config);
      SteadyFront(all, |rows|);
      assert all[..|rows|] == rows;
      RunIsGrouped(front, config);
      RunKeepsGroups(front, config);
      WriteKeepsGroups(rows, |front|, sessions[|front|], config);
    }
  }

  lemma {:induction false} NewRowJoins(rows: seq<Row>, lastId: nat, s: Session, config: Config, i: nat)
    requires Grouped(rows, lastId) && !s.live && NewestOfItem(rows, s) == i
    ensures rows[i].referenceId == Reference(rows, lastId + 1, s, config)
       <==> Unwatched(config, rows[i].session.viewOffset, s) && rows[i].session.viewOffset <= s.viewOffset
  {
    ReferenceNotLater(rows, lastId, i);
  }

  ghost predicate Joined(rows: seq<Row>, config: Config, i: nat, j: nat)
    requires i < |rows| && j < |rows|
  {
    var a, b := rows[i].session, rows[j].session;
    rows[i].referenceId == rows[j].referenceId <==> Unwatched(config, a.viewOffset, b) && a.viewOffset <= b.viewOffset
  }

  /** Neighbouring rows of an item are in one group exactly when the earlier one is not watched and
      playback went forward. */
  ghost predicate Neighbours(rows: seq<Row>, config: Config) {
    forall i, j | 0 <= i < j < |rows| && Adjacent(rows, i, j) && !rows[j].session.live :: Joined(rows, config, i, j)
  }

  lemma {:induction false} WriteKeepsNeighbours(rows: seq<Row>, lastId: nat, s: Session, config: Config)
    requires Grouped(rows, lastId) && Neighbours(rows, config)
    ensures Neighbours(Written(rows, lastId + 1, s, config), config)
  {
    var rows' := Written(rows, lastId + 1, s, config);
    var n := |rows|;
    forall i, j | 0 <= i < j < |rows'| && Adjacent(rows', i, j) && !rows'[j].session.live
      ensures Joined(rows', config, i, j)
    {
      if j < n {
        assert forall k | 0 <= k < n :: rows'[k] == rows[k];
        assert Adjacent(rows, i, j);
        assert Joined(rows, config, i, j);
      } else {
        assert rows'[i] == rows[i] && rows'[n].session == s;
        assert forall k | i < k < n :: !SameItem(rows'[k], s) && rows'[k] == rows[k];
        NewRowJoins(rows, lastId, s, config, i);
      }
    }
  }

  /** This holds after any sessions, live rows in between or not. */
  lemma {:induction false} RunKeepsNeighbours(sessions: seq<Session>, config: Config)
    ensures Neighbours(After(sessions, config), config)
  {
    if sessions != [] {
      var front := sessions[..|sessions| - 1];
      RunIsGrouped(front, config);
      RunKeepsNeighbours(front, config);
      WriteKeepsNeighbours(After(front, config), |front|, sessions[|front|], config);
    }
  }

  // ----- live sessions and first rows -----

  /** `j` is the next row after `i` of the same user, whatever was played. */
  ghost predicate NextOfUser(rows: seq<Row>, i: nat, j: nat)
    requires i < |rows| && j < |rows|
  {
    && i < j && rows[i].session.user == rows[j].session.user
    && forall k | i < k < j :: rows[k].session.user != rows[j].session.user
  }

  /** A live row joins its user's row before it if both are of one programme, and otherwise refers to
      itself. */
  ghost predicate LiveJoined(rows: seq<Row>, i: nat, j: nat)
    requires i < |rows| && j < |rows|
  {
    && (rows[i].referenceId == rows[j].referenceId <==> rows[i].session.guid == rows[j].session.guid)
    && (rows[i].session.guid != rows[j].session.guid ==> rows[j].referenceId == rows[j].id)
  }

  ghost predicate LiveNeighbours(rows: seq<Row>) {
    forall i, j | 0 <= i < j < |rows| && NextOfUser(rows, i, j) && rows[j].session.live :: LiveJoined(rows, i, j)
  }

  /** A row that has none to join: a live one the first of its user, another the first of its user for
      its item. */
  ghost predicate Alone(rows: seq<Row>, j: nat)
    requires j < |rows|
  {
    var s := rows[j].session;
    forall k | 0 <= k < j ::
      rows[k].session.user == s.user ==> !s.live && rows[k].session.ratingKey != s.ratingKey
  }

  ghost predicate FirstRows(rows: seq<Row>) {
    forall j | 0 <= j < |rows| && Alone(rows, j) :: rows[j].referenceId == rows[j].id
  }

  lemma {:induction false} WriteKeepsLive(rows: seq<Row>, lastId: nat, s: Session, config: Config)
    requires Grouped(rows, lastId) && LiveNeighbours(rows)
    ensures LiveNeighbours(Written(rows, lastId + 1, s, config))
  {
    var rows' := Written(rows, lastId + 1, s, config);
    var n := |rows|;
    forall i, j | 0 <= i < j < |rows'| && NextOfUser(rows', i, j) && rows'[j].session.live
      ensures LiveJoined(rows', i, j)
    {
      if j < n {
        assert forall k | 0 <= k < n :: rows'[k] == rows[k];
        assert NextOfUser(rows, i, j);
        assert LiveJoined(rows, i, j);
      } else {
        assert rows'[i] == rows[i] && rows'[n].session == s;
        assert forall k | i < k < n :: rows'[k] == rows[k];
        assert NewestOfUser(rows, s) == i;
        ReferenceNotLater(rows, lastId, i);
      }
    }
  }

  lemma {:induction false} WriteKeepsFirst(rows: seq<Row>, lastId: nat, s: Session, config: Config)
    requires FirstRows(rows)
    ensures FirstRows(Written(rows, lastId + 1, s, config))
  {
    var rows' := Written(rows, lastId + 1, s, config);
    var n := |rows|;
    forall j | 0 <= j < |rows'| && Alone(rows', j) ensures rows'[j].referenceId == rows'[j].id {
      assert forall k | 0 <= k < n :: rows'[k] == rows[k];
      if j < n {
        assert Alone(rows, j);
      } else {
        assert rows'[n].session == s;
      }
    }
  }

  /** After any sessions: a live row and its user's row before it are in one group if and only if they
      are of one programme, and a row that has none to join refers to itself. */
  lemma {:induction false} RunGroupsLive(sessions: seq<Session>, config: Config)
    ensures LiveNeighbours(After(sessions, config)) && FirstRows(After(sessions, config))
  {
    if sessions != [] {
      var front := sessions[..|sessions| - 1];
      RunIsGrouped(front, config);
      RunGroupsLive(front, config);
      WriteKeepsLive(After(front, config), |front|, sessions[|front|], config);
      WriteKeepsFirst(After(front, config), |front|, sessions[|front|], config);
    }
  }
}

/** Replacing the rating keys of a rebuilt library in the history tables.

    The replacements are written one pair at a time, so a row already rewritten could be rewritten
    again by a later pair.  The ids written so far are kept per level and left out of later pairs. */
module KeyRemap {

  type Id = int
  type Key = int

  /** Which of a row's three keys the media type of the new key is about. */
  datatype Level = Show | Season | Item

  datatype Keys = Keys(grandparent: Key, parent: Key, item: Key)

  /** What the server says of a new key: its level, and the keys it has there. */
  datatype Details = Details(level: Level, keys: Keys)

  /** session_history, session_history_media_info, session_history_metadata, and the ids written. */
  datatype Tables = Tables(history: map<Id, Keys>, mediaInfo: map<Id, Key>, metadata: map<Id, Keys>,
                           written: map<Level, set<Id>>)

  function KeyAt(r: Keys, level: Level): Key {
    match level
    case Show => r.grandparent
    case Season => r.parent
    case Item => r.item
  }

  function WithKey(r: Keys, level: Level, k: Key): Keys {
    match level
    case Show => r.(grandparent := k)
    case Season => r.(parent := k)
    case Item => r.(item := k)
  }

  function Written(t: Tables, level: Level): set<Id> {
    if level in t.written then t.written[level] else {}
  }

  function Matching(t: Tables, level: Level, oldKey: Key): set<Id> {
    set id | id in t.history && KeyAt(t.history[id], level) == oldKey && id !in Written(t, level)
  }

  function Rewrite(rows: map<Id, Keys>, ids: set<Id>, level: Level, k: Key): map<Id, Keys> {
    map id | id in rows :: if id in ids then WithKey(rows[id], level, k) else rows[id]
  }

  function Replace<T>(rows: map<Id, T>, ids: set<Id>, v: T): map<Id, T> {
    map id | id in rows :: if id in ids then v else rows[id]
  }

  /** One pair of the mapping. */
  function Pair(t: Tables, oldKey: Key, newKey: Key, server: map<Key, Details>): Tables {
    if newKey !in server then t
    else
      var level := server[newKey].level;
      var ids := Matching(t, level, oldKey);
      if ids == {} then t
      else
        Tables(Rewrite(t.history, ids, level, newKey),
               if level == Item then Replace(t.mediaInfo, ids, newKey) else t.mediaInfo,
               if level == Item then Replace(t.metadata, ids, server[newKey].keys) else Rewrite(t.metadata, ids, level, newKey),
               t.written[level := Written(t, level) + ids])
  }

  /** The pairs of a mapping in some order of its keys. */
  function InTurn(t: Tables, order: seq<Key>, mapping: map<Key, Key>, server: map<Key, Details>): Tables
    requires forall k | k in order :: k in mapping
  {
    if order == [] then t
    else
      var last := order[|order| - 1];
      Pair(InTurn(t, order[..|order| - 1], mapping, server), last, mapping[last], server)
  }

  function KeySet(order: seq<Key>): set<Key> {
    set k | k in order
  }

  ghost predicate OrderOf(order: seq<Key>, mapping: map<Key, Key>) {
    && (forall k :: k in order <==> k in mapping)
    && (forall i, j | 0 <= i < j < |order| :: order[i] != order[j])
  }

  class DataFactory {
    var tables: Tables

    constructor (tables: Tables)
      ensures this.tables == tables
    {
      this.tables := tables;
    }

    method UpdateMetadata(order: seq<Key>, mapping: map<Key, Key>, server: map<Key, Details>, singleUpdate: bool)
      requires OrderOf(order, mapping)
      modifies this
      ensures tables == InTurn(if singleUpdate then old(tables).(written := map[]) else old(tables), order, mapping, server)
    {
      if singleUpdate {
        tables := tables.(written := map[]);
      }
      ghost var start := tables;
      for n := 0 to |order|
        invariant tables == InTurn(start, order[..n], mapping, server)
      {
        assert order[..n + 1][..n] == order[..n];
        var oldKey := order[n];
        var newKey := mapping[oldKey];
        if newKey in server {
          var level := server[newKey].level;
          var ids := Matching(tables, level, oldKey);
          if ids != {} {
            var written := tables.written[level := Written(tables, level) + ids];
            var history := Rewrite(tables.history, ids, level, newKey);
            if level == Item {
              tables := Tables(history, Replace(tables.mediaInfo, ids, newKey),
                               Replace(tables.metadata, ids, server[newKey].keys), written);
            } else {
              tables := Tables(history, tables.mediaInfo, Rewrite(tables.metadata, ids, level, newKey), written);
            }
          }
        }
      }
      assert order[..|order|] == order;
    }
  }

  // ----- one simultaneous substitution -----

  /** The new key where the mapping has one for this level. */
  function Subst(mapping: map<Key, Key>, server: map<Key, Details>, level: Level, k: Key): Key {
    if Applies(mapping, server, level, k) then mapping[k] else k
  }

  predicate Applies(mapping: map<Key, Key>, server: map<Key, Details>, level: Level, k: Key) {
    k in mapping && mapping[k] in server && server[mapping[k]].level == level
  }

  function SubstRow(mapping: map<Key, Key>, server: map<Key, Details>, r: Keys): Keys {
    Keys(Subst(mapping, server, Show, r.grandparent), Subst(mapping, server, Season, r.parent),
         Subst(mapping, server, Item, r.item))
  }

  /** A row's key at one level after the pairs for the keys in `seen`. */
  ghost predicate RowDone(t0: Tables, t: Tables, seen: set<Key>, mapping: map<Key, Key>, server: map<Key, Details>,
                          id: Id, level: Level)
    requires id in t0.history && id in t.history
  {
    var k := KeyAt(t0.history[id], level);
    var hit := id !in Written(t0, level) && k in seen && Applies(mapping, server, level, k);
    && KeyAt(t.history[id], level) == (if hit then mapping[k] else k)
    && (id in Written(t, level) <==> id in Written(t0, level) || hit)
  }

  ghost predicate Progress(t0: Tables, t: Tables, seen: set<Key>, mapping: map<Key, Key>, server: map<Key, Details>) {
    && t.history.Keys == t0.history.Keys
    && (forall id, level: Level | id in t0.history :: RowDone(t0, t, seen, mapping, server, id, level))
  }

  lemma {:induction false} InTurnProgress(t0: Tables, order: seq<Key>, mapping: map<Key, Key>,
                                          server: map<Key, Details>)
    requires forall k | k in order :: k in mapping
    requires forall i, j | 0 <= i < j < |order| :: order[i] != order[j]
    ensures Progress(t0, InTurn(t0, order, mapping, server), KeySet(order), mapping, server)
  {
    if order != [] {
      var n := |order| - 1;
      var front, last := order[..n], order[n];
      InTurnProgress(t0, front, mapping, server);
      var t := InTurn(t0, front, mapping, server);
      assert last !in front;
      assert KeySet(order) == KeySet(front) + {last};
      PairProgress(t0, t, KeySet(front), last, mapping, server);
    }
  }

  lemma {:induction false} PairProgress(t0: Tables, t: Tables, seen: set<Key>, oldKey: Key, mapping: map<Key, Key>,
                                        server: map<Key, Details>)
    requires Progress(t0, t, seen, mapping, server) && oldKey in mapping && oldKey !in seen
    ensures Progress(t0, Pair(t, oldKey, mapping[oldKey], server), seen + {oldKey}, mapping, server)
  {
    var t' := Pair(t, oldKey, mapping[oldKey], server);
    PairKeepsRows(t, oldKey, mapping[oldKey], server);
    forall id, level: Level | id in t0.history
      ensures RowDone(t0, t', seen + {oldKey}, mapping, server, id, level)
    {
      RowProgress(t0, t, seen, oldKey, mapping, server, id, level);
    }
  }

  lemma {:induction false} PairKeepsRows(t: Tables, oldKey: Key, newKey: Key, server: map<Key, Details>)
    ensures Pair(t, oldKey, newKey, server).history.Keys == t.history.Keys
  {
  }

  lemma {:induction false} RowProgress(t0: Tables, t: Tables, seen: set<Key>, oldKey: Key, mapping: map<Key, Key>,
                                       server: map<Key, Details>,
                    id: Id, level: Level)
    requires id in t0.history && id in t.history && RowDone(t0, t, seen, mapping, server, id, level)
    requires oldKey in mapping && oldKey !in seen
    ensures id in Pair(t, oldKey, mapping[oldKey], server).history
    ensures RowDone(t0, Pair(t, oldKey, mapping[oldKey], server), seen + {oldKey}, mapping, server, id, level)
  {
    if mapping[oldKey] in server {
      var at := server[mapping[oldKey]].level;
      var ids := Matching(t, at, oldKey);
      OtherLevel(t.history[id], at, level, mapping[oldKey]);
      assert level == at && id in ids <==>
             level == at && KeyAt(t.history[id], level) == oldKey && id !in Written(t, level);
    }
  }

  lemma {:induction false} OtherLevel(r: Keys, level: Level, other: Level, k: Key)
    ensures KeyAt(WithKey(r, level, k), other) == if other == level then k else KeyAt(r, other)
  {
  }

  /** Starting with nothing written, the pairs act on session_history as one simultaneous substitution
      at each level: for every mapping, with its swaps, chains and cycles, and every order. */
  lemma {:induction false} SimultaneousSubstitution(t: Tables, order: seq<Key>, mapping: map<Key, Key>,
                                                    server: map<Key, Details>)
    requires OrderOf(order, mapping) && t.written == map[]
    ensures InTurn(t, order, mapping, server).history
         == map id | id in t.history :: SubstRow(mapping, server, t.history[id])
  {
    var t' := InTurn(t, order, mapping, server);
    InTurnProgress(t, order, mapping, server);
    forall id | id in t.history ensures t'.history[id] == SubstRow(mapping, server, t.history[id]) {
      var r := t'.history[id];
      assert RowDone(t, t', KeySet(order), mapping, server, id, Show);
      assert RowDone(t, t', KeySet(order), mapping, server, id, Season);
      assert RowDone(t, t', KeySet(order), mapping, server, id, Item);
      assert KeyAt(r, Show) == Subst(mapping, server, Show, t.history[id].grandparent);
      assert KeyAt(r, Season) == Subst(mapping, server, Season, t.history[id].parent);
      assert KeyAt(r, Item) == Subst(mapping, server, Item, t.history[id].item);
    }
  }

  /** Ids written before keep their keys; this is how a second update could miss rows. */
  lemma {:induction false} WrittenStays(t: Tables, order: seq<Key>, mapping: map<Key, Key>, server: map<Key, Details>,
                                        id: Id, level: Level)
    requires OrderOf(order, mapping) && id in t.history
    ensures id in InTurn(t, order, mapping, server).history
    ensures var k := KeyAt(t.history[id], level);
            KeyAt(InTurn(t, order, mapping, server).history[id], level)
            == (if id in Written(t, level) then k else Subst(mapping, server, level, k))
  {
    InTurnProgress(t, order, mapping, server);
    assert RowDone(t, InTurn(t, order, mapping, server), KeySet(order), mapping, server, id, level);
  }

  // ----- the tables stay in step -----

  ghost predicate Agree(t: Tables) {
    forall id | id in t.history && id in t.mediaInfo :: t.mediaInfo[id] == t.history[id].item
  }

  lemma {:induction false} TablesStayInStep(t: Tables, order: seq<Key>, mapping: map<Key, Key>,
                                            server: map<Key, Details>)
    requires (forall k | k in order :: k in mapping) && Agree(t)
    ensures Agree(InTurn(t, order, mapping, server))
    ensures InTurn(t, order, mapping, server).mediaInfo.Keys == t.mediaInfo.Keys
  {
    if order != [] {
      TablesStayInStep(t, order[..|order| - 1], mapping, server);
    }
  }

  /** session_history and session_history_media_info come out the same whatever the order. */
  lemma {:induction false} OrderIsIrrelevant(t: Tables, a: seq<Key>, b: seq<Key>, mapping: map<Key, Key>,
                                             server: map<Key, Details>)
    requires OrderOf(a, mapping) && OrderOf(b, mapping) && t.written == map[] && Agree(t)
    requires t.mediaInfo.Keys <= t.history.Keys
    ensures InTurn(t, a, mapping, server).history == InTurn(t, b, mapping, server).history
    ensures InTurn(t, a, mapping, server).mediaInfo == InTurn(t, b, mapping, server).mediaInfo
  {
    SimultaneousSubstitution(t, a, mapping, server);
    SimultaneousSubstitution(t, b, mapping, server);
    TablesStayInStep(t, a, mapping, server);
    TablesStayInStep(t, b, mapping, server);
    var ta, tb := InTurn(t, a, mapping, server), InTurn(t, b, mapping, server);
    forall id | id in t.mediaInfo ensures ta.mediaInfo[id] == tb.mediaInfo[id] {
      assert id in ta.history;
    }
  }

  // ----- when the metadata table depends on the order -----

  /** `x` stands behind `y` in the order. */
  predicate Later(order: seq<Key>, x: Key, y: Key) {
    order != [] &&
    var front, last := order[..|order| - 1], order[|order| - 1];
    if last == x then y in front else last != y && Later(front, x, y)
  }

  /** One key of a metadata row after the pairs: the row's item pair writes all three, and what the pair
      of the show or season has written lasts only if the item's pair does not come later. */
  function MetaKey(order: seq<Key>, mapping: map<Key, Key>, server: map<Key, Details>, h: Keys, m: Keys, level: Level): Key
  {
    var k := KeyAt(h, level);
    var own := k in order && Applies(mapping, server, level, k);
    var item := h.item in order && Applies(mapping, server, Item, h.item);
    if level != Item && own && !(item && Later(order, h.item, k)) then mapping[k]
    else if item then KeyAt(server[mapping[h.item]].keys, level)
    else KeyAt(m, level)
  }

  ghost predicate MetaDone(t0: Tables, t: Tables, order: seq<Key>, mapping: map<Key, Key>, server: map<Key, Details>) {
    && t.metadata.Keys == t0.metadata.Keys
    && (forall id | id in t0.metadata && id !in t0.history :: t.metadata[id] == t0.metadata[id])
    && (forall id, level: Level | id in t0.metadata && id in t0.history ::
          KeyAt(t.metadata[id], level) == MetaKey(order, mapping, server, t0.history[id], t0.metadata[id], level))
  }

  lemma {:induction false} MetadataProgress(t0: Tables, order: seq<Key>, mapping: map<Key, Key>,
                                            server: map<Key, Details>)
    requires forall k | k in order :: k in mapping
    requires forall i, j | 0 <= i < j < |order| :: order[i] != order[j]
    requires t0.written == map[]
    ensures MetaDone(t0, InTurn(t0, order, mapping, server), order, mapping, server)
  {
    if order != [] {
      var n := |order| - 1;
      var front, last := order[..n], order[n];
      MetadataProgress(t0, front, mapping, server);
      InTurnProgress(t0, front, mapping, server);
      assert last !in front;
      MetadataPair(t0, InTurn(t0, front, mapping, server), front, last, mapping, server);
      assert order == front + [last];
    }
  }

  /** A pair is for the rows that had the old key to begin with. */
  lemma {:induction false} MatchingAtFirst(t0: Tables, t: Tables, front: seq<Key>, last: Key, mapping: map<Key, Key>,
                        server: map<Key, Details>, level: Level, id: Id)
    requires Progress(t0, t, KeySet(front), mapping, server) && t0.written == map[] && last !in front
    ensures id in Matching(t, level, last) <==> id in t0.history && KeyAt(t0.history[id], level) == last
  {
    if id in t0.history { assert RowDone(t0, t, KeySet(front), mapping, server, id, level); }
  }

  lemma {:induction false} MetadataPair(t0: Tables, t: Tables, front: seq<Key>, last: Key, mapping: map<Key, Key>,
                     server: map<Key, Details>)
    requires Progress(t0, t, KeySet(front), mapping, server) && t0.written == map[]
    requires last in mapping && last !in front && MetaDone(t0, t, front, mapping, server)
    ensures MetaDone(t0, Pair(t, last, mapping[last], server), front + [last], mapping, server)
  {
    var t' := Pair(t, last, mapping[last], server);
    assert t'.metadata.Keys == t.metadata.Keys;
    forall id | id in t0.metadata && id !in t0.history ensures t'.metadata[id] == t0.metadata[id] {
      MetadataRow(t, last, mapping[last], server, id);
    }
    forall id, level: Level | id in t0.metadata && id in t0.history
      ensures KeyAt(t'.metadata[id], level)
           == MetaKey(front + [last], mapping, server, t0.history[id], t0.metadata[id], level)
    {
      MetadataRow(t, last, mapping[last], server, id);
      if mapping[last] in server {
        MatchingAtFirst(t0, t, front, last, mapping, server, server[mapping[last]].level, id);
      }
      assert (front + [last])[..|front|] == front;
      MetaKeyStep(front, last, mapping, server, t0.history[id], t0.metadata[id], level);
    }
  }

  /** What a pair does to one metadata row. */
  lemma {:induction false} MetadataRow(t: Tables, oldKey: Key, newKey: Key, server: map<Key, Details>, id: Id)
    requires id in t.metadata
    ensures var t' := Pair(t, oldKey, newKey, server);
            && id in t'.metadata
            && t'.metadata[id] ==
               if newKey in server && id in Matching(t, server[newKey].level, oldKey) then
                 if server[newKey].level == Item then server[newKey].keys
                 else WithKey(t.metadata[id], server[newKey].level, newKey)
               else t.metadata[id]
  {
  }

  lemma {:induction false} MetaKeyStep(front: seq<Key>, last: Key, mapping: map<Key, Key>, server: map<Key, Details>,
                                       h: Keys, m: Keys,
                    level: Level)
    requires last in mapping && last !in front
    ensures var before := MetaKey(front, mapping, server, h, m, level);
            MetaKey(front + [last], mapping, server, h, m, level)
            == if mapping[last] in server && KeyAt(h, server[mapping[last]].level) == last then
                 if server[mapping[last]].level == Item then KeyAt(server[mapping[last]].keys, level)
                 else if server[mapping[last]].level == level then mapping[last]
                 else before
               else before
  {
    assert (front + [last])[..|front|] == front;
    assert forall k :: k in front + [last] <==> k in front || k == last;
  }

  /** Every order of the pairs gives the same metadata. */
  ghost predicate AnyOrder(t: Tables, mapping: map<Key, Key>, server: map<Key, Details>) {
    forall a, b {:induction false} | OrderOf(a, mapping) && OrderOf(b, mapping) ::
      InTurn(t, a, mapping, server).metadata == InTurn(t, b, mapping, server).metadata
  }

  /** Where the mapping has a row's item and its show or season, the server files the new item under the
      show and season that the mapping says. */
  predicate FiledAlike(mapping: map<Key, Key>, server: map<Key, Details>, h: Keys) {
    Applies(mapping, server, Item, h.item) ==>
      var filed := server[mapping[h.item]].keys;
      && (Applies(mapping, server, Show, h.grandparent) ==> mapping[h.grandparent] == filed.grandparent)
      && (Applies(mapping, server, Season, h.parent) ==> mapping[h.parent] == filed.parent)
  }

  predicate AllFiledAlike(t: Tables, mapping: map<Key, Key>, server: map<Key, Details>) {
    forall id | id in t.history && id in t.metadata :: FiledAlike(mapping, server, t.history[id])
  }

  /** The metadata table comes out the same in every order of the pairs exactly when the server and the
      mapping agree on where each rewritten item is filed. */
  lemma {:induction false} MetadataOrderExact(t: Tables, mapping: map<Key, Key>, server: map<Key, Details>)
    requires t.written == map[]
    ensures AnyOrder(t, mapping, server) <==> AllFiledAlike(t, mapping, server)
  {
    if AllFiledAlike(t, mapping, server) {
      forall a, b | OrderOf(a, mapping) && OrderOf(b, mapping)
        ensures InTurn(t, a, mapping, server).metadata == InTurn(t, b, mapping, server).metadata
      {
        FiledAlikeAnyOrder(t, a, b, mapping, server);
      }
    } else {
      var id :| id in t.history && id in t.metadata && !FiledAlike(mapping, server, t.history[id]);
      FiledOtherwise(t, id, mapping, server);
    }
  }

  lemma {:induction false} FiledAlikeAnyOrder(t: Tables, a: seq<Key>, b: seq<Key>, mapping: map<Key, Key>,
                                              server: map<Key, Details>)
    requires t.written == map[] && AllFiledAlike(t, mapping, server) && OrderOf(a, mapping) && OrderOf(b, mapping)
    ensures InTurn(t, a, mapping, server).metadata == InTurn(t, b, mapping, server).metadata
  {
    MetadataProgress(t, a, mapping, server);
    MetadataProgress(t, b, mapping, server);
    var ma, mb := InTurn(t, a, mapping, server).metadata, InTurn(t, b, mapping, server).metadata;
    forall id | id in t.metadata ensures ma[id] == mb[id] {
      if id in t.history {
        var h, m := t.history[id], t.metadata[id];
        assert FiledAlike(mapping, server, h);
        assert KeyAt(ma[id], Show) == MetaKey(a, mapping, server, h, m, Show) == KeyAt(mb[id], Show);
        assert KeyAt(ma[id], Season) == MetaKey(a, mapping, server, h, m, Season) == KeyAt(mb[id], Season);
        assert KeyAt(ma[id], Item) == MetaKey(a, mapping, server, h, m, Item) == KeyAt(mb[id], Item);
      }
    }
  }

  lemma {:induction false} Listed(keys: set<Key>) returns (order: seq<Key>)
    ensures forall k :: k in order <==> k in keys
    ensures forall i, j | 0 <= i < j < |order| :: order[i] != order[j]
  {
    if k :| k in keys {
      var front := Listed(keys - {k});
      order := front + [k];
    } else {
      order := [];
    }
  }

  /** Some order has the key last. */
  lemma {:induction false} LastOf(mapping: map<Key, Key>, k: Key) returns (order: seq<Key>)
    requires k in mapping
    ensures OrderOf(order, mapping) && forall x | x in mapping && x != k :: Later(order, k, x) && !Later(order, x, k)
  {
    var front := Listed(mapping.Keys - {k});
    order := front + [k];
    assert order[..|order| - 1] == front;
  }

  lemma {:induction false} FiledOtherwise(t: Tables, id: Id, mapping: map<Key, Key>, server: map<Key, Details>)
    requires t.written == map[] && id in t.history && id in t.metadata && !FiledAlike(mapping, server, t.history[id])
    ensures !AnyOrder(t, mapping, server)
  {
    var h, m := t.history[id], t.metadata[id];
    var level := if Applies(mapping, server, Show, h.grandparent)
                    && mapping[h.grandparent] != server[mapping[h.item]].keys.grandparent then Show else Season;
    var a := LastOf(mapping, h.item);
    var b := LastOf(mapping, KeyAt(h, level));
    MetadataProgress(t, a, mapping, server);
    MetadataProgress(t, b, mapping, server);
    var ma, mb := InTurn(t, a, mapping, server).metadata, InTurn(t, b, mapping, server).metadata;
    assert KeyAt(ma[id], level) == MetaKey(a, mapping, server, h, m, level) == KeyAt(server[mapping[h.item]].keys, level);
    assert KeyAt(mb[id], level) == MetaKey(b, mapping, server, h, m, level) == mapping[KeyAt(h, level)];
    assert ma[id] != mb[id];
  }

  /** One row: the server files the item under another show than the mapping says, and the later pair
      wins. */
  lemma {:induction false} MetadataDependsOnOrder()
    ensures && OrderOf([1, 3], SWAPPED) && OrderOf([3, 1], SWAPPED) && !AllFiledAlike(ONE_ROW, SWAPPED, SERVER)
            && InTurn(ONE_ROW, [1, 3], SWAPPED, SERVER).metadata == map[7 := Keys(99, 12, 13)]
            && InTurn(ONE_ROW, [3, 1], SWAPPED, SERVER).metadata == map[7 := Keys(11, 12, 13)]
  {
    assert !FiledAlike(SWAPPED, SERVER, ONE_ROW.history[7]);
    OneRowBecomes([1, 3]);
    OneRowBecomes([3, 1]);
    assert [1, 3][..1] == [1] && [3, 1][..1] == [3];
  }

  lemma {:induction false} OneRowBecomes(order: seq<Key>)
    requires OrderOf(order, SWAPPED)
    ensures InTurn(ONE_ROW, order, SWAPPED, SERVER).metadata
         == map[7 := Keys(if Later(order, 3, 1) then 99 else 11, 12, 13)]
  {
    MetadataProgress(ONE_ROW, order, SWAPPED, SERVER);
    var h, m := ONE_ROW.history[7], ONE_ROW.metadata[7];
    var r := InTurn(ONE_ROW, order, SWAPPED, SERVER).metadata[7];
    assert KeyAt(r, Show) == MetaKey(order, SWAPPED, SERVER, h, m, Show);
    assert KeyAt(r, Season) == MetaKey(order, SWAPPED, SERVER, h, m, Season);
    assert KeyAt(r, Item) == MetaKey(order, SWAPPED, SERVER, h, m, Item);
  }

  const ONE_ROW := Tables(map[7 := Keys(1, 2, 3)], map[7 := 3], map[7 := Keys(1, 2, 3)], map[])
  const SWAPPED: map<Key, Key> := map[1 := 11, 3 := 13]
  const SERVER := map[11 := Details(Show, Keys(0, 0, 11)), 13 := Details(Item, Keys(99, 12, 13))]
}

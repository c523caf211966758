/** Selecting the attributes of an export: the parts of a tree of dictionaries that the selected paths
    lead to, merged into one dictionary. Parts are shared with the tree and not copied. */
module ExportAttrs {
  import opened Options
  import opened Paths

  class Dict {
    var items: map<Key, Item>

    constructor (items: map<Key, Item>)
      ensures this.items == items
    {
      this.items := items;
    }
  }

  datatype Item = Value(v: int) | Node(d: Dict)

  // ----- trees of keys -----

  /** The keys of dictionaries by their paths. */
  type Keys = map<Path, set<Key>>

  predicate InTree(tree: Keys, q: Path) {
    q == Root || (q.parent in tree && q.key in tree[q.parent])
  }

  /** Every dictionary is an item of the one above. */
  ghost predicate IsTree(tree: Keys) {
    Root in tree && forall q {:trigger InTree(tree, q)} | q in tree :: InTree(tree, q)
  }

  /** `q` is still there when the dictionaries in `have` have only some of their keys. */
  predicate Present(tree: Keys, have: Keys, q: Path) {
    q == Root
    || (InTree(tree, q) && Present(tree, have, q.parent) && (q.parent in have ==> q.key in have[q.parent]))
  }

  /** The part of the tree that a path selects. */
  predicate Selected(tree: Keys, v: Path, q: Path) {
    InTree(tree, q) && Comparable(q, v)
  }

  // ----- the dictionaries -----

  /** Dictionaries by their paths, and what is in them. */
  datatype Nodes = Nodes(at: map<Path, Dict>, items: map<Path, map<Key, Item>>)
  {
    ghost function Keys(): Keys {
      map p | p in items :: items[p].Keys
    }

    /** The record is what is in memory. */
    ghost predicate Live()
      reads at.Values
    {
      at.Keys == items.Keys && forall p | p in at :: at[p].items == items[p]
    }
  }

  /** The dictionaries of a tree. */
  ghost predicate Source(src: Nodes) {
    && src.at.Keys == src.items.Keys && IsTree(src.Keys())
    && forall p, k | p in src.items && k in src.items[p] ::
         if Down(p, k) in src.at then src.items[p][k] == Node(src.at[Down(p, k)]) else src.items[p][k].Value?
  }

  /** What an item of a partly copied tree is. */
  ghost function ItemAt(src: Nodes, own: Nodes, p: Path, k: Key): Item
    requires p in src.items && k in src.items[p]
  {
    if Down(p, k) in own.at then Node(own.at[Down(p, k)]) else src.items[p][k]
  }

  ghost predicate Distinct(at: map<Path, Dict>) {
    forall p, q | p in at && q in at && at[p] == at[q] :: p == q
  }

  ghost predicate Placed(src: Nodes, own: Nodes) {
    own.at.Keys == own.items.Keys <= src.items.Keys && own.at.Values !! src.at.Values && Distinct(own.at)
  }

  /** The items of these dictionaries are some of the tree's, up to the new dictionaries in `whole`. */
  ghost predicate ItemsOf(src: Nodes, own: Nodes, whole: Nodes) {
    && (forall p | p in own.items :: p in src.items && own.items[p].Keys <= src.items[p].Keys)
    && (forall p, k {:trigger own.items[p][k]} | p in own.items && k in own.items[p] ::
          own.items[p][k] == ItemAt(src, whole, p, k))
  }

  /** `own` lists the new dictionaries at the top of a part of the tree; below them are its own. */
  ghost predicate Part(src: Nodes, own: Nodes) {
    Placed(src, own) && ItemsOf(src, own, own)
  }

  /** Every dictionary but the top one hangs in another, except for the one at `except`. */
  ghost predicate AllHang(own: Nodes, except: Path) {
    forall x {:trigger x.parent in own.items} | x in own.items && x != Root && x != except ::
      x.parent in own.items && x.key in own.items[x.parent]
  }

  /** The result under construction: its top is new, and every new dictionary hangs in another. */
  ghost predicate Result(src: Nodes, own: Nodes) {
    Root in own.at && Part(src, own) && AllHang(own, Root)
  }

  /** A projection onto `v` from `p` on: new dictionaries of one item each down to the tree's own item. */
  ghost predicate Chain(src: Nodes, own: Nodes, p: Path, v: Path) {
    Part(src, own) && OnTheWay(own.items, p, v)
  }

  /** One item in each dictionary from `p` to above `v`. */
  ghost predicate OnTheWay(items: map<Path, map<Key, Item>>, p: Path, v: Path) {
    && (forall x :: x in items <==> Extends(x, p) && Extends(v, x) && x != v)
    && (forall x | x in items :: items[x].Keys == {StepBelow(v, x)})
  }

  ghost function At(src: Nodes, own: Nodes, p: Path): Dict
    requires Source(src) && p in src.at
  {
    if p in own.at then own.at[p] else src.at[p]
  }

  ghost function ItemsAt(src: Nodes, own: Nodes, p: Path): map<Key, Item>
    requires p in src.items
  {
    if p in own.items then own.items[p] else src.items[p]
  }

  // ----- what one new item adds -----

  lemma {:induction false} Absent(tree: Keys, have: Keys, p: Path, k: Key, q: Path)
    requires p in have && k !in have[p] && Extends(q, Down(p, k))
    ensures !Present(tree, have, q)
  {
    if q != Down(p, k) { Absent(tree, have, p, k, q.parent); }
  }

  /** `more` has the item `k` at `p` besides, and there the rest of a projection onto `v`. */
  ghost predicate Attached(tree: Keys, have: Keys, more: Keys, p: Path, k: Key, v: Path) {
    && p in have && k !in have[p] && InTree(tree, Down(p, k))
    && (forall x | x in have :: !Extends(x, Down(p, k)) && x in more && more[x] == have[x] + if x == p then {k} else {})
    && (forall x | x in more :: x in have || Extends(x, Down(p, k)))
    && (forall x | Extends(x, Down(p, k)) :: x in more <==> Extends(v, x) && x != v)
    && (forall x | x in more && Extends(x, Down(p, k)) && Extends(v, x) && x != v :: more[x] == {StepBelow(v, x)})
  }

  lemma {:induction false} AttachedPresent(tree: Keys, have: Keys, more: Keys, p: Path, k: Key, v: Path, q: Path)
    requires IsTree(tree) && Attached(tree, have, more, p, k, v)
    requires Present(tree, have, p) && Comparable(Down(p, k), v)
    ensures Present(tree, more, q)
       <==> Present(tree, have, q) || (Extends(q, Down(p, k)) && Selected(tree, v, q))
  {
    if q != Root {
      AttachedPresent(tree, have, more, p, k, v, q.parent);
      if Extends(q, Down(p, k)) {
        Absent(tree, have, p, k, q);
        if q == Down(p, k) {
          AboveItsItems(p, k);
        } else {
          Absent(tree, have, p, k, q.parent);
          SelectedBelow(tree, v, q);
        }
      }
    }
  }

  /** One step further down, a selected path stays selected if it goes on with `v` or is past it. */
  lemma {:induction false} SelectedBelow(tree: Keys, v: Path, q: Path)
    requires IsTree(tree) && q != Root
    ensures Selected(tree, v, q)
       <==> InTree(tree, q) && Selected(tree, v, q.parent)
            && (Extends(v, q.parent) && q.parent != v ==> q.key == StepBelow(v, q.parent))
  {
    StepBelowIs(v, q.parent, q.key);
    if Extends(v, q) { ExtendsTransitive(v, q, q.parent); }
    if Extends(v, q.parent) && Extends(q.parent, v) { ExtendsLength(v, q.parent); ExtendsLength(q.parent, v); }
  }

  // ----- the merge -----

  /** The paths from `p` down, a measure for walking down the tree. */
  ghost function Below(src: Nodes, p: Path): set<Path> {
    set q | q in src.at && Extends(q, p)
  }

  lemma {:induction false} BelowShrinks(src: Nodes, p: Path, k: Key)
    requires p in src.at
    ensures Below(src, Down(p, k)) < Below(src, p)
  {
    AboveItsItems(p, k);
    forall q | q in Below(src, Down(p, k)) ensures q in Below(src, p) {
      ExtendsTransitive(q, Down(p, k), p);
    }
    assert p in Below(src, p) && p !in Below(src, Down(p, k));
  }

  /** The result and the projection onto `v`, looked at from `p`. */
  ghost predicate Meet(src: Nodes, own: Nodes, chain: Nodes, p: Path, v: Path) {
    && Source(src) && Result(src, own) && Chain(src, chain, p, v)
    && own.at.Values !! chain.at.Values
    && p in src.at && InTree(src.Keys(), v) && Comparable(p, v)
    && Present(src.Keys(), own.Keys(), p)
  }

  lemma {:induction false} SourceDown(src: Nodes, p: Path, k: Key)
    requires Source(src)
    ensures InTree(src.Keys(), Down(p, k)) <==> p in src.items && k in src.items[p]
    ensures Down(p, k) in src.at ==>
              p in src.items && k in src.items[p] && src.items[p][k] == Node(src.at[Down(p, k)])
  {
    assert Down(p, k) in src.at ==> InTree(src.Keys(), Down(p, k));
  }

  /** Where the dictionaries of a projection are, one step down. */
  lemma {:induction false} ChainStep(p: Path, v: Path, k: Key, x: Path)
    requires Extends(v, Down(p, k))
    ensures Extends(x, p) && Extends(v, x) && x != v && x != p
       <==> Extends(x, Down(p, k)) && Extends(v, x) && x != v
  {
    StepBelowIs(v, p, k);
    StepBelowIs(x, p, k);
    if Extends(x, p) && Extends(v, x) && x != p { StepSame(v, x, p); }
  }

  lemma {:induction false} PastTheEnd(p: Path, v: Path, x: Path)
    requires Extends(p, v)
    ensures !(Extends(x, p) && Extends(v, x) && x != v)
  {
    if Extends(x, p) && Extends(v, x) {
      ExtendsTransitive(x, p, v);
      SamePath(x, v);
    }
  }

  function Without(n: Nodes, p: Path): Nodes {
    Nodes(n.at - {p}, n.items - {p})
  }

  lemma {:induction false} PartWithout(src: Nodes, own: Nodes, p: Path)
    requires Part(src, own) && forall x, k | x in own.items && k in own.items[x] :: Down(x, k) != p
    ensures Part(src, Without(own, p))
  {
    var rest := Without(own, p);
    forall x | x in rest.at ensures rest.at[x] in own.at.Values {
    }
  }

  /** Past its dictionaries a projection has none. */
  lemma {:induction false} NoneOnTheWay(items: map<Path, map<Key, Item>>, p: Path, v: Path)
    requires OnTheWay(items, p, v) && Comparable(p, v) && p !in items
    ensures Extends(p, v) && items == map[]
  {
    assert Extends(p, p) && Extends(p, v);
    forall x ensures x !in items { PastTheEnd(p, v, x); }
  }

  lemma {:induction false} WayDown(items: map<Path, map<Key, Item>>, p: Path, v: Path, k: Key)
    requires OnTheWay(items, p, v) && p in items && k in items[p]
    ensures OnTheWay(items - {p}, Down(p, k), v) && Extends(v, Down(p, k))
  {
    StepBelowIs(v, p, k);
    forall x ensures x in items - {p} <==> Extends(x, Down(p, k)) && Extends(v, x) && x != v {
      ChainStep(p, v, k, x);
    }
  }

  lemma {:induction false} PartDown(src: Nodes, chain: Nodes, p: Path, v: Path)
    requires Part(src, chain) && OnTheWay(chain.items, p, v)
    ensures Part(src, Without(chain, p))
  {
    forall x, k | x in chain.items && k in chain.items[x] ensures Down(x, k) != p {
      AboveItsItems(x, k);
    }
    PartWithout(src, chain, p);
  }

  lemma {:induction false} WayPast(p: Path, v: Path, k: Key)
    requires Extends(p, v)
    ensures Extends(Down(p, k), v) && OnTheWay(map[], Down(p, k), v)
  {
    ExtendsTransitive(Down(p, k), p, v);
    forall x ensures !(Extends(x, Down(p, k)) && Extends(v, x) && x != v) { PastTheEnd(Down(p, k), v, x); }
  }

  /** The projection one step down. */
  lemma {:induction false} ChainDown(src: Nodes, chain: Nodes, p: Path, v: Path, k: Key)
    requires Chain(src, chain, p, v)
    requires p in src.items && Comparable(p, v) && k in ItemsAt(src, chain, p)
    ensures Comparable(Down(p, k), v) && Chain(src, Without(chain, p), Down(p, k), v)
  {
    if p in chain.items {
      WayDown(chain.items, p, v, k);
      PartDown(src, chain, p, v);
    } else {
      NoneOnTheWay(chain.items, p, v);
      WayPast(p, v, k);
      assert Without(chain, p) == chain;
    }
  }

  lemma {:induction false} ItemDown(src: Nodes, chain: Nodes, p: Path, k: Key)
    requires ItemsOf(src, chain, chain) && chain.at.Keys == chain.items.Keys && (p in chain.items || chain.items == map[])
    requires p in src.items && k in ItemsAt(src, chain, p)
    ensures k in src.items[p] && ItemsAt(src, chain, p)[k] == ItemAt(src, Without(chain, p), p, k)
  {
    if p in chain.items {
      assert Down(p, k) != p;
    }
  }

  lemma {:induction false} ChainItem(src: Nodes, chain: Nodes, p: Path, v: Path, k: Key)
    requires Chain(src, chain, p, v) && p in src.items && Comparable(p, v) && k in ItemsAt(src, chain, p)
    ensures k in src.items[p] && ItemsAt(src, chain, p)[k] == ItemAt(src, Without(chain, p), p, k)
  {
    if p !in chain.items { NoneOnTheWay(chain.items, p, v); }
    ItemDown(src, chain, p, k);
  }

  /** A dictionary of the result that lacks an item of the projection is new. */
  lemma {:induction false} MissingItem(src: Nodes, own: Nodes, chain: Nodes, p: Path, v: Path, k: Key)
    requires Meet(src, own, chain, p, v) && k in ItemsAt(src, chain, p)
    ensures Chain(src, Without(chain, p), Down(p, k), v) && Comparable(Down(p, k), v)
    ensures k in src.items[p]
    ensures ItemsAt(src, chain, p)[k] == ItemAt(src, Without(chain, p), p, k)
    ensures k !in ItemsAt(src, own, p) ==> p in own.items && forall x | x in own.items :: !Extends(x, Down(p, k))
  {
    ChainDown(src, chain, p, v, k);
    ChainItem(src, chain, p, v, k);
    if k !in ItemsAt(src, own, p) {
      forall x | x in own.items ensures !Extends(x, Down(p, k)) { NothingBelow(src, own, Down(p, k), x); }
    }
  }

  lemma {:induction false} NothingBelow(src: Nodes, own: Nodes, p: Path, x: Path)
    requires Result(src, own) && p !in own.items && x in own.items
    ensures !Extends(x, p)
  {
    if x != Root {
      NothingBelow(src, own, p, x.parent);
    }
  }

  /** Both are dictionaries: the same situation one step down. */
  lemma {:induction false} Descend(src: Nodes, own: Nodes, chain: Nodes, p: Path, v: Path, k: Key)
    requires Meet(src, own, chain, p, v)
    requires k in ItemsAt(src, chain, p) && ItemsAt(src, chain, p)[k].Node?
    requires k in ItemsAt(src, own, p) && ItemsAt(src, own, p)[k].Node?
    ensures Meet(src, own, Without(chain, p), Down(p, k), v)
    ensures ItemsAt(src, own, p)[k].d == At(src, own, Down(p, k))
    ensures ItemsAt(src, chain, p)[k].d == At(src, Without(chain, p), Down(p, k))
  {
    MissingItem(src, own, chain, p, v, k);
    SourceDown(src, p, k);
    assert ItemsAt(src, own, p)[k] == ItemAt(src, own, p, k);
    assert Down(p, k) in src.at;
    forall x | x in Without(chain, p).at ensures Without(chain, p).at[x] in chain.at.Values {
    }
  }

  /** One of them is a leaf: there is nothing below. */
  lemma {:induction false} Leaf(src: Nodes, own: Nodes, chain: Nodes, p: Path, v: Path, k: Key, q: Path)
    requires Meet(src, own, chain, p, v)
    requires k in ItemsAt(src, chain, p) && k in ItemsAt(src, own, p)
    requires !(ItemsAt(src, chain, p)[k].Node? && ItemsAt(src, own, p)[k].Node?)
    requires Extends(q, Down(p, k)) && Selected(src.Keys(), v, q)
    ensures Present(src.Keys(), own.Keys(), q)
  {
    MissingItem(src, own, chain, p, v, k);
    SourceDown(src, p, k);
    assert ItemsAt(src, own, p)[k] == ItemAt(src, own, p, k);
    assert Down(p, k) !in src.at;
    NoneInTree(src.Keys(), Down(p, k), q);
  }

  lemma {:induction false} NoneInTree(tree: Keys, p: Path, q: Path)
    requires IsTree(tree) && p !in tree && Extends(q, p) && InTree(tree, q)
    ensures q == p
  {
    if q != p {
      NoneInTree(tree, p, q.parent);
    }
  }

  // ----- attaching an item -----

  /** The result with `item` at `p`, and with the dictionaries of the projection below it. */
  function With(own: Nodes, rest: Nodes, p: Path, k: Key, item: Item): Nodes
    requires p in own.items
  {
    Nodes(own.at + rest.at, own.items[p := own.items[p][k := item]] + rest.items)
  }

  lemma {:induction false} AttachedFrom(tree: Keys, have: Keys, rest: Keys, p: Path, k: Key, v: Path)
    requires p in have && k !in have[p] && InTree(tree, Down(p, k))
    requires forall x | x in have :: !Extends(x, Down(p, k))
    requires forall x :: x in rest <==> Extends(x, Down(p, k)) && Extends(v, x) && x != v
    requires forall x | x in rest :: rest[x] == {StepBelow(v, x)}
    ensures Attached(tree, have, have[p := have[p] + {k}] + rest, p, k, v)
  {
  }

  lemma {:induction false} WithKeys(own: Nodes, rest: Nodes, p: Path, k: Key, item: Item)
    requires p in own.items
    ensures With(own, rest, p, k, item).Keys() == own.Keys()[p := own.Keys()[p] + {k}] + rest.Keys()
  {
    var more := With(own, rest, p, k, item);
    forall x | x in more.items
      ensures more.Keys()[x] == (own.Keys()[p := own.Keys()[p] + {k}] + rest.Keys())[x]
    {
      assert if x in rest.items then more.items[x] == rest.items[x]
             else if x == p then more.items[x].Keys == own.items[x].Keys + {k}
             else more.items[x] == own.items[x];
    }
  }

  /** What an item attached at `p` adds. */
  lemma {:induction false} AttachedItem(src: Nodes, own: Nodes, chain: Nodes, p: Path, v: Path, k: Key)
    requires Meet(src, own, chain, p, v)
    requires k in ItemsAt(src, chain, p) && k !in ItemsAt(src, own, p)
    ensures p in own.items
    ensures var more := With(own, Without(chain, p), p, k, ItemsAt(src, chain, p)[k]);
            forall q :: Present(src.Keys(), more.Keys(), q)
              <==> Present(src.Keys(), own.Keys(), q) || (Extends(q, Down(p, k)) && Selected(src.Keys(), v, q))
  {
    MissingItem(src, own, chain, p, v, k);
    var rest, item := Without(chain, p), ItemsAt(src, chain, p)[k];
    AttachedFrom(src.Keys(), own.Keys(), rest.Keys(), p, k, v);
    WithKeys(own, rest, p, k, item);
    var tree, have, more := src.Keys(), own.Keys(), With(own, rest, p, k, item).Keys();
    forall q
      ensures Present(tree, more, q) <==> Present(tree, have, q) || (Extends(q, Down(p, k)) && Selected(tree, v, q))
    {
      AttachedPresent(tree, have, more, p, k, v, q);
    }
  }

  /** Where the items are of the tree, other dictionaries elsewhere make no difference. */
  lemma {:induction false} ItemsElsewhere(src: Nodes, own: Nodes, whole: Nodes, more: Nodes)
    requires ItemsOf(src, own, whole)
    requires forall x, k | x in own.items && k in own.items[x] ::
               Down(x, k) in more.at <==> Down(x, k) in whole.at
    requires forall x | x in whole.at && x in more.at :: more.at[x] == whole.at[x]
    ensures ItemsOf(src, own, more)
  {
    forall x, k | x in own.items && k in own.items[x] ensures own.items[x][k] == ItemAt(src, more, x, k) {
      assert own.items[x][k] == ItemAt(src, whole, x, k);
    }
  }

  /** What is where when an item and a rest of a projection are added. */
  lemma {:induction false} WithAt(own: Nodes, rest: Nodes, p: Path, k: Key, item: Item, x: Path)
    requires p in own.items && x in With(own, rest, p, k, item).items
    ensures With(own, rest, p, k, item).items[x]
         == if x in rest.items then rest.items[x] else if x == p then own.items[p][k := item] else own.items[x]
  {
  }

  lemma {:induction false} KeysTogether(src: Nodes, own: Nodes, rest: Nodes, p: Path, k: Key, item: Item, x: Path)
    requires forall x | x in own.items :: x in src.items && own.items[x].Keys <= src.items[x].Keys
    requires forall x | x in rest.items :: x in src.items && rest.items[x].Keys <= src.items[x].Keys
    requires p in own.items && k in src.items[p] && x in With(own, rest, p, k, item).items
    ensures x in src.items && With(own, rest, p, k, item).items[x].Keys <= src.items[x].Keys
  {
    WithAt(own, rest, p, k, item, x);
    assert own.items[p][k := item].Keys == own.items[p].Keys + {k};
  }

  lemma {:induction false} ItemTogether(src: Nodes, own: Nodes, rest: Nodes, whole: Nodes, p: Path, k: Key, item: Item,
                                        x: Path, kk: Key)
    requires ItemsOf(src, own, whole) && ItemsOf(src, rest, whole) && p in own.items
    requires k in src.items[p] && item == ItemAt(src, whole, p, k)
    requires x in With(own, rest, p, k, item).items && kk in With(own, rest, p, k, item).items[x]
    ensures x in src.items && kk in src.items[x]
    ensures With(own, rest, p, k, item).items[x][kk] == ItemAt(src, whole, x, kk)
  {
    WithAt(own, rest, p, k, item, x);
    if x in rest.items {
      assert rest.items[x][kk] == ItemAt(src, whole, x, kk);
    } else if x != p || kk != k {
      assert own.items[x][kk] == ItemAt(src, whole, x, kk);
    }
  }

  lemma {:induction false} ItemsTogether(src: Nodes, own: Nodes, rest: Nodes, whole: Nodes, p: Path, k: Key, item: Item)
    requires ItemsOf(src, own, whole) && ItemsOf(src, rest, whole) && p in own.items
    requires k in src.items[p] && item == ItemAt(src, whole, p, k)
    ensures ItemsOf(src, With(own, rest, p, k, item), whole)
  {
    var more := With(own, rest, p, k, item);
    forall x | x in more.items ensures x in src.items && more.items[x].Keys <= src.items[x].Keys {
      KeysTogether(src, own, rest, p, k, item, x);
    }
    forall x, kk | x in more.items && kk in more.items[x] ensures more.items[x][kk] == ItemAt(src, whole, x, kk) {
      ItemTogether(src, own, rest, whole, p, k, item, x, kk);
    }
  }

  lemma {:induction false} AttachItems(src: Nodes, own: Nodes, chain: Nodes, p: Path, v: Path, k: Key)
    requires Meet(src, own, chain, p, v)
    requires k in ItemsAt(src, chain, p) && k !in ItemsAt(src, own, p)
    ensures p in own.items
    ensures var more := With(own, Without(chain, p), p, k, ItemsAt(src, chain, p)[k]);
            ItemsOf(src, more, more)
  {
    MissingItem(src, own, chain, p, v, k);
    var rest, item := Without(chain, p), ItemsAt(src, chain, p)[k];
    var more := With(own, rest, p, k, item);
    assert ItemsOf(src, own, more) by { AttachOwn(src, own, chain, p, v, k); }
    assert ItemsOf(src, rest, more) by { AttachRest(src, own, chain, p, v, k); }
    ItemsTogether(src, own, rest, more, p, k, item);
  }

  lemma {:induction false} AttachOwn(src: Nodes, own: Nodes, chain: Nodes, p: Path, v: Path, k: Key)
    requires Meet(src, own, chain, p, v)
    requires k in ItemsAt(src, chain, p) && k !in ItemsAt(src, own, p)
    ensures p in own.items
    ensures ItemsOf(src, own, With(own, Without(chain, p), p, k, ItemsAt(src, chain, p)[k]))
  {
    MissingItem(src, own, chain, p, v, k);
    AboveItsItems(p, k);
    var rest := Without(chain, p);
    forall x, kk | x in own.items && kk in own.items[x] ensures Down(x, kk) !in rest.at {
      assert Down(x, kk) in rest.at ==> Extends(Down(x, kk), Down(p, k));
    }
    forall x | x in rest.at ensures x !in own.at {
    }
    ItemsElsewhere(src, own, own, With(own, rest, p, k, ItemsAt(src, chain, p)[k]));
  }

  lemma {:induction false} AttachRest(src: Nodes, own: Nodes, chain: Nodes, p: Path, v: Path, k: Key)
    requires Meet(src, own, chain, p, v)
    requires k in ItemsAt(src, chain, p) && k !in ItemsAt(src, own, p)
    ensures p in own.items
    ensures ItemsOf(src, Without(chain, p), With(own, Without(chain, p), p, k, ItemsAt(src, chain, p)[k]))
  {
    MissingItem(src, own, chain, p, v, k);
    var rest := Without(chain, p);
    forall x, kk | x in rest.items && kk in rest.items[x] ensures Down(x, kk) !in own.at {
      assert Extends(Down(x, kk), Down(p, k));
    }
    ItemsElsewhere(src, rest, rest, With(own, rest, p, k, ItemsAt(src, chain, p)[k]));
  }

  lemma {:induction false} HangTogether(own: Nodes, rest: Nodes, p: Path, k: Key, item: Item)
    requires AllHang(own, Root) && AllHang(rest, Down(p, k)) && p in own.items && own.items.Keys !! rest.items.Keys
    ensures AllHang(With(own, rest, p, k, item), Root)
  {
    var more := With(own, rest, p, k, item);
    forall x | x in more.items && x != Root ensures x.parent in more.items && x.key in more.items[x.parent] {
      if x in rest.items {
        assert x != Down(p, k) ==> x.parent in rest.items && x.key in rest.items[x.parent];
      } else {
        assert x.key in own.items[x.parent];
      }
    }
  }

  lemma {:induction false} AttachHangs(src: Nodes, own: Nodes, chain: Nodes, p: Path, v: Path, k: Key)
    requires Meet(src, own, chain, p, v)
    requires k in ItemsAt(src, chain, p) && k !in ItemsAt(src, own, p)
    ensures p in own.items
    ensures AllHang(With(own, Without(chain, p), p, k, ItemsAt(src, chain, p)[k]), Root)
  {
    MissingItem(src, own, chain, p, v, k);
    var rest := Without(chain, p);
    assert AllHang(rest, Down(p, k)) by { ChainHangs(src, rest, Down(p, k), v); }
    assert own.items.Keys !! rest.items.Keys;
    HangTogether(own, rest, p, k, ItemsAt(src, chain, p)[k]);
  }

  lemma {:induction false} ChainHangs(src: Nodes, chain: Nodes, p: Path, v: Path)
    requires Chain(src, chain, p, v)
    ensures AllHang(chain, p)
  {
    forall x | x in chain.items && x != Root && x != p
      ensures x.parent in chain.items && x.key in chain.items[x.parent]
    {
      StepBelowIs(v, x.parent, x.key);
    }
  }

  lemma {:induction false} KeysWith(own: Nodes, rest: Nodes, p: Path, k: Key, item: Item)
    requires p in own.items && own.at.Keys == own.items.Keys && rest.at.Keys == rest.items.Keys
    ensures With(own, rest, p, k, item).at.Keys == own.at.Keys + rest.at.Keys == With(own, rest, p, k, item).items.Keys
  {
  }

  lemma {:induction false} AttachPlaced(src: Nodes, own: Nodes, chain: Nodes, p: Path, k: Key, item: Item)
    requires Placed(src, own) && Placed(src, chain) && own.at.Values !! chain.at.Values && p in own.items
    ensures Placed(src, With(own, Without(chain, p), p, k, item))
  {
    KeysWith(own, Without(chain, p), p, k, item);
    JoinValues(own.at, chain.at, p);
    JoinAllDistinct(own.at, chain.at, p);
  }

  lemma {:induction false} JoinValues(own: map<Path, Dict>, chain: map<Path, Dict>, p: Path)
    ensures (own + (chain - {p})).Values <= own.Values + chain.Values
  {
    var more := own + (chain - {p});
    forall d | d in more.Values ensures d in own.Values + chain.Values {
      var x :| x in more && more[x] == d;
      assert if x in chain - {p} then chain[x] == d else own[x] == d;
    }
  }

  lemma {:induction false} JoinAllDistinct(own: map<Path, Dict>, chain: map<Path, Dict>, p: Path)
    requires Distinct(own) && Distinct(chain) && own.Values !! chain.Values
    ensures Distinct(own + (chain - {p}))
  {
    var more := own + (chain - {p});
    forall x, y | x in more && y in more && more[x] == more[y] ensures x == y {
      JoinDistinct(own, chain, p, x, y);
    }
  }

  lemma {:induction false} JoinDistinct(own: map<Path, Dict>, chain: map<Path, Dict>, p: Path, x: Path, y: Path)
    requires Distinct(own) && Distinct(chain) && own.Values !! chain.Values
    requires var more := own + (chain - {p}); x in more && y in more && more[x] == more[y]
    ensures x == y
  {
    var more := own + (chain - {p});
    assert x in own ==> own[x] in own.Values;
    assert y in own ==> own[y] in own.Values;
    assert x in chain ==> chain[x] in chain.Values;
    assert y in chain ==> chain[y] in chain.Values;
  }

  /** The result with an item attached is a result, and what is in it. */
  lemma {:induction false} AttachedResult(src: Nodes, own: Nodes, chain: Nodes, p: Path, v: Path, k: Key)
    requires Meet(src, own, chain, p, v)
    requires k in ItemsAt(src, chain, p) && k !in ItemsAt(src, own, p)
    ensures p in own.items
    ensures Result(src, With(own, Without(chain, p), p, k, ItemsAt(src, chain, p)[k]))
  {
    AttachItems(src, own, chain, p, v, k);
    AttachHangs(src, own, chain, p, v, k);
    AttachPlaced(src, own, chain, p, k, ItemsAt(src, chain, p)[k]);
  }

  // ----- dict_merge -----

  /** The result kept its dictionaries, and got some of the projection's at most. */
  ghost predicate Grown(own: Nodes, chain: Nodes, more: Nodes) {
    && (forall x | x in own.at :: x in more.at && more.at[x] == own.at[x])
    && (forall x | x in more.at :: x in own.at || (x in chain.at && more.at[x] == chain.at[x]))
  }

  /** All paths of the tree. */
  ghost function AllPaths(tree: Keys): set<Path> {
    {Root} + set p, k | p in tree && k in tree[p] :: Down(p, k)
  }

  /** The paths that are there. */
  ghost function Shape(src: Nodes, own: Nodes): set<Path> {
    set q | q in AllPaths(src.Keys()) && Present(src.Keys(), own.Keys(), q)
  }

  /** The paths that `v` selects at or below `p`. */
  ghost function Picked(src: Nodes, p: Path, v: Path): set<Path> {
    set q | q in AllPaths(src.Keys()) && Extends(q, p) && Comparable(q, v)
  }

  /** The same below the items `done` of `p` only. */
  ghost function PickedBelow(src: Nodes, p: Path, v: Path, done: set<Key>): set<Path> {
    set q | q in AllPaths(src.Keys()) && Extends(q, p) && q != p && StepBelow(q, p) in done && Comparable(q, v)
  }

  lemma {:induction false} PathsInTree(tree: Keys, q: Path)
    ensures q in AllPaths(tree) <==> InTree(tree, q)
  {
  }

  lemma {:induction false} PickedOne(src: Nodes, p: Path, v: Path, done: set<Key>, key: Key)
    ensures PickedBelow(src, p, v, done) + Picked(src, Down(p, key), v) == PickedBelow(src, p, v, done + {key})
  {
    forall q
      ensures q in PickedBelow(src, p, v, done) + Picked(src, Down(p, key), v)
         <==> q in PickedBelow(src, p, v, done + {key})
    {
      StepBelowIs(q, p, key);
    }
  }

  lemma {:induction false} InTreeAbove(tree: Keys, p: Path, q: Path)
    requires IsTree(tree) && InTree(tree, q) && Extends(q, p)
    ensures InTree(tree, p)
  {
    if q != p { InTreeAbove(tree, p, q.parent); }
  }

  /** What is selected below `p` is below an item of the projection. */
  lemma {:induction false} SelectedItem(src: Nodes, own: Nodes, chain: Nodes, p: Path, v: Path, q: Path)
    requires Meet(src, own, chain, p, v) && Extends(q, p) && q != p && Selected(src.Keys(), v, q)
    ensures StepBelow(q, p) in ItemsAt(src, chain, p)
  {
    if p in chain.items {
      if Extends(v, q) { StepSame(v, q, p); } else { StepSame(q, v, p); }
    } else {
      StepBelowIs(q, p, StepBelow(q, p));
      InTreeAbove(src.Keys(), Down(p, StepBelow(q, p)), q);
      SourceDown(src, p, StepBelow(q, p));
    }
  }

  /** What is picked at `p` is `p` itself and what is below the items of the projection. */
  lemma {:induction false} PickedAll(src: Nodes, own: Nodes, chain: Nodes, p: Path, v: Path)
    requires Meet(src, own, chain, p, v)
    ensures Shape(src, own) + PickedBelow(src, p, v, ItemsAt(src, chain, p).Keys) == Shape(src, own) + Picked(src, p, v)
  {
    forall q | q in Picked(src, p, v)
      ensures q in Shape(src, own) + PickedBelow(src, p, v, ItemsAt(src, chain, p).Keys)
    {
      PathsInTree(src.Keys(), q);
      if q != p { SelectedItem(src, own, chain, p, v, q); }
    }
  }

  /** Between two rounds of the loop, with the items `todo` left. */
  ghost predicate Midway(src: Nodes, own: Nodes, chain: Nodes, cur: Nodes, p: Path, v: Path, todo: set<Key>) {
    && Result(src, cur) && Grown(own, chain, cur) && p in src.items && todo <= ItemsAt(src, chain, p).Keys
    && Shape(src, cur) + PickedBelow(src, p, v, todo) == Shape(src, own) + Picked(src, p, v)
    && (p in chain.at ==> todo == {} || cur == own)
  }

  /** A new dictionary of the projection has one item only, and when the projection has reached the tree
      it has no new dictionaries. */
  lemma {:induction false} OneOrNone(src: Nodes, chain: Nodes, p: Path, v: Path, key: Key)
    requires Chain(src, chain, p, v) && Comparable(p, v) && p in src.items && key in ItemsAt(src, chain, p)
    ensures p in chain.at ==> ItemsAt(src, chain, p).Keys == {key}
    ensures p !in chain.at ==> chain.at.Keys == {}
  {
    assert chain.at.Keys == chain.items.Keys;
    if p !in chain.at { NoneOnTheWay(chain.items, p, v); }
  }

  lemma {:induction false} MidwayPlaces(own: Nodes, chain: Nodes, cur: Nodes, p: Path)
    requires Grown(own, chain, cur) && (cur == own || chain.at.Keys == {})
    ensures cur.at.Values <= own.at.Values && (p in cur.at <==> p in own.at)
  {
    forall d | d in cur.at.Values ensures d in own.at.Values {
      var x :| x in cur.at && cur.at[x] == d;
      assert x in own.at;
    }
  }

  lemma {:induction false} MidwayStart(src: Nodes, own: Nodes, chain: Nodes, p: Path, v: Path)
    requires Meet(src, own, chain, p, v)
    ensures Midway(src, own, chain, own, p, v, ItemsAt(src, chain, p).Keys)
  {
    PickedAll(src, own, chain, p, v);
  }

  lemma {:induction false} MeetsAgain(src: Nodes, own: Nodes, chain: Nodes, cur: Nodes, p: Path, v: Path)
    requires Meet(src, own, chain, p, v) && Result(src, cur)
    requires cur.at.Values <= own.at.Values && Present(src.Keys(), cur.Keys(), p)
    ensures Meet(src, cur, chain, p, v)
  {
  }

  /** So before every round the result has the dictionaries it started with. */
  lemma {:induction false} MidwayKeeps(src: Nodes, own: Nodes, chain: Nodes, cur: Nodes, p: Path, v: Path,
                                       todo: set<Key>, key: Key)
    requires Meet(src, own, chain, p, v) && Grown(own, chain, cur) && (p in chain.at ==> todo == {} || cur == own)
    requires todo <= ItemsAt(src, chain, p).Keys && key in todo
    ensures cur.at.Values <= own.at.Values && At(src, cur, p) == At(src, own, p)
    ensures p in chain.at ==> todo == {key}
  {
    OneOrNone(src, chain, p, v, key);
    MidwayPlaces(own, chain, cur, p);
  }

  lemma {:induction false} MidwayMeets(src: Nodes, own: Nodes, chain: Nodes, cur: Nodes, p: Path, v: Path,
                                       todo: set<Key>)
    requires Meet(src, own, chain, p, v) && Midway(src, own, chain, cur, p, v, todo)
    requires cur.at.Values <= own.at.Values
    ensures Meet(src, cur, chain, p, v)
  {
    StillPresent(src, own, cur, p, v, todo);
    MeetsAgain(src, own, chain, cur, p, v);
  }

  lemma {:induction false} BeforeRound(src: Nodes, own: Nodes, chain: Nodes, cur: Nodes, p: Path, v: Path,
                                       todo: set<Key>, key: Key)
    requires Meet(src, own, chain, p, v) && Midway(src, own, chain, cur, p, v, todo) && key in todo
    ensures Meet(src, cur, chain, p, v) && At(src, cur, p) == At(src, own, p)
    ensures cur.at.Values <= own.at.Values && cur.at.Values !! src.at.Values + chain.at.Values
    ensures p in chain.at ==> todo == {key}
  {
    MidwayKeeps(src, own, chain, cur, p, v, todo, key);
    MidwayMeets(src, own, chain, cur, p, v, todo);
  }

  lemma {:induction false} StillPresent(src: Nodes, own: Nodes, cur: Nodes, p: Path, v: Path, todo: set<Key>)
    requires Shape(src, cur) + PickedBelow(src, p, v, todo) == Shape(src, own) + Picked(src, p, v)
    requires Present(src.Keys(), own.Keys(), p)
    ensures Present(src.Keys(), cur.Keys(), p)
  {
    PathsInTree(src.Keys(), p);
    assert p in Shape(src, own) && p !in PickedBelow(src, p, v, todo) && p in Shape(src, cur);
  }

  lemma {:induction false} MidwayOn(src: Nodes, own: Nodes, chain: Nodes, cur: Nodes, more: Nodes, p: Path, v: Path,
                                    todo: set<Key>,
                 key: Key)
    requires Midway(src, own, chain, cur, p, v, todo) && key in todo && (p in chain.at ==> todo == {key})
    requires Result(src, more) && Grown(cur, chain, more)
    requires Shape(src, more) == Shape(src, cur) + Picked(src, Down(p, key), v)
    ensures Midway(src, own, chain, more, p, v, todo - {key})
  {
    GrownFurther(own, chain, cur, more);
    ShapeOn(src, p, v, todo, key, Shape(src, cur), Shape(src, more), Shape(src, own) + Picked(src, p, v));
  }

  lemma {:induction false} ShapeOn(src: Nodes, p: Path, v: Path, todo: set<Key>, key: Key, cur: set<Path>,
                                   more: set<Path>,
                whole: set<Path>)
    requires key in todo && cur + PickedBelow(src, p, v, todo) == whole && more == cur + Picked(src, Down(p, key), v)
    ensures more + PickedBelow(src, p, v, todo - {key}) == whole
  {
    PickedOne(src, p, v, todo - {key}, key);
    assert todo - {key} + {key} == todo;
    Regroup(cur, Picked(src, Down(p, key), v), PickedBelow(src, p, v, todo - {key}));
  }

  lemma {:induction false} GrownFurther(own: Nodes, chain: Nodes, cur: Nodes, more: Nodes)
    requires Grown(own, chain, cur) && Grown(cur, chain, more)
    ensures Grown(own, chain, more)
  {
  }

  lemma {:induction false} Regroup<T>(a: set<T>, b: set<T>, c: set<T>)
    ensures a + (c + b) == a + b + c
  {
  }

  lemma {:induction false} MidwayEnd(src: Nodes, own: Nodes, chain: Nodes, cur: Nodes, p: Path, v: Path)
    requires Midway(src, own, chain, cur, p, v, {})
    ensures Shape(src, cur) == Shape(src, own) + Picked(src, p, v)
  {
    assert PickedBelow(src, p, v, {}) == {};
  }

  lemma {:induction false} AttachedShape(src: Nodes, own: Nodes, chain: Nodes, p: Path, v: Path, k: Key)
    requires Meet(src, own, chain, p, v)
    requires k in ItemsAt(src, chain, p) && k !in ItemsAt(src, own, p)
    ensures p in own.items
    ensures Shape(src, With(own, Without(chain, p), p, k, ItemsAt(src, chain, p)[k]))
         == Shape(src, own) + Picked(src, Down(p, k), v)
  {
    AttachedItem(src, own, chain, p, v, k);
    var more := With(own, Without(chain, p), p, k, ItemsAt(src, chain, p)[k]);
    SameShape(src, own, more, Down(p, k), v);
  }

  lemma {:induction false} SameShape(src: Nodes, own: Nodes, more: Nodes, p: Path, v: Path)
    requires forall q :: Present(src.Keys(), more.Keys(), q)
               <==> Present(src.Keys(), own.Keys(), q) || (Extends(q, p) && Selected(src.Keys(), v, q))
    ensures Shape(src, more) == Shape(src, own) + Picked(src, p, v)
  {
    forall q ensures q in Shape(src, more) <==> q in Shape(src, own) + Picked(src, p, v) {
      PathsInTree(src.Keys(), q);
    }
  }

  lemma {:induction false} AttachedWhole(src: Nodes, own: Nodes, chain: Nodes, p: Path, v: Path, k: Key)
    requires Meet(src, own, chain, p, v)
    requires k in ItemsAt(src, chain, p) && k !in ItemsAt(src, own, p)
    ensures p in own.items
    ensures var rest := Without(chain, p);
            var more := With(own, rest, p, k, ItemsAt(src, chain, p)[k]);
            && Result(src, more) && Shape(src, more) == Shape(src, own) + Picked(src, Down(p, k), v)
            && own.at.Keys !! rest.at.Keys && Grown(own, chain, more)
  {
    AttachedShape(src, own, chain, p, v, k);
    AttachedResult(src, own, chain, p, v, k);
    AttachedGrown(src, own, chain, p, v, k);
  }

  lemma {:induction false} AttachedGrown(src: Nodes, own: Nodes, chain: Nodes, p: Path, v: Path, k: Key)
    requires Meet(src, own, chain, p, v)
    requires k in ItemsAt(src, chain, p) && k !in ItemsAt(src, own, p)
    ensures p in own.items && own.at.Keys !! Without(chain, p).at.Keys
    ensures Grown(own, chain, With(own, Without(chain, p), p, k, ItemsAt(src, chain, p)[k]))
  {
    MissingItem(src, own, chain, p, v, k);
    var rest := Without(chain, p);
    assert forall x | x in rest.at :: Extends(x, Down(p, k));
  }

  lemma {:induction false} NotMissing(src: Nodes, own: Nodes, chain: Nodes, p: Path, v: Path, k: Key)
    requires Meet(src, own, chain, p, v) && k in ItemsAt(src, chain, p) && k in ItemsAt(src, own, p)
    requires !(ItemsAt(src, chain, p)[k].Node? && ItemsAt(src, own, p)[k].Node?)
    ensures Shape(src, own) == Shape(src, own) + Picked(src, Down(p, k), v)
  {
    forall q | q in Picked(src, Down(p, k), v) ensures q in Shape(src, own) {
      PathsInTree(src.Keys(), q);
      Leaf(src, own, chain, p, v, k, q);
    }
  }

  lemma {:induction false} LiveWith(own: Nodes, rest: Nodes, p: Path, key: Key, item: Item)
    requires own.at.Keys == own.items.Keys && own.at.Keys !! rest.at.Keys && rest.Live()
    requires p in own.at && own.at[p].items == own.items[p][key := item]
    requires forall x | x in own.at && x != p :: own.at[x].items == own.items[x]
    ensures With(own, rest, p, key, item).Live()
  {
  }

  /** `a[key] = b[key]` */
  method Attach(a: Dict, item: Item, key: Key, ghost own: Nodes, ghost rest: Nodes, ghost p: Path)
    requires own.Live() && rest.Live() && p in own.at && a == own.at[p]
    requires Distinct(own.at) && own.at.Values !! rest.at.Values && own.at.Keys !! rest.at.Keys
    modifies a
    ensures With(own, rest, p, key, item).Live()
  {
    a.items := a.items[key := item];
    assert rest.Live() by {
      forall x | x in rest.at ensures rest.at[x] != a {
        assert rest.at[x] in rest.at.Values && a in own.at.Values;
      }
    }
    LiveWith(own, rest, p, key, item);
  }

  lemma {:induction false} WithoutValues(n: Nodes, p: Path)
    ensures Without(n, p).at.Values <= n.at.Values
    ensures n.at.Keys == n.items.Keys ==> Without(n, p).at.Keys == Without(n, p).items.Keys
  {
    var rest := Without(n, p);
    forall d | d in rest.at.Values ensures d in n.at.Values {
      var x :| x in rest.at && rest.at[x] == d;
      assert n.at[x] == d;
    }
  }

  /** The branch of `dict_merge` for a key that is missing. */
  method AttachMissing(a: Dict, item: Item, key: Key, ghost src: Nodes, ghost own: Nodes, ghost chain: Nodes,
                       ghost p: Path, ghost v: Path)
    returns (ghost more: Nodes)
    requires own.Live() && chain.Live() && Meet(src, own, chain, p, v) && a == At(src, own, p)
    requires key in ItemsAt(src, chain, p) && item == ItemsAt(src, chain, p)[key] && key !in ItemsAt(src, own, p)
    modifies own.at.Values
    ensures more.Live() && Result(src, more) && Grown(own, chain, more)
    ensures Shape(src, more) == Shape(src, own) + Picked(src, Down(p, key), v)
  {
    AttachedWhole(src, own, chain, p, v, key);
    WithoutValues(chain, p);
    more := With(own, Without(chain, p), p, key, item);
    Attach(a, item, key, own, Without(chain, p), p);
  }

  /** The branch for two dictionaries. */
  method MergeBelow(a: Dict, b: Dict, key: Key, ghost src: Nodes, ghost own: Nodes, ghost chain: Nodes,
                    ghost p: Path, ghost v: Path)
    returns (ghost more: Nodes)
    requires src.Live() && own.Live() && chain.Live() && Meet(src, own, chain, p, v)
    requires key in ItemsAt(src, own, p) && ItemsAt(src, own, p)[key] == Node(a)
    requires key in ItemsAt(src, chain, p) && ItemsAt(src, chain, p)[key] == Node(b)
    modifies own.at.Values
    ensures more.Live() && Result(src, more) && Grown(own, chain, more)
    ensures Shape(src, more) == Shape(src, own) + Picked(src, Down(p, key), v)
    decreases Below(src, p), 0
  {
    Descend(src, own, chain, p, v, key);
    BelowShrinks(src, p, key);
    more := DictMerge(a, b, src, own, Without(chain, p), Down(p, key), v);
  }

  /** One round of the loop of `dict_merge`. */
  method MergeKey(a: Dict, b: Dict, key: Key, ghost src: Nodes, ghost own: Nodes, ghost chain: Nodes, ghost p: Path,
                  ghost v: Path)
    returns (ghost more: Nodes)
    requires src.Live() && own.Live() && chain.Live() && Meet(src, own, chain, p, v)
    requires a == At(src, own, p) && b == At(src, chain, p) && key in b.items
    modifies own.at.Values
    ensures more.Live() && Result(src, more) && Grown(own, chain, more)
    ensures Shape(src, more) == Shape(src, own) + Picked(src, Down(p, key), v)
    decreases Below(src, p), 1
  {
    if key in a.items {
      if a.items[key].Node? && b.items[key].Node? {
        more := MergeBelow(a.items[key].d, b.items[key].d, key, src, own, chain, p, v);
      } else {
        more := own;
        NotMissing(src, own, chain, p, v, key);
      }
    } else {
      more := AttachMissing(a, b.items[key], key, src, own, chain, p, v);
    }
  }

  /** The same between two rounds. */
  method MergeRound(a: Dict, b: Dict, key: Key, ghost src: Nodes, ghost own: Nodes, ghost chain: Nodes,
                    ghost cur: Nodes, ghost p: Path, ghost v: Path, ghost todo: set<Key>)
    returns (ghost more: Nodes)
    requires src.Live() && cur.Live() && chain.Live() && Meet(src, own, chain, p, v)
    requires Midway(src, own, chain, cur, p, v, todo) && key in todo
    requires a == At(src, own, p) && b == At(src, chain, p)
    modifies own.at.Values
    ensures src.Live() && chain.Live() && more.Live() && (p in chain.at ==> todo == {key})
    ensures Result(src, more) && Grown(cur, chain, more)
    ensures Shape(src, more) == Shape(src, cur) + Picked(src, Down(p, key), v)
    decreases Below(src, p), 2
  {
    BeforeRound(src, own, chain, cur, p, v, todo, key);
    more := MergeKey(a, b, key, src, cur, chain, p, v);
  }

  method DictMerge(a: Dict, b: Dict, ghost src: Nodes, ghost own: Nodes, ghost chain: Nodes, ghost p: Path,
                   ghost v: Path)
    returns (ghost more: Nodes)
    requires src.Live() && own.Live() && chain.Live() && Meet(src, own, chain, p, v)
    requires a == At(src, own, p) && b == At(src, chain, p)
    modifies own.at.Values
    ensures more.Live() && Result(src, more) && Grown(own, chain, more)
    ensures Shape(src, more) == Shape(src, own) + Picked(src, p, v)
    decreases Below(src, p), 3
  {
    more := own;
    var todo := b.items.Keys;
    MidwayStart(src, own, chain, p, v);
    while todo != {}
      invariant src.Live() && more.Live() && chain.Live()
      invariant Midway(src, own, chain, more, p, v, todo)
    {
      var key :| key in todo;
      ghost var cur := more;
      more := MergeRound(a, b, key, src, own, chain, cur, p, v, todo);
      MidwayOn(src, own, chain, cur, more, p, v, todo, key);
      todo := todo - {key};
    }
    MidwayEnd(src, own, chain, more, p, v);
  }

  // ----- following a path in memory -----

  /** `get_by_path`; None for an unknown key and for a key of a leaf. */
  ghost function Follow(root: Dict, q: Path): Option<Item>
    reads *
  {
    if q == Root then Some(Node(root))
    else
      match Follow(root, q.parent)
      case Some(Node(d)) => if q.key in d.items then Some(d.items[q.key]) else None
      case _ => None
  }

  lemma {:induction false} FollowSource(src: Nodes, q: Path)
    requires src.Live() && Source(src)
    ensures Root in src.at
    ensures Follow(src.at[Root], q)
         == if q == Root then Some(Node(src.at[Root]))
            else if InTree(src.Keys(), q) then Some(src.items[q.parent][q.key]) else None
  {
    if q != Root {
      FollowSource(src, q.parent);
      if q.parent != Root { SourceDown(src, q.parent.parent, q.parent.key); }
    }
  }

  /** A part of the tree has the items of the tree that are present, with new dictionaries at the top. */
  lemma {:induction false} FollowResult(src: Nodes, own: Nodes, q: Path)
    requires src.Live() && own.Live() && Source(src) && Result(src, own)
    ensures Follow(own.at[Root], q)
         == if q == Root then Some(Node(own.at[Root]))
            else if Present(src.Keys(), own.Keys(), q) then Some(ItemAt(src, own, q.parent, q.key)) else None
  {
    if q != Root {
      FollowResult(src, own, q.parent);
      SourceDown(src, q.parent, q.key);
      if q.parent != Root { SourceDown(src, q.parent.parent, q.parent.key); }
    }
  }

  method GetByPath(root: Dict, items: Path) returns (r: Option<Item>)
    ensures r == Follow(root, items)
  {
    if items == Root {
      return Some(Node(root));
    }
    r := GetByPath(root, items.parent);
    match r
    case Some(Node(d)) =>
      r := if items.key in d.items then Some(d.items[items.key]) else None;
    case _ =>
      r := None;
  }

  // ----- projecting and selecting -----

  lemma {:induction false} PlacedUp(src: Nodes, chain: Nodes, more: Nodes, p: Path, d: Dict)
    requires Placed(src, chain) && more.at == chain.at[p := d] && more.items.Keys == chain.items.Keys + {p}
    requires d !in src.at.Values && d !in chain.at.Values && p in src.items
    ensures Placed(src, more)
  {
    forall x | x in more.at ensures more.at[x] in chain.at.Values + {d} {
      assert x != p ==> chain.at[x] in chain.at.Values;
    }
    forall x, y | x in more.at && y in more.at && more.at[x] == more.at[y] ensures x == y {
      assert x != p ==> chain.at[x] in chain.at.Values;
      assert y != p ==> chain.at[y] in chain.at.Values;
    }
  }

  lemma {:induction false} ItemsAdded(src: Nodes, chain: Nodes, more: Nodes, whole: Nodes, p: Path, k: Key, item: Item)
    requires ItemsOf(src, chain, whole) && more.items == chain.items[p := map[k := item]]
    requires p in src.items && k in src.items[p] && item == ItemAt(src, whole, p, k)
    ensures ItemsOf(src, more, whole)
  {
    forall x | x in more.items ensures x in src.items && more.items[x].Keys <= src.items[x].Keys {
      assert x != p ==> chain.items[x].Keys <= src.items[x].Keys;
    }
    forall x, kk | x in more.items && kk in more.items[x] ensures more.items[x][kk] == ItemAt(src, whole, x, kk) {
      assert x != p ==> chain.items[x][kk] == ItemAt(src, whole, x, kk);
    }
  }

  lemma {:induction false} ItemsBelow(src: Nodes, chain: Nodes, more: Nodes, p: Path, k: Key, v: Path)
    requires ItemsOf(src, chain, chain) && OnTheWay(chain.items, Down(p, k), v)
    requires more.at.Keys == chain.at.Keys + {p} && (forall x | x in chain.at && x != p :: more.at[x] == chain.at[x])
    requires p !in chain.at
    ensures ItemsOf(src, chain, more)
  {
    AboveItsItems(p, k);
    forall x, kk | x in chain.items && kk in chain.items[x] ensures Down(x, kk) != p {
      assert Extends(Down(x, kk), Down(p, k));
    }
    ItemsElsewhere(src, chain, chain, more);
  }

  lemma {:induction false} PartUp(src: Nodes, chain: Nodes, p: Path, k: Key, v: Path, d: Dict, item: Item)
    requires Chain(src, chain, Down(p, k), v) && d !in src.at.Values && d !in chain.at.Values
    requires p in src.items && k in src.items[p] && item == ItemAt(src, chain, p, k)
    ensures Part(src, Nodes(chain.at[p := d], chain.items[p := map[k := item]]))
  {
    var more := Nodes(chain.at[p := d], chain.items[p := map[k := item]]);
    PlacedUp(src, chain, more, p, d);
    AboveItsItems(p, k);
    assert p !in chain.items && Down(p, k) != p;
    ItemsBelow(src, chain, more, p, k, v);
    ItemsAdded(src, chain, more, more, p, k, item);
  }

  lemma {:induction false} WayUp(chain: map<Path, map<Key, Item>>, more: map<Path, map<Key, Item>>, p: Path, k: Key,
                                 v: Path, item: Item)
    requires OnTheWay(chain, Down(p, k), v) && Extends(v, Down(p, k)) && more == chain[p := map[k := item]]
    ensures OnTheWay(more, p, v)
  {
    StepBelowIs(v, p, k);
    forall x ensures x in more <==> Extends(x, p) && Extends(v, x) && x != v {
      ChainStep(p, v, k, x);
    }
  }

  /** One more wrapping of the projected value. */
  lemma {:induction false} ChainUp(src: Nodes, chain: Nodes, p: Path, k: Key, v: Path, d: Dict, item: Item)
    requires Chain(src, chain, Down(p, k), v) && Extends(v, Down(p, k))
    requires d !in src.at.Values && d !in chain.at.Values
    requires p in src.items && k in src.items[p] && item == ItemAt(src, chain, p, k)
    ensures Chain(src, Nodes(chain.at[p := d], chain.items[p := map[k := item]]), p, v)
  {
    PartUp(src, chain, p, k, v, d, item);
    WayUp(chain.items, chain.items[p := map[k := item]], p, k, v, item);
  }

  lemma {:induction false} ValuesUp(at: map<Path, Dict>, p: Path, d: Dict)
    ensures at[p := d].Values <= at.Values + {d}
  {
    var more := at[p := d];
    forall x | x in more ensures more[x] in at.Values + {d} {
      assert x != p ==> at[x] in at.Values;
    }
  }

  lemma {:induction false} LiveUp(chain: Nodes, p: Path, d: Dict, items: map<Key, Item>)
    requires chain.Live() && d.items == items
    ensures Nodes(chain.at[p := d], chain.items[p := items]).Live()
  {
    var more := Nodes(chain.at[p := d], chain.items[p := items]);
    forall x | x in more.at ensures more.at[x].items == more.items[x] {
    }
  }

  /** `{key: value}`, with what it adds to the dictionaries of the projection. */
  method NewItem(value: Item, p: Path, k: Key, ghost chain: Nodes) returns (d: Dict, ghost more: Nodes)
    requires chain.Live()
    ensures fresh(d) && more == Nodes(chain.at[p := d], chain.items[p := map[k := value]])
    ensures more.Live() && fresh(more.at.Values - chain.at.Values)
  {
    d := new Dict(map[k := value]);
    more := Nodes(chain.at[p := d], chain.items[p := map[k := value]]);
    ValuesUp(chain.at, p, d);
    LiveUp(chain, p, d, map[k := value]);
  }

  /** `value = {key: value}` */
  method Wrap(value: Item, p: Path, k: Key, ghost src: Nodes, ghost chain: Nodes, ghost v: Path)
    returns (wrapped: Item, ghost more: Nodes)
    requires chain.Live() && Chain(src, chain, Down(p, k), v) && Extends(v, Down(p, k))
    requires p in src.items && k in src.items[p] && value == ItemAt(src, chain, p, k)
    ensures more.Live() && Chain(src, more, p, v) && p in more.at && wrapped == Node(more.at[p])
    ensures fresh(more.at.Values - chain.at.Values)
  {
    var d;
    d, more := NewItem(value, p, k, chain);
    wrapped := Node(d);
    ChainUp(src, chain, p, k, v, d, value);
  }

  ghost function Nothing(): Nodes {
    Nodes(map[], map[])
  }

  lemma {:induction false} ChainStart(src: Nodes, v: Path)
    ensures Chain(src, Nothing(), v, v)
  {
    forall x ensures !(Extends(x, v) && Extends(v, x) && x != v) { PastTheEnd(v, v, x); }
  }

  /** `get_dict_value_by_path`: the value at the path, wrapped in a dictionary for each key of it. */
  method GetDictValueByPath(root: Dict, attr: Path, ghost src: Nodes) returns (r: Option<Dict>, ghost chain: Nodes)
    requires attr != Root && src.Live() && Source(src) && root == src.at[Root]
    ensures r.Some? <==> InTree(src.Keys(), attr)
    ensures r.Some? ==> chain.Live() && Chain(src, chain, Root, attr) && Root in chain.at && r.value == chain.at[Root]
    ensures fresh(chain.at.Values)
  {
    var item := GetByPath(root, attr);
    FollowSource(src, attr);
    chain := Nothing();
    if item == None {
      return None, chain;
    }
    ChainStart(src, attr);
    var value, p := item.value, attr;
    while p != Root
      invariant Extends(attr, p) && InTree(src.Keys(), p)
      invariant chain.Live() && Chain(src, chain, p, attr) && fresh(chain.at.Values)
      invariant if p == attr then chain == Nothing() && value == item.value
                else p in chain.at && value == Node(chain.at[p])
      decreases p
    {
      SourceDown(src, p.parent, p.key);
      ExtendsTransitive(attr, p, p.parent);
      value, chain := Wrap(value, p.parent, p.key, src, chain, attr);
      p := p.parent;
    }
    r := Some(value.d);
  }

  ghost function Start(r: Dict): Nodes {
    Nodes(map[Root := r], map[Root := map[]])
  }

  lemma {:induction false} NothingPresent(tree: Keys, have: Keys, q: Path)
    requires have == map[Root := {}] && Present(tree, have, q)
    ensures q == Root
  {
    if q != Root { NothingPresent(tree, have, q.parent); }
  }

  lemma {:induction false} StartResult(src: Nodes, r: Dict)
    requires Source(src) && r !in src.at.Values
    ensures Result(src, Start(r)) && Shape(src, Start(r)) == {Root}
    ensures Start(r).at.Values == {r} && Start(r).at[Root] == r
  {
    assert Start(r).items[Root].Keys == {};
    assert Start(r).Keys() == map[Root := {}];
    forall q | q in Shape(src, Start(r)) ensures q == Root {
      NothingPresent(src.Keys(), Start(r).Keys(), q);
    }
  }

  /** A projection that waits to be merged. */
  ghost predicate Waits(src: Nodes, d: Dict, chain: Nodes, v: Path) {
    Chain(src, chain, Root, v) && InTree(src.Keys(), v) && Root in chain.at && d == chain.at[Root]
  }

  lemma {:induction false} FirstMeet(src: Nodes, own: Nodes, d: Dict, chain: Nodes, v: Path)
    requires Source(src) && Result(src, own) && Waits(src, d, chain, v) && own.at.Values !! chain.at.Values
    ensures Meet(src, own, chain, Root, v) && d == At(src, chain, Root) && own.at[Root] == At(src, own, Root)
  {
    AllExtendRoot(v);
  }

  lemma {:induction false} GrownValues(own: Nodes, chain: Nodes, more: Nodes)
    requires Grown(own, chain, more)
    ensures more.at.Values <= own.at.Values + chain.at.Values
  {
    forall d | d in more.at.Values ensures d in own.at.Values + chain.at.Values {
      var x :| x in more.at && more.at[x] == d;
    }
  }

  /** One projection merged. */
  method MergeNext(r: Dict, value: Dict, ghost src: Nodes, ghost own: Nodes, ghost chain: Nodes, ghost v: Path)
    returns (ghost more: Nodes)
    requires src.Live() && own.Live() && chain.Live()
    requires Source(src) && Result(src, own) && r == own.at[Root]
    requires Waits(src, value, chain, v) && own.at.Values !! chain.at.Values
    modifies own.at.Values
    ensures more.Live() && Result(src, more) && r == more.at[Root] && more.at.Values <= own.at.Values + chain.at.Values
    ensures Shape(src, more) == Shape(src, own) + Picked(src, Root, v)
  {
    FirstMeet(src, own, value, chain, v);
    more := DictMerge(r, value, src, own, chain, Root, v);
    GrownValues(own, chain, more);
  }

  /** What the paths select that lead somewhere, and the top. */
  ghost function PickedByAll(src: Nodes, vs: set<Path>): set<Path> {
    {Root} + set q | q in AllPaths(src.Keys()) && exists v | v in vs :: InTree(src.Keys(), v) && Comparable(q, v)
  }

  lemma {:induction false} PickedByOneMore(src: Nodes, vs: set<Path>, v: Path)
    ensures PickedByAll(src, vs + {v})
         == PickedByAll(src, vs) + if InTree(src.Keys(), v) then Picked(src, Root, v) else {}
  {
    forall q
      ensures q in PickedByAll(src, vs + {v})
         <==> q in PickedByAll(src, vs) + if InTree(src.Keys(), v) then Picked(src, Root, v) else {}
    {
      AllExtendRoot(q);
    }
  }

  lemma {:induction false} PickedByNone(src: Nodes)
    ensures PickedByAll(src, {}) == {Root}
  {
  }

  /** One path projected, and the projection merged into the result; unknown paths are skipped. */
  method SelectAttr(root: Dict, r: Dict, attr: Path, ghost src: Nodes, ghost own: Nodes) returns (ghost more: Nodes)
    requires attr != Root && src.Live() && Source(src) && root == src.at[Root]
    requires own.Live() && Result(src, own) && r == own.at[Root]
    modifies own.at.Values
    ensures src.Live() && more.Live() && Result(src, more) && r == more.at[Root]
    ensures fresh(more.at.Values - own.at.Values)
    ensures Shape(src, more)
         == Shape(src, own) + if InTree(src.Keys(), attr) then Picked(src, Root, attr) else {}
  {
    more := own;
    var value;
    ghost var chain;
    value, chain := GetDictValueByPath(root, attr, src);
    if value != None {
      assert own.at.Values !! chain.at.Values;
      more := MergeNext(r, value.value, src, own, chain, attr);
    }
  }

  /** `{}` */
  method NewResult(ghost src: Nodes) returns (r: Dict, ghost own: Nodes)
    requires Source(src)
    ensures own.Live() && Result(src, own) && r == own.at[Root] && fresh(own.at.Values)
    ensures Shape(src, own) == {Root}
  {
    r := new Dict(map[]);
    own := Start(r);
    StartResult(src, r);
  }

  lemma {:induction false} TakeOne<T>(done: set<T>, todo: set<T>, x: T)
    requires x in todo
    ensures done + {x} + (todo - {x}) == done + todo
  {
  }

  /** One round of the loop over the paths. */
  method SelectNext(root: Dict, r: Dict, todo: set<Path>, ghost src: Nodes, ghost own: Nodes, ghost done: set<Path>)
    returns (rest: set<Path>, ghost more: Nodes, ghost taken: set<Path>)
    requires todo != {} && Root !in todo && src.Live() && Source(src) && root == src.at[Root]
    requires own.Live() && Result(src, own) && r == own.at[Root] && Shape(src, own) == PickedByAll(src, done)
    modifies own.at.Values
    ensures src.Live() && more.Live() && Result(src, more) && r == more.at[Root]
    ensures fresh(more.at.Values - own.at.Values)
    ensures rest < todo && taken + rest == done + todo && Shape(src, more) == PickedByAll(src, taken)
  {
    var attr :| attr in todo;
    PickedByOneMore(src, done, attr);
    more := SelectAttr(root, r, attr, src, own);
    TakeOne(done, todo, attr);
    rest, taken := todo - {attr}, done + {attr};
  }

  lemma {:induction false} NoneLeft<T>(done: set<T>)
    ensures done + {} == done
  {
  }

  /** The result selects exactly what is comparable with a path that leads somewhere, in whatever order the
      paths are taken; nothing that was there before is changed. */
  method GetExportAttrs(root: Dict, attrs: set<Path>, ghost src: Nodes) returns (r: Dict, ghost own: Nodes)
    requires Root !in attrs && src.Live() && Source(src) && root == src.at[Root]
    ensures src.Live() && own.Live() && Result(src, own) && r == own.at[Root] && fresh(own.at.Values)
    ensures Shape(src, own) == PickedByAll(src, attrs)
  {
    r, own := NewResult(src);
    PickedByNone(src);
    var todo := attrs;
    ghost var done: set<Path> := {};
    while todo != {}
      invariant src.Live() && own.Live() && Result(src, own) && r == own.at[Root] && fresh(own.at.Values)
      invariant done + todo == attrs && Shape(src, own) == PickedByAll(src, done)
    {
      todo, own, done := SelectNext(root, r, todo, src, own, done);
    }
    NoneLeft(done);
  }

  // ----- what the result is -----

  /** The same to someone who reads: nothing, the same leaf, or a dictionary. */
  ghost predicate Alike(a: Option<Item>, b: Option<Item>) {
    (a == None && b == None) || (a.Some? && b.Some? && (a == b || (a.value.Node? && b.value.Node?)))
  }

  /** Whether a path leads somewhere in the tree. */
  lemma {:induction false} FollowInTree(src: Nodes, q: Path)
    requires src.Live() && Source(src)
    ensures Root in src.at && (Follow(src.at[Root], q) != None <==> InTree(src.Keys(), q))
  {
    FollowSource(src, q);
  }

  /** Following a path in the result gives what it gives in the tree when the path is above or below one
      that was asked for and leads somewhere, and nothing otherwise. */
  lemma {:induction false} ExportIsPruned(src: Nodes, own: Nodes, attrs: set<Path>, q: Path)
    requires src.Live() && Source(src) && own.Live() && Result(src, own) && Shape(src, own) == PickedByAll(src, attrs)
    ensures Root in src.at
    ensures var root := src.at[Root];
            var chosen := q == Root || exists v | v in attrs :: Follow(root, v) != None && Comparable(q, v);
            Alike(Follow(own.at[Root], q), if chosen then Follow(root, q) else None)
  {
    FollowInTree(src, q);
    FollowSource(src, q);
    FollowResult(src, own, q);
    PathsInTree(src.Keys(), q);
    forall v | v in attrs ensures Follow(src.at[Root], v) != None <==> InTree(src.Keys(), v) {
      FollowInTree(src, v);
    }
    assert q in Shape(src, own) <==> Present(src.Keys(), own.Keys(), q);
    if q != Root { SourceDown(src, q.parent, q.key); }
  }

  /** Two results for the same paths, taken in any order, read the same. */
  lemma {:induction false} OrderIsIrrelevant(src: Nodes, a: Nodes, b: Nodes, attrs: set<Path>, q: Path)
    requires src.Live() && Source(src) && a.Live() && Result(src, a) && b.Live() && Result(src, b)
    requires Shape(src, a) == PickedByAll(src, attrs) == Shape(src, b)
    ensures Alike(Follow(a.at[Root], q), Follow(b.at[Root], q))
  {
    ExportIsPruned(src, a, attrs, q);
    ExportIsPruned(src, b, attrs, q);
  }
}

/** Flattening nested objects into the rows of a table. */
module FlattenRows {
  import opened Options
  import opened Paths

  /** Dictionaries list their fields in order; lists hold values and dictionaries. */
  datatype Obj = Leaf(v: int) | Dict(fields: seq<Field>) | List(items: seq<Item>)

  datatype Field = Field(key: Key, value: Obj)

  datatype Item = Scalar(v: int) | Record(fields: seq<Field>)

  type Row = map<Path, int>

  // ----- flattening -----

  /** Row by row, with nothing in place of a missing row. */
  function Zip(a: seq<Row>, b: seq<Row>): seq<Row> {
    if a == [] then b
    else if b == [] then a
    else [a[0] + b[0]] + Zip(a[1..], b[1..])
  }

  /** `zip_longest`, with the rows that meet made into one */
  function ZipLongest(all: seq<seq<Row>>): seq<Row> {
    if all == [] then [] else Zip(ZipLongest(all[..|all| - 1]), all[|all| - 1])
  }

  /** The rows of a dictionary after its first `n` fields; None if a field fails. First the row of what
      is common, and then the rows of each list. */
  function Parts(fields: seq<Field>, n: nat, p: Path): Option<seq<seq<Row>>>
    requires n <= |fields|
    ensures Parts(fields, n, p).Some? ==> |Parts(fields, n, p).value| > 0 && |Parts(fields, n, p).value[0]| == 1
    decreases fields, n
  {
    if n == 0 then Some([[map[]]])
    else
      var before := Parts(fields, n - 1, p);
      if before == None then None else AddField(before.value, fields[n - 1], p)
  }

  function Common(all: seq<seq<Row>>, row: Row): seq<seq<Row>>
    requires |all| > 0 && |all[0]| == 1
  {
    all[0 := [all[0][0] + row]]
  }

  function AddField(all: seq<seq<Row>>, f: Field, p: Path): (r: Option<seq<seq<Row>>>)
    requires |all| > 0 && |all[0]| == 1
    ensures r.Some? ==> |r.value| > 0 && |r.value[0]| == 1
    decreases f
  {
    match f.value
    case Leaf(v) => Some(Common(all, map[Down(p, f.key) := v]))
    case List(items) =>
      var rows := FlattenItems(items, |items|, Down(p, f.key));
      if rows == None then None else Some(all + [rows.value])
    case Dict(fields) =>
      var rows := FlattenFields(fields, Down(p, f.key));
      // the rows become the arguments of `dict.update`, which takes one
      if rows == None || |rows.value| != 1 then None else Some(Common(all, rows.value[0]))
  }

  function FlattenFields(fields: seq<Field>, p: Path): Option<seq<Row>>
    decreases fields, |fields| + 1
  {
    var all := Parts(fields, |fields|, p);
    if all == None then None else Some(ZipLongest(all.value))
  }

  function FlattenItems(items: seq<Item>, n: nat, p: Path): Option<seq<Row>>
    requires n <= |items|
    decreases items, n
  {
    if n == 0 then Some([])
    else
      var before := FlattenItems(items, n - 1, p);
      var rows := match items[n - 1]
                  case Scalar(v) => Some([map[p := v]])
                  case Record(fields) => FlattenFields(fields, p);
      if before == None || rows == None then None else Some(before.value + rows.value)
  }

  /** Only dictionaries and lists have rows. */
  function FlattenDict(o: Obj): Option<seq<Row>> {
    match o
    case Leaf(_) => Some([])
    case Dict(fields) => FlattenFields(fields, Root)
    case List(items) => FlattenItems(items, |items|, Root)
  }

  // ----- what the rows should hold -----

  type Cell = (Path, int)

  /** The values of an object with the paths to them; lists add nothing to a path. */
  function FieldLeaves(fields: seq<Field>, n: nat, p: Path): multiset<Cell>
    requires n <= |fields|
    decreases fields, n
  {
    if n == 0 then multiset{} else FieldLeaves(fields, n - 1, p) + Leaves(fields[n - 1].value, Down(p, fields[n - 1].key))
  }

  function ItemLeaves(items: seq<Item>, n: nat, p: Path): multiset<Cell>
    requires n <= |items|
    decreases items, n
  {
    if n == 0 then multiset{}
    else ItemLeaves(items, n - 1, p) + (match items[n - 1]
                                        case Scalar(v) => multiset{(p, v)}
                                        case Record(fields) => FieldLeaves(fields, |fields|, p))
  }

  function Leaves(o: Obj, p: Path): multiset<Cell>
    decreases o
  {
    match o
    case Leaf(v) => multiset{(p, v)}
    case Dict(fields) => FieldLeaves(fields, |fields|, p)
    case List(items) => ItemLeaves(items, |items|, p)
  }

  function Max(a: nat, b: nat): nat {
    if a < b then b else a
  }

  /** One row, or as many as the longest list field has. */
  function FieldRows(fields: seq<Field>, n: nat): nat
    requires n <= |fields|
    decreases fields, n
  {
    if n == 0 then 1
    else Max(FieldRows(fields, n - 1), match fields[n - 1].value case List(items) => ItemRows(items, |items|) case _ => 1)
  }

  function ItemRows(items: seq<Item>, n: nat): nat
    requires n <= |items|
    decreases items, n
  {
    if n == 0 then 0
    else ItemRows(items, n - 1) + (match items[n - 1]
                                   case Scalar(_) => 1
                                   case Record(fields) => FieldRows(fields, |fields|))
  }

  function RowCount(o: Obj): nat {
    match o
    case Leaf(_) => 0
    case Dict(fields) => FieldRows(fields, |fields|)
    case List(items) => ItemRows(items, |items|)
  }

  /** Dictionaries that are fields have one row. */
  predicate FieldsFlat(fields: seq<Field>, n: nat)
    requires n <= |fields|
    decreases fields, n
  {
    n == 0 || (FieldsFlat(fields, n - 1) && match fields[n - 1].value
                                           case Leaf(_) => true
                                           case List(items) => ItemsFlat(items, |items|)
                                           case Dict(inner) => FieldsFlat(inner, |inner|) && FieldRows(inner, |inner|) == 1)
  }

  predicate ItemsFlat(items: seq<Item>, n: nat)
    requires n <= |items|
    decreases items, n
  {
    n == 0 || (ItemsFlat(items, n - 1) && match items[n - 1]
                                         case Scalar(_) => true
                                         case Record(fields) => FieldsFlat(fields, |fields|))
  }

  predicate Flat(o: Obj) {
    match o
    case Leaf(_) => true
    case Dict(fields) => FieldsFlat(fields, |fields|)
    case List(items) => ItemsFlat(items, |items|)
  }

  /** The keys of a dictionary differ. */
  predicate FieldsDiffer(fields: seq<Field>, n: nat)
    requires n <= |fields|
    decreases fields, n
  {
    n == 0 || (
      && FieldsDiffer(fields, n - 1) && fields[n - 1].key !in KeySet(fields, n - 1)
      && match fields[n - 1].value
         case Leaf(_) => true
         case List(items) => ItemsDiffer(items, |items|)
         case Dict(inner) => FieldsDiffer(inner, |inner|))
  }

  predicate ItemsDiffer(items: seq<Item>, n: nat)
    requires n <= |items|
    decreases items, n
  {
    n == 0 || (ItemsDiffer(items, n - 1) && match items[n - 1]
                                           case Scalar(_) => true
                                           case Record(fields) => FieldsDiffer(fields, |fields|))
  }

  predicate Proper(o: Obj) {
    match o
    case Leaf(_) => true
    case Dict(fields) => FieldsDiffer(fields, |fields|)
    case List(items) => ItemsDiffer(items, |items|)
  }

  function KeySet(fields: seq<Field>, n: nat): set<Key>
    requires n <= |fields|
  {
    if n == 0 then {} else KeySet(fields, n - 1) + {fields[n - 1].key}
  }

  // ----- rows and their cells -----

  function Pairs(row: Row): set<Cell> {
    set q | q in row :: (q, row[q])
  }

  function Cells(rows: seq<Row>): multiset<Cell> {
    if rows == [] then multiset{} else multiset(Pairs(rows[0])) + Cells(rows[1..])
  }

  function RowKeys(rows: seq<Row>): set<Path> {
    if rows == [] then {} else rows[0].Keys + RowKeys(rows[1..])
  }

  function AllCells(all: seq<seq<Row>>): multiset<Cell> {
    if all == [] then multiset{} else AllCells(all[..|all| - 1]) + Cells(all[|all| - 1])
  }

  function AllKeys(all: seq<seq<Row>>): set<Path> {
    if all == [] then {} else AllKeys(all[..|all| - 1]) + RowKeys(all[|all| - 1])
  }

  function Longest(all: seq<seq<Row>>): nat {
    if all == [] then 0 else Max(Longest(all[..|all| - 1]), |all[|all| - 1]|)
  }

  /** No path is in two of the lists. */
  predicate Separate(all: seq<seq<Row>>) {
    all == [] || (Separate(all[..|all| - 1]) && AllKeys(all[..|all| - 1]) !! RowKeys(all[|all| - 1]))
  }

  lemma {:induction false} JoinCells(a: Row, b: Row)
    requires a.Keys !! b.Keys
    ensures multiset(Pairs(a + b)) == multiset(Pairs(a)) + multiset(Pairs(b))
  {
    assert Pairs(a + b) == Pairs(a) + Pairs(b);
    assert Pairs(a) !! Pairs(b);
  }

  lemma {:induction false} ZipTogether(a: seq<Row>, b: seq<Row>)
    ensures RowKeys(Zip(a, b)) == RowKeys(a) + RowKeys(b)
    ensures |Zip(a, b)| == Max(|a|, |b|)
    ensures RowKeys(a) !! RowKeys(b) ==> Cells(Zip(a, b)) == Cells(a) + Cells(b)
  {
    if a != [] && b != [] {
      ZipTogether(a[1..], b[1..]);
      var z := Zip(a[1..], b[1..]);
      assert ([a[0] + b[0]] + z)[1..] == z;
      if RowKeys(a) !! RowKeys(b) { JoinCells(a[0], b[0]); }
    }
  }

  lemma {:induction false} ZipLongestTogether(all: seq<seq<Row>>)
    ensures RowKeys(ZipLongest(all)) == AllKeys(all)
    ensures |ZipLongest(all)| == Longest(all)
    ensures Separate(all) ==> Cells(ZipLongest(all)) == AllCells(all)
  {
    if all != [] {
      ZipLongestTogether(all[..|all| - 1]);
      ZipTogether(ZipLongest(all[..|all| - 1]), all[|all| - 1]);
    }
  }

  lemma {:induction false} ConcatCells(a: seq<Row>, b: seq<Row>)
    ensures Cells(a + b) == Cells(a) + Cells(b)
    ensures RowKeys(a + b) == RowKeys(a) + RowKeys(b)
  {
    if a == [] {
      assert a + b == b;
    } else {
      ConcatCells(a[1..], b);
      assert (a + b)[1..] == a[1..] + b;
    }
  }

  lemma {:induction false} OneRow(row: Row)
    ensures Cells([row]) == multiset(Pairs(row)) && RowKeys([row]) == row.Keys
  {
    assert [row][1..] == [];
  }

  lemma {:induction false} OnlyCommon(was: Row, row: Row)
    ensures AllKeys([[was + row]]) == AllKeys([[was]]) + row.Keys
    ensures Longest([[was + row]]) == 1 && Separate([[was + row]])
    ensures row.Keys !! AllKeys([[was]]) ==>
              AllCells([[was + row]]) == AllCells([[was]]) + multiset(Pairs(row))
  {
    JustOne(was);
    JustOne(was + row);
    if row.Keys !! was.Keys { JoinCells(was, row); }
  }

  lemma {:induction false} JustOne(row: Row)
    ensures AllKeys([[row]]) == row.Keys && AllCells([[row]]) == multiset(Pairs(row))
    ensures Longest([[row]]) == 1 && Separate([[row]])
  {
    OneRow(row);
    assert [[row]][..0] == [];
  }

  lemma {:induction false} CommonLast(all: seq<seq<Row>>, row: Row)
    requires |all| > 1 && |all[0]| == 1
    ensures Common(all, row)[..|all| - 1] == Common(all[..|all| - 1], row)
    ensures Common(all, row)[|all| - 1] == all[|all| - 1] && |Common(all, row)| == |all|
  {
  }

  lemma {:induction false} CommonKeys(all: seq<seq<Row>>, row: Row)
    requires |all| > 0 && |all[0]| == 1
    ensures AllKeys(Common(all, row)) == AllKeys(all) + row.Keys
    ensures Longest(Common(all, row)) == Longest(all)
  {
    if |all| == 1 {
      assert all[0] == [all[0][0]];
      assert all == [[all[0][0]]] && Common(all, row) == [[all[0][0] + row]];
      JustOne(all[0][0]);
      OnlyCommon(all[0][0], row);
    } else {
      CommonKeys(all[..|all| - 1], row);
      CommonLast(all, row);
    }
  }

  lemma {:induction false} CellsStep(a: multiset<Cell>, b: multiset<Cell>, c: multiset<Cell>)
    ensures a + b + c == a + c + b
  {
  }

  /** What goes into the common row. */
  lemma {:induction false} CommonCells(all: seq<seq<Row>>, row: Row)
    requires |all| > 0 && |all[0]| == 1
    requires row.Keys !! AllKeys(all) && Separate(all)
    ensures Separate(Common(all, row)) && AllCells(Common(all, row)) == AllCells(all) + multiset(Pairs(row))
  {
    if |all| == 1 {
      assert all[0] == [all[0][0]];
      assert all == [[all[0][0]]] && Common(all, row) == [[all[0][0] + row]];
      OnlyCommon(all[0][0], row);
    } else {
      var front, rows := all[..|all| - 1], all[|all| - 1];
      CommonCells(front, row);
      CommonLast(all, row);
      CommonKeys(front, row);
      CellsStep(AllCells(front), multiset(Pairs(row)), Cells(rows));
    }
  }

  lemma {:induction false} OneMoreList(all: seq<seq<Row>>, rows: seq<Row>)
    ensures AllKeys(all + [rows]) == AllKeys(all) + RowKeys(rows)
    ensures Longest(all + [rows]) == Max(Longest(all), |rows|)
    ensures AllCells(all + [rows]) == AllCells(all) + Cells(rows)
    ensures Separate(all) && AllKeys(all) !! RowKeys(rows) ==> Separate(all + [rows])
  {
    assert (all + [rows])[..|all|] == all;
  }

  // ----- rows under a path -----

  predicate AllExtend(paths: set<Path>, p: Path) {
    forall q | q in paths :: Extends(q, p)
  }

  /** The paths go on from `p` with one of these keys. */
  predicate StepIn(paths: set<Path>, p: Path, keys: set<Key>) {
    forall q | q in paths :: Extends(q, p) && q != p && StepBelow(q, p) in keys
  }

  lemma {:induction false} ChildSteps(paths: set<Path>, p: Path, k: Key)
    requires AllExtend(paths, Down(p, k))
    ensures StepIn(paths, p, {k})
  {
    forall q | q in paths ensures Extends(q, p) && q != p && StepBelow(q, p) in {k} { StepBelowIs(q, p, k); }
  }

  lemma {:induction false} StepsApart(a: set<Path>, b: set<Path>, p: Path, keys: set<Key>, k: Key)
    requires StepIn(a, p, keys) && StepIn(b, p, {k})
    ensures StepIn(a + b, p, keys + {k})
    ensures k !in keys ==> a !! b
  {
  }

  // ----- the counts, and when it fails -----

  lemma {:induction false} PartsCount(fields: seq<Field>, n: nat, p: Path)
    requires n <= |fields|
    ensures Parts(fields, n, p).Some? <==> FieldsFlat(fields, n)
    ensures Parts(fields, n, p).Some? ==> Longest(Parts(fields, n, p).value) == FieldRows(fields, n)
    decreases fields, n
  {
    if n == 0 {
      JustOne(map[]);
    } else {
      PartsCount(fields, n - 1, p);
      if Parts(fields, n - 1, p).Some? { FieldCount(fields, n, p, Parts(fields, n - 1, p).value); }
    }
  }

  lemma {:induction false} FieldCount(fields: seq<Field>, n: nat, p: Path, all: seq<seq<Row>>)
    requires 0 < n <= |fields| && FieldsFlat(fields, n - 1) && |all| > 0 && |all[0]| == 1
    requires Longest(all) == FieldRows(fields, n - 1)
    ensures AddField(all, fields[n - 1], p).Some? <==> FieldsFlat(fields, n)
    ensures AddField(all, fields[n - 1], p).Some? ==>
              Longest(AddField(all, fields[n - 1], p).value) == FieldRows(fields, n)
    decreases fields[n - 1]
  {
    var f := fields[n - 1];
    LongestOne(fields, n - 1);
    match f.value
    case Leaf(v) =>
      CommonKeys(all, map[Down(p, f.key) := v]);
    case List(items) =>
      ItemsCount(items, |items|, Down(p, f.key));
      var rows := FlattenItems(items, |items|, Down(p, f.key));
      if rows.Some? { OneMoreList(all, rows.value); }
    case Dict(inner) =>
      FieldsCount(inner, Down(p, f.key));
      var rows := FlattenFields(inner, Down(p, f.key));
      if rows.Some? && |rows.value| == 1 { CommonKeys(all, rows.value[0]); }
  }

  lemma {:induction false} LongestOne(fields: seq<Field>, n: nat)
    requires n <= |fields|
    ensures FieldRows(fields, n) >= 1
  {
    if n > 0 { LongestOne(fields, n - 1); }
  }

  lemma {:induction false} FieldsCount(fields: seq<Field>, p: Path)
    ensures FlattenFields(fields, p).Some? <==> FieldsFlat(fields, |fields|)
    ensures FlattenFields(fields, p).Some? ==> |FlattenFields(fields, p).value| == FieldRows(fields, |fields|)
    decreases fields, |fields| + 1
  {
    PartsCount(fields, |fields|, p);
    if FlattenFields(fields, p).Some? { ZipLongestTogether(Parts(fields, |fields|, p).value); }
  }

  lemma {:induction false} ItemsCount(items: seq<Item>, n: nat, p: Path)
    requires n <= |items|
    ensures FlattenItems(items, n, p).Some? <==> ItemsFlat(items, n)
    ensures FlattenItems(items, n, p).Some? ==> |FlattenItems(items, n, p).value| == ItemRows(items, n)
    decreases items, n
  {
    if n > 0 {
      ItemsCount(items, n - 1, p);
      if items[n - 1].Record? { FieldsCount(items[n - 1].fields, p); }
    }
  }

  /** Flattening works exactly when every dictionary that is a field has one row, and gives the sum over
      a list and the longest list of a dictionary. */
  lemma {:induction false} RowsCount(o: Obj)
    ensures FlattenDict(o) != None <==> Flat(o)
    ensures Flat(o) ==> |FlattenDict(o).value| == RowCount(o)
  {
    match o
    case Leaf(_) =>
    case Dict(fields) => FieldsCount(fields, Root);
    case List(items) => ItemsCount(items, |items|, Root);
  }

  // ----- nothing is lost or doubled -----

  /** After `n` fields: the lists are apart, go on with these keys, and hold the values. */
  ghost predicate Holds(all: seq<seq<Row>>, fields: seq<Field>, n: nat, p: Path)
    requires n <= |fields|
  {
    Separate(all) && StepIn(AllKeys(all), p, KeySet(fields, n)) && AllCells(all) == FieldLeaves(fields, n, p)
  }

  lemma {:induction false} OneCell(q: Path, v: int)
    ensures var row: Row := map[q := v]; multiset(Pairs(row)) == multiset{(q, v)} && row.Keys == {q}
  {
    var row: Row := map[q := v];
    assert q in row && row[q] == v;
    assert (q, row[q]) in Pairs(row);
    forall c | c in Pairs(row) ensures c == (q, v) {
      var k :| k in row && c == (k, row[k]);
      assert k in {q};
    }
    assert Pairs(row) == {(q, v)};
  }

  lemma {:induction false} HoldsNothing(fields: seq<Field>, p: Path)
    ensures Holds([[map[]]], fields, 0, p)
  {
    var empty: Row := map[];
    JustOne(empty);
    assert Pairs(empty) == {};
  }

  lemma {:induction false} PartsHold(fields: seq<Field>, n: nat, p: Path)
    requires n <= |fields| && FieldsDiffer(fields, n) && Parts(fields, n, p).Some?
    ensures Holds(Parts(fields, n, p).value, fields, n, p)
    decreases fields, n
  {
    if n == 0 {
      HoldsNothing(fields, p);
    } else {
      PartsHold(fields, n - 1, p);
      FieldHolds(fields, n, p, Parts(fields, n - 1, p).value);
    }
  }

  lemma {:induction false} FieldHolds(fields: seq<Field>, n: nat, p: Path, all: seq<seq<Row>>)
    requires 0 < n <= |fields| && FieldsDiffer(fields, n) && |all| > 0 && |all[0]| == 1
    requires Holds(all, fields, n - 1, p) && AddField(all, fields[n - 1], p).Some?
    ensures Holds(AddField(all, fields[n - 1], p).value, fields, n, p)
    decreases fields[n - 1]
  {
    var f := fields[n - 1];
    var q := Down(p, f.key);
    match f.value
    case Leaf(v) =>
      var row: Row := map[q := v];
      OneCell(q, v);
      HoldsCommon(fields, n, p, all, row);
    case List(items) =>
      ItemsHold(items, |items|, q);
      HoldsList(fields, n, p, all, FlattenItems(items, |items|, q).value);
    case Dict(inner) =>
      FieldsHold(inner, q);
      var rows := FlattenFields(inner, q).value;
      assert rows == [rows[0]];
      OneRow(rows[0]);
      HoldsCommon(fields, n, p, all, rows[0]);
  }

  lemma {:induction false} HoldsCommon(fields: seq<Field>, n: nat, p: Path, all: seq<seq<Row>>, row: Row)
    requires 0 < n <= |fields| && FieldsDiffer(fields, n) && |all| > 0 && |all[0]| == 1
    requires Holds(all, fields, n - 1, p)
    requires var f := fields[n - 1];
             AllExtend(row.Keys, Down(p, f.key)) && multiset(Pairs(row)) == Leaves(f.value, Down(p, f.key))
    ensures Holds(Common(all, row), fields, n, p)
  {
    ChildSteps(row.Keys, p, fields[n - 1].key);
    StepsApart(AllKeys(all), row.Keys, p, KeySet(fields, n - 1), fields[n - 1].key);
    CommonKeys(all, row);
    CommonCells(all, row);
  }

  lemma {:induction false} HoldsList(fields: seq<Field>, n: nat, p: Path, all: seq<seq<Row>>, rows: seq<Row>)
    requires 0 < n <= |fields| && FieldsDiffer(fields, n) && Holds(all, fields, n - 1, p)
    requires var f := fields[n - 1];
             AllExtend(RowKeys(rows), Down(p, f.key)) && Cells(rows) == Leaves(f.value, Down(p, f.key))
    ensures Holds(all + [rows], fields, n, p)
  {
    ChildSteps(RowKeys(rows), p, fields[n - 1].key);
    StepsApart(AllKeys(all), RowKeys(rows), p, KeySet(fields, n - 1), fields[n - 1].key);
    OneMoreList(all, rows);
  }

  lemma {:induction false} FieldsHold(fields: seq<Field>, p: Path)
    requires FieldsDiffer(fields, |fields|) && FlattenFields(fields, p).Some?
    ensures Cells(FlattenFields(fields, p).value) == FieldLeaves(fields, |fields|, p)
    ensures AllExtend(RowKeys(FlattenFields(fields, p).value), p)
    decreases fields, |fields| + 1
  {
    PartsHold(fields, |fields|, p);
    ZipLongestTogether(Parts(fields, |fields|, p).value);
  }

  lemma {:induction false} ItemsHold(items: seq<Item>, n: nat, p: Path)
    requires n <= |items| && ItemsDiffer(items, n) && FlattenItems(items, n, p).Some?
    ensures Cells(FlattenItems(items, n, p).value) == ItemLeaves(items, n, p)
    ensures AllExtend(RowKeys(FlattenItems(items, n, p).value), p)
    decreases items, n
  {
    if n > 0 {
      ItemsHold(items, n - 1, p);
      var before := FlattenItems(items, n - 1, p).value;
      match items[n - 1]
      case Scalar(v) =>
        var row: Row := map[p := v];
        OneCell(p, v);
        OneRow(row);
        ConcatCells(before, [row]);
      case Record(fields) =>
        FieldsHold(fields, p);
        ConcatCells(before, FlattenFields(fields, p).value);
    }
  }

  /** The rows hold every value of the object under its path as often as it is there, and nothing else. */
  lemma {:induction false} NoLeafIsLost(o: Obj)
    requires !o.Leaf? && Proper(o) && Flat(o)
    ensures FlattenDict(o).Some? && Cells(FlattenDict(o).value) == Leaves(o, Root)
  {
    RowsCount(o);
    match o
    case Dict(fields) => FieldsHold(fields, Root);
    case List(items) => ItemsHold(items, |items|, Root);
  }

  // ----- flatten_tree as it is -----

  method FlattenTreeItems(items: seq<Item>, p: Path) returns (newRows: Option<seq<Row>>)
    ensures newRows == FlattenItems(items, |items|, p)
    decreases items
  {
    var rows: seq<Row> := [];
    for n := 0 to |items|
      invariant FlattenItems(items, n, p) == Some(rows)
    {
      match items[n]
      case Record(fields) =>
        var more := FlattenTreeFields(fields, p);
        if more == None {
          ItemsFail(items, n, p);
          return None;
        }
        rows := rows + more.value;
      case Scalar(v) =>
        rows := rows + [map[p := v]];
    }
    newRows := Some(rows);
  }

  method FlattenTreeFields(fields: seq<Field>, p: Path) returns (newRows: Option<seq<Row>>)
    ensures newRows == FlattenFields(fields, p)
    decreases fields
  {
    var allRows: seq<seq<Row>> := [[map[]]];
    for n := 0 to |fields|
      invariant |allRows| > 0 && |allRows[0]| == 1
      invariant Parts(fields, n, p) == Some(allRows)
    {
      var q := Down(p, fields[n].key);
      match fields[n].value
      case List(items) =>
        var rows := FlattenTreeItems(items, q);
        if rows == None {
          FieldsFail(fields, n, p);
          return None;
        }
        allRows := allRows + [rows.value];
      case Dict(inner) =>
        var rows := FlattenTreeFields(inner, q);
        if rows == None || |rows.value| != 1 {
          FieldsFail(fields, n, p);
          return None;
        }
        allRows := Common(allRows, rows.value[0]);
      case Leaf(v) =>
        allRows := Common(allRows, map[q := v]);
    }
    newRows := Some(ZipLongest(allRows));
  }

  lemma {:induction false} ItemsFail(items: seq<Item>, n: nat, p: Path)
    requires n < |items| && FlattenItems(items, n + 1, p) == None
    ensures FlattenItems(items, |items|, p) == None
    decreases |items| - n
  {
    if n + 1 < |items| { ItemsFail(items, n + 1, p); }
  }

  lemma {:induction false} FieldsFail(fields: seq<Field>, n: nat, p: Path)
    requires n < |fields| && Parts(fields, n + 1, p) == None
    ensures Parts(fields, |fields|, p) == None
    decreases |fields| - n
  {
    if n + 1 < |fields| { FieldsFail(fields, n + 1, p); }
  }
}

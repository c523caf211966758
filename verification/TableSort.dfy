/** Searching, sorting and paging the rows of a table. */
module TableSort {
  import opened PythonText
  import opened StableSort

  type Column = string

  datatype Cell = None | Number(n: int) | Str(s: string)

  type Row = map<Column, Cell>

  /** What a column shows in place of its cells. */
  type Shown = map<Column, map<Cell, Cell>>

  datatype ColumnInfo = ColumnInfo(data: Column, searchable: bool)

  datatype Order = Order(column: int, desc: bool)

  datatype Request = Request(search: string, columns: seq<ColumnInfo>, order: seq<Order>, start: int, length: int)

  /** `Failed` is any exception: a missing column or cell, or cells that do not compare. */
  datatype Outcome = Failed | Page(results: seq<Row>, totalCount: nat, filteredCount: nat)

  // ----- the search -----

  function Show(shown: Shown, column: Column, cell: Cell): Cell {
    if column in shown && cell in shown[column] then shown[column][cell] else cell
  }

  /** `str(value)` */
  function CellText(cell: Cell): string {
    match cell
    case None => "None"
    case Number(n) => if n < 0 then "-" + Text(-n) else Text(n)
    case Str(s) => s
  }

  predicate Contains(text: string, part: string) {
    exists i | 0 <= i <= |text| :: part <= text[i..]
  }

  predicate CellMatches(row: Row, column: Column, value: string, searched: set<Column>, shown: Shown)
    requires column in row
  {
    column in searched && Contains(Lower(CellText(Show(shown, column, row[column]))), value)
  }

  predicate Matches(row: Row, value: string, searched: set<Column>, shown: Shown) {
    exists column | column in row :: CellMatches(row, column, value, searched, shown)
  }

  function Searched(columns: seq<ColumnInfo>, more: set<Column>): set<Column> {
    more + set c | c in columns && c.searchable :: c.data
  }

  function Filtered(rows: seq<Row>, value: string, searched: set<Column>, shown: Shown): seq<Row> {
    if rows == [] then []
    else
      var front, last := rows[..|rows| - 1], rows[|rows| - 1];
      Filtered(front, value, searched, shown)
      + (if value == [] || Matches(last, value, searched, shown) then [last] else [])
  }

  // ----- the sorts -----

  /** What rows are sorted by. The default sort (`plain`) takes the cell as it is, the others what is
      shown for it. */
  datatype Key = Key(column: Column, desc: bool, plain: bool)

  /** The cell compared; a missing one is never compared. */
  function Sought(row: Row, key: Key, shown: Shown): Cell {
    if key.column !in row then None
    else
      var cell := if key.plain then row[key.column] else Show(shown, key.column, row[key.column]);
      if cell.Str? then Str(Lower(cell.s)) else cell
  }

  function Rank(cell: Cell): nat {
    match cell
    case None => 0
    case Number(_) => 1
    case Str(_) => 2
  }

  /** Cells of different kinds are never compared; they get an order to make it total. */
  predicate CellBefore(a: Cell, b: Cell) {
    if a.Number? && b.Number? then a.n < b.n
    else if a.Str? && b.Str? then TextBefore(a.s, b.s)
    else Rank(a) < Rank(b)
  }

  predicate RowLeq(key: Key, shown: Shown, a: Row, b: Row) {
    if key.desc then !CellBefore(Sought(a, key, shown), Sought(b, key, shown))
    else !CellBefore(Sought(b, key, shown), Sought(a, key, shown))
  }

  function KeyLeq(key: Key, shown: Shown): (Row, Row) -> bool {
    (a: Row, b: Row) => RowLeq(key, shown, a, b)
  }

  /** Evaluating the keys of the rows and comparing them raises nothing. */
  predicate Sortable(rows: seq<Row>, key: Key, shown: Shown) {
    && (forall row | row in rows :: key.column in row)
    && (key.plain ==> forall row | row in rows :: Sought(row, key, shown).Str?)
    && (|rows| > 1 ==>
          || (forall row | row in rows :: Sought(row, key, shown).Str?)
          || (forall row | row in rows :: Sought(row, key, shown).Number?))
  }

  /** Sorting by the last key first. */
  function SortedBy(rows: seq<Row>, keys: seq<Key>, shown: Shown): seq<Row> {
    if keys == [] then rows else Sorted(SortedBy(rows, keys[1..], shown), KeyLeq(keys[0], shown))
  }

  /** `columns[k]`, which counts from the end for a negative `k` */
  predicate Within(k: int, n: nat) {
    0 <= k + n && k < n
  }

  function KeyOf(o: Order, columns: seq<ColumnInfo>): Key
    requires Within(o.column, |columns|)
  {
    Key(columns[if o.column < 0 then o.column + |columns| else o.column].data, o.desc, false)
  }

  /** The orders asked for and then the default. */
  function Keys(order: seq<Order>, columns: seq<ColumnInfo>, defaultSort: Column): seq<Key>
    requires forall o | o in order :: Within(o.column, |columns|)
  {
    if order == [] then [Key(defaultSort, false, true)]
    else [KeyOf(order[0], columns)] + Keys(order[1..], columns, defaultSort)
  }

  // ----- the page -----

  function Clamp(k: int, n: nat): nat {
    if k < 0 then (if k + n < 0 then 0 else k + n) else if k > n then n else k
  }

  /** `s[start:stop]` */
  function Slice<T>(s: seq<T>, start: int, stop: int): seq<T> {
    var i, j := Clamp(start, |s|), Clamp(stop, |s|);
    if i <= j then s[i..j] else []
  }

  // ----- the whole request -----

  function Found(rows: seq<Row>, request: Request, more: set<Column>, shown: Shown): seq<Row> {
    Filtered(rows, Lower(request.search), Searched(request.columns, more), shown)
  }

  /** Every order names a column, and every sort goes through. */
  predicate Succeeds(rows: seq<Row>, request: Request, defaultSort: Column, shown: Shown) {
    && (forall o | o in request.order :: Within(o.column, |request.columns|))
    && forall key | key in Keys(request.order, request.columns, defaultSort) :: Sortable(rows, key, shown)
  }

  function Whole(rows: seq<Row>, request: Request, defaultSort: Column, more: set<Column>, shown: Shown): seq<Row>
    requires forall o | o in request.order :: Within(o.column, |request.columns|)
  {
    SortedBy(Found(rows, request, more, shown), Keys(request.order, request.columns, defaultSort), shown)
  }

  function Answer(rows: seq<Row>, request: Request, defaultSort: Column, more: set<Column>, shown: Shown): Outcome {
    var found := Found(rows, request, more, shown);
    if !Succeeds(found, request, defaultSort, shown) then Failed
    else Page(Slice(Whole(rows, request, defaultSort, more, shown), request.start, request.start + request.length),
              |rows|, |found|)
  }

  method ProcessDatatableRows(rows: seq<Row>, request: Request, defaultSort: Column, more: set<Column>, shown: Shown)
    returns (r: Outcome)
    ensures r == Answer(rows, request, defaultSort, more, shown)
    ensures r.Page? ==> forall i, j | 0 <= i < j < |r.results| ::
                          Comes(request, defaultSort, shown, r.results[i], r.results[j])
  {
    ghost var at := AnswerInOrder(rows, request, defaultSort, more, shown);
    var results := Search(rows, Lower(request.search), Searched(request.columns, more), shown);
    var ok, sorted := Sort(results, request, defaultSort, shown);
    r := if ok then Page(Slice(sorted, request.start, request.start + request.length), |rows|, |results|) else Failed;
  }

  method Search(rows: seq<Row>, value: string, searched: set<Column>, shown: Shown) returns (results: seq<Row>)
    ensures results == Filtered(rows, value, searched, shown)
  {
    results := [];
    if value != [] {
      for n := 0 to |rows|
        invariant results == Filtered(rows[..n], value, searched, shown)
      {
        assert rows[..n + 1][..n] == rows[..n];
        var found := RowMatches(rows[n], value, searched, shown);
        if found {
          results := results + [rows[n]];
        }
      }
      assert rows[..|rows|] == rows;
    } else {
      results := rows;
      NothingSought(rows, searched, shown);
    }
  }

  /** The default sort, and then the orders from the last to the first. */
  method Sort(found: seq<Row>, request: Request, defaultSort: Column, shown: Shown) returns (ok: bool, sorted: seq<Row>)
    ensures ok == Succeeds(found, request, defaultSort, shown)
    ensures ok ==> sorted == SortedBy(found, Keys(request.order, request.columns, defaultSort), shown)
  {
    var defaultKey := Key(defaultSort, false, true);
    if !Sortable(found, defaultKey, shown) {
      DefaultKeyLast(request.order, request.columns, defaultSort);
      return false, found;
    }
    sorted := Sorted(found, KeyLeq(defaultKey, shown));
    assert [defaultKey][1..] == [];
    var k := |request.order|;
    while k > 0
      invariant 0 <= k <= |request.order|
      invariant SortedSoFar(found, request, request.order[k..], defaultSort, shown, sorted)
    {
      k := k - 1;
      var o := request.order[k];
      assert request.order[k..] == [o] + request.order[k + 1..];
      if !Within(o.column, |request.columns|) {
        return false, found;
      }
      var key := KeyOf(o, request.columns);
      SortedByContents(found, Keys(request.order[k + 1..], request.columns, defaultSort), shown);
      SameSortable(found, sorted, key, shown);
      if !Sortable(sorted, key, shown) {
        KeyIn(request.order, k, request.columns, defaultSort);
        return false, found;
      }
      SortStep(found, request, o, request.order[k + 1..], defaultSort, shown, sorted);
      sorted := Sorted(sorted, KeyLeq(key, shown));
    }
    assert request.order[0..] == request.order;
    ok := true;
  }

  ghost predicate SortedSoFar(found: seq<Row>, request: Request, order: seq<Order>, defaultSort: Column, shown: Shown,
                              sorted: seq<Row>) {
    && (forall o | o in order :: Within(o.column, |request.columns|))
    && sorted == SortedBy(found, Keys(order, request.columns, defaultSort), shown)
    && (forall key | key in Keys(order, request.columns, defaultSort) :: Sortable(found, key, shown))
  }

  lemma {:induction false} SortStep(found: seq<Row>, request: Request, o: Order, order: seq<Order>,
                                    defaultSort: Column, shown: Shown,
                 sorted: seq<Row>)
    requires SortedSoFar(found, request, order, defaultSort, shown, sorted) && Within(o.column, |request.columns|)
    requires Sortable(found, KeyOf(o, request.columns), shown)
    ensures SortedSoFar(found, request, [o] + order, defaultSort, shown,
                        Sorted(sorted, KeyLeq(KeyOf(o, request.columns), shown)))
  {
    assert ([o] + order)[1..] == order;
    var keys := Keys(order, request.columns, defaultSort);
    assert ([KeyOf(o, request.columns)] + keys)[1..] == keys;
  }

  /** The inner loop of the search, which stops at the first cell that matches. */
  method RowMatches(row: Row, value: string, searched: set<Column>, shown: Shown) returns (found: bool)
    ensures found == Matches(row, value, searched, shown)
  {
    var columns := row.Keys;
    while columns != {}
      invariant columns <= row.Keys
      invariant forall c | c in row && c !in columns :: !CellMatches(row, c, value, searched, shown)
    {
      var column :| column in columns;
      if CellMatches(row, column, value, searched, shown) {
        return true;
      }
      columns := columns - {column};
    }
    return false;
  }

  lemma {:induction false} NothingSought(rows: seq<Row>, searched: set<Column>, shown: Shown)
    ensures Filtered(rows, [], searched, shown) == rows
  {
    if rows != [] {
      NothingSought(rows[..|rows| - 1], searched, shown);
    }
  }

  lemma {:induction false} DefaultKeyLast(order: seq<Order>, columns: seq<ColumnInfo>, defaultSort: Column)
    ensures (forall o | o in order :: Within(o.column, |columns|)) ==>
              Key(defaultSort, false, true) in Keys(order, columns, defaultSort)
  {
    if order != [] && forall o | o in order :: Within(o.column, |columns|) {
      DefaultKeyLast(order[1..], columns, defaultSort);
    }
  }

  lemma {:induction false} KeyIn(order: seq<Order>, k: nat, columns: seq<ColumnInfo>, defaultSort: Column)
    requires k < |order| && Within(order[k].column, |columns|)
    ensures (forall o | o in order :: Within(o.column, |columns|)) ==>
              KeyOf(order[k], columns) in Keys(order, columns, defaultSort)
  {
    if k > 0 && forall o | o in order :: Within(o.column, |columns|) {
      KeyIn(order[1..], k - 1, columns, defaultSort);
    }
  }

  lemma {:induction false} SortedByContents(rows: seq<Row>, keys: seq<Key>, shown: Shown)
    ensures multiset(SortedBy(rows, keys, shown)) == multiset(rows)
    ensures |SortedBy(rows, keys, shown)| == |rows|
  {
    if keys != [] {
      SortedByContents(rows, keys[1..], shown);
      SortedContents(SortedBy(rows, keys[1..], shown), KeyLeq(keys[0], shown));
    }
  }

  lemma {:induction false} SameSortable(a: seq<Row>, b: seq<Row>, key: Key, shown: Shown)
    requires multiset(a) == multiset(b) && |a| == |b|
    ensures Sortable(a, key, shown) == Sortable(b, key, shown)
  {
    assert forall row :: row in a <==> row in multiset(a);
    assert forall row :: row in b <==> row in multiset(b);
  }

  // ----- what is found -----

  /** Where each found row was. */
  function Positions(rows: seq<Row>, value: string, searched: set<Column>, shown: Shown): seq<nat> {
    if rows == [] then []
    else
      Positions(rows[..|rows| - 1], value, searched, shown)
      + (if value == [] || Matches(rows[|rows| - 1], value, searched, shown) then [|rows| - 1] else [])
  }

  /** The rows found are exactly those that match, each once and in their order. */
  lemma {:induction false} FoundExactly(rows: seq<Row>, value: string, searched: set<Column>, shown: Shown)
    ensures var found, at := Filtered(rows, value, searched, shown), Positions(rows, value, searched, shown);
            && |found| == |at|
            && (forall i | 0 <= i < |at| :: at[i] < |rows| && found[i] == rows[at[i]])
            && (forall i, j | 0 <= i < j < |at| :: at[i] < at[j])
            && (forall p: nat :: p in at <==> p < |rows| && (value == [] || Matches(rows[p], value, searched, shown)))
  {
    FoundAt(rows, value, searched, shown);
    forall p: nat
      ensures p in Positions(rows, value, searched, shown)
         <==> p < |rows| && (value == [] || Matches(rows[p], value, searched, shown))
    {
      FoundWhich(rows, value, searched, shown, p);
    }
  }

  /** `found` are rows, at the rising places `at`. */
  ghost predicate Picked(rows: seq<Row>, found: seq<Row>, at: seq<nat>) {
    && |found| == |at|
    && (forall i | 0 <= i < |at| :: at[i] < |rows| && found[i] == rows[at[i]])
    && (forall i, j | 0 <= i < j < |at| :: at[i] < at[j])
  }

  lemma {:induction false} PickedNext(rows: seq<Row>, found: seq<Row>, at: seq<nat>, last: Row, picked: bool)
    requires Picked(rows, found, at)
    ensures Picked(rows + [last], found + (if picked then [last] else []), at + (if picked then [|rows|] else []))
  {
    var found' := found + (if picked then [last] else []);
    var at' := at + (if picked then [|rows|] else []);
    forall i | 0 <= i < |at'| ensures at'[i] < |rows| + 1 && found'[i] == (rows + [last])[at'[i]] {
      if i < |at| { assert at'[i] == at[i] && found'[i] == found[i]; }
    }
    forall i, j | 0 <= i < j < |at'| ensures at'[i] < at'[j] {
      assert at'[i] == at[i];
      if j < |at| { assert at'[j] == at[j]; }
    }
  }

  lemma {:induction false} FoundAt(rows: seq<Row>, value: string, searched: set<Column>, shown: Shown)
    ensures Picked(rows, Filtered(rows, value, searched, shown), Positions(rows, value, searched, shown))
  {
    if rows != [] {
      var front, last := rows[..|rows| - 1], rows[|rows| - 1];
      FoundAt(front, value, searched, shown);
      PickedNext(front, Filtered(front, value, searched, shown), Positions(front, value, searched, shown), last,
                 value == [] || Matches(last, value, searched, shown));
      assert front + [last] == rows;
    }
  }

  lemma {:induction false} FoundWhich(rows: seq<Row>, value: string, searched: set<Column>, shown: Shown, p: nat)
    ensures p in Positions(rows, value, searched, shown)
       <==> p < |rows| && (value == [] || Matches(rows[p], value, searched, shown))
  {
    if rows != [] {
      FoundWhich(rows[..|rows| - 1], value, searched, shown, p);
    }
  }

  // ----- the order of the results -----

  /** A row and its place in the input. */
  datatype Tagged = Tagged(row: Row, position: nat)

  function Untag(s: seq<Tagged>): seq<Row> {
    if s == [] then [] else [s[0].row] + Untag(s[1..])
  }

  function TagFrom(rows: seq<Row>, position: nat): seq<Tagged> {
    if rows == [] then [] else [Tagged(rows[0], position)] + TagFrom(rows[1..], position + 1)
  }

  function Tag(rows: seq<Row>): seq<Tagged> {
    TagFrom(rows, 0)
  }

  /** The first key on which two rows differ decides, in its direction; rows equal on all keys stay in
      the order of the input. */
  predicate Before(keys: seq<Key>, shown: Shown, a: Tagged, b: Tagged) {
    if keys == [] then a.position < b.position
    else
      var x, y := Sought(a.row, keys[0], shown), Sought(b.row, keys[0], shown);
      if x == y then Before(keys[1..], shown, a, b)
      else if keys[0].desc then CellBefore(y, x)
      else CellBefore(x, y)
  }

  lemma {:induction false} CellTotal(a: Cell, b: Cell)
    ensures a == b || CellBefore(a, b) || CellBefore(b, a)
    ensures !(CellBefore(a, b) && (a == b || CellBefore(b, a)))
  {
    if a.Str? && b.Str? { TextTotal(a.s, b.s); }
  }

  lemma {:induction false} CellTransitive(a: Cell, b: Cell, c: Cell)
    requires !CellBefore(b, a) && !CellBefore(c, b)
    ensures !CellBefore(c, a)
  {
    CellTotal(a, b);
    CellTotal(b, c);
    CellTotal(a, c);
    if a.Str? && b.Str? && c.Str? && a != b && b != c { TextTransitive(a.s, b.s, c.s); }
  }

  /** A key's comparison of rows, on tagged rows. */
  function TaggedLeq(key: Key, shown: Shown): (Tagged, Tagged) -> bool {
    (a: Tagged, b: Tagged) => RowLeq(key, shown, a.row, b.row)
  }

  lemma {:induction false} TaggedComparable(key: Key, shown: Shown)
    ensures Comparable(TaggedLeq(key, shown))
  {
    var leq := TaggedLeq(key, shown);
    forall a, b ensures leq(a, b) || leq(b, a) {
      CellTotal(Sought(a.row, key, shown), Sought(b.row, key, shown));
    }
    forall a, b, c | leq(a, b) && leq(b, c) ensures leq(a, c) {
      assert RowLeq(key, shown, a.row, b.row) && RowLeq(key, shown, b.row, c.row);
      var x, y, z := Sought(a.row, key, shown), Sought(b.row, key, shown), Sought(c.row, key, shown);
      if key.desc { CellTransitive(z, y, x); } else { CellTransitive(x, y, z); }
    }
  }

  lemma {:induction false} UntagInsert(x: Tagged, s: seq<Tagged>, key: Key, shown: Shown)
    ensures Untag(Insert(x, s, TaggedLeq(key, shown))) == Insert(x.row, Untag(s), KeyLeq(key, shown))
  {
    var leq := TaggedLeq(key, shown);
    if s == [] || leq(x, s[0]) {
      assert ([x] + s)[1..] == s;
    } else {
      UntagInsert(x, s[1..], key, shown);
      assert ([s[0]] + Insert(x, s[1..], leq))[1..] == Insert(x, s[1..], leq);
      assert Untag(s)[1..] == Untag(s[1..]);
    }
  }

  lemma {:induction false} UntagSorted(s: seq<Tagged>, key: Key, shown: Shown)
    ensures Untag(Sorted(s, TaggedLeq(key, shown))) == Sorted(Untag(s), KeyLeq(key, shown))
  {
    if s != [] {
      UntagSorted(s[1..], key, shown);
      UntagInsert(s[0], Sorted(s[1..], TaggedLeq(key, shown)), key, shown);
      assert Untag(s)[1..] == Untag(s[1..]);
    }
  }

  function BeforeBy(keys: seq<Key>, shown: Shown): (Tagged, Tagged) -> bool {
    (a: Tagged, b: Tagged) => Before(keys, shown, a, b)
  }

  lemma {:induction false} RefineIsBefore(keys: seq<Key>, shown: Shown, a: Tagged, b: Tagged)
    requires keys != []
    requires Refine(TaggedLeq(keys[0], shown), BeforeBy(keys[1..], shown))(a, b)
    ensures Before(keys, shown, a, b)
  {
    CellTotal(Sought(a.row, keys[0], shown), Sought(b.row, keys[0], shown));
  }

  lemma {:induction false} TagContents(rows: seq<Row>, position: nat)
    ensures var s := TagFrom(rows, position);
            && Untag(s) == rows && |s| == |rows|
            && forall i | 0 <= i < |s| :: s[i] == Tagged(rows[i], position + i)
  {
    if rows != [] {
      TagContents(rows[1..], position + 1);
      var t := TagFrom(rows[1..], position + 1);
      var s := TagFrom(rows, position);
      assert s[1..] == t && rows == [rows[0]] + rows[1..];
      forall i | 0 < i < |s| ensures s[i] == Tagged(rows[i], position + i) {
        assert s[i] == t[i - 1] == Tagged(rows[1..][i - 1], position + 1 + (i - 1));
      }
    }
  }

  /** The results are the rows found, rearranged so that every one comes before all later ones. */
  lemma {:induction false} SortsLexicographically(rows: seq<Row>, keys: seq<Key>, shown: Shown) returns (s: seq<Tagged>)
    ensures Untag(s) == SortedBy(rows, keys, shown)
    ensures multiset(s) == multiset(Tag(rows))
    ensures Chain(s, BeforeBy(keys, shown))
  {
    if keys == [] {
      s := Tag(rows);
      TagContents(rows, 0);
    } else {
      var t := SortsLexicographically(rows, keys[1..], shown);
      var leq := TaggedLeq(keys[0], shown);
      s := Sorted(t, leq);
      UntagSorted(t, keys[0], shown);
      SortedContents(t, leq);
      TaggedComparable(keys[0], shown);
      SortedChain(t, leq, BeforeBy(keys[1..], shown));
      forall i, j | 0 <= i < j < |s| ensures BeforeBy(keys, shown)(s[i], s[j]) {
        assert Refine(leq, BeforeBy(keys[1..], shown))(s[i], s[j]);
        RefineIsBefore(keys, shown, s[i], s[j]);
      }
    }
  }

  lemma {:induction false} BeforeIsStrict(keys: seq<Key>, shown: Shown, a: Tagged, b: Tagged)
    requires Before(keys, shown, a, b)
    ensures !Before(keys, shown, b, a)
  {
    if keys != [] {
      var x, y := Sought(a.row, keys[0], shown), Sought(b.row, keys[0], shown);
      CellTotal(x, y);
      if x == y { BeforeIsStrict(keys[1..], shown, a, b); }
    }
  }

  /** No other arrangement of the rows is in that order. */
  lemma {:induction false} OnlyArrangement(rows: seq<Row>, keys: seq<Key>, shown: Shown, s: seq<Tagged>)
    requires multiset(s) == multiset(Tag(rows)) && Chain(s, BeforeBy(keys, shown))
    ensures Untag(s) == SortedBy(rows, keys, shown)
  {
    var t := SortsLexicographically(rows, keys, shown);
    forall a, b | BeforeBy(keys, shown)(a, b) ensures !BeforeBy(keys, shown)(b, a) {
      BeforeIsStrict(keys, shown, a, b);
    }
    ChainIsUnique(s, t, BeforeBy(keys, shown));
  }

  // ----- pages -----

  /** The first `n` pages one after the other. */
  function Pages<T>(s: seq<T>, length: nat, n: nat): seq<T> {
    if n == 0 then [] else Pages(s, length, n - 1) + Slice(s, (n - 1) * length, (n - 1) * length + length)
  }

  /** Consecutive pages put together are the results from the first on, up to all of them. */
  lemma {:induction false} PagesTile<T>(s: seq<T>, length: nat, n: nat)
    ensures Pages(s, length, n) == s[..if n * length < |s| then n * length else |s|]
  {
    if n > 0 {
      PagesTile(s, length, n - 1);
      OneMore(n, length);
      PagesNext(s, length, n, (n - 1) * length);
    }
  }

  lemma {:induction false} PagesNext<T>(s: seq<T>, length: nat, n: nat, start: nat)
    requires n > 0 && start == (n - 1) * length
    requires Pages(s, length, n - 1) == s[..if start < |s| then start else |s|]
    ensures Pages(s, length, n) == s[..if start + length < |s| then start + length else |s|]
  {
    NextPage(s, start, length);
  }

  lemma {:induction false} OneMore(n: int, length: int)
    ensures n * length == (n - 1) * length + length
  {
  }

  lemma {:induction false} NextPage<T>(s: seq<T>, start: nat, length: nat)
    ensures s[..if start < |s| then start else |s|] + Slice(s, start, start + length)
         == s[..if start + length < |s| then start + length else |s|]
  {
  }

  /** Asking for a page of length -1, the usual request for all rows, leaves out the last row. */
  lemma {:induction false} AllRowsButTheLast<T>(s: seq<T>)
    ensures Slice(s, 0, 0 + -1) == if s == [] then [] else s[..|s| - 1]
  {
  }

  // ----- what the request asks for -----

  /** What a row shows in a column, with text in lower case. */
  function Visible(row: Row, column: Column, shown: Shown): Cell
    requires column in row
  {
    var cell := if column in shown && row[column] in shown[column] then shown[column][row[column]] else row[column];
    match cell
    case Str(s) => Str(Lower(s))
    case _ => cell
  }

  predicate Smaller(x: Cell, y: Cell) {
    (x.Number? && y.Number? && x.n < y.n) || (x.Str? && y.Str? && TextBefore(x.s, y.s))
  }

  predicate InRange(request: Request) {
    forall k | 0 <= k < |request.order| :: -|request.columns| <= request.order[k].column < |request.columns|
  }

  /** The column of an order; a negative number counts from the end. */
  function OrderColumn(request: Request, k: nat): Column
    requires InRange(request) && k < |request.order|
  {
    request.columns[request.order[k].column % |request.columns|].data
  }

  predicate HasColumns(request: Request, defaultSort: Column, row: Row)
    requires InRange(request)
  {
    && defaultSort in row && row[defaultSort].Str?
    && forall k | 0 <= k < |request.order| :: OrderColumn(request, k) in row
  }

  /** Two rows show the same in the columns of the first `n` orders. */
  predicate Tied(request: Request, shown: Shown, a: Row, b: Row, n: nat)
    requires InRange(request) && n <= |request.order|
    requires forall k | 0 <= k < |request.order| :: OrderColumn(request, k) in a && OrderColumn(request, k) in b
  {
    forall k | 0 <= k < n ::
      Visible(a, OrderColumn(request, k), shown) == Visible(b, OrderColumn(request, k), shown)
  }

  /** The earlier row shows the smaller cell in the first column in which they differ, or the larger one
      if that order says so. */
  predicate Decided(request: Request, shown: Shown, a: Row, b: Row, k: nat)
    requires InRange(request) && k < |request.order|
    requires forall m | 0 <= m < |request.order| :: OrderColumn(request, m) in a && OrderColumn(request, m) in b
  {
    var x, y := Visible(a, OrderColumn(request, k), shown), Visible(b, OrderColumn(request, k), shown);
    Tied(request, shown, a, b, k) && if request.order[k].desc then Smaller(y, x) else Smaller(x, y)
  }

  predicate TiedByDefault(request: Request, defaultSort: Column, shown: Shown, a: Row, b: Row)
    requires InRange(request) && HasColumns(request, defaultSort, a) && HasColumns(request, defaultSort, b)
  {
    Tied(request, shown, a, b, |request.order|) && Lower(a[defaultSort].s) == Lower(b[defaultSort].s)
  }

  /** Row `a` may come before row `b`: the first order that tells them apart decides, and if none does
      the default column, ascending. */
  predicate Comes(request: Request, defaultSort: Column, shown: Shown, a: Row, b: Row) {
    && InRange(request) && HasColumns(request, defaultSort, a) && HasColumns(request, defaultSort, b)
    && (|| (exists k | 0 <= k < |request.order| :: Decided(request, shown, a, b, k))
        || (Tied(request, shown, a, b, |request.order|)
            && TextBefore(Lower(a[defaultSort].s), Lower(b[defaultSort].s)))
        || TiedByDefault(request, defaultSort, shown, a, b))
  }

  /** All found rows have something to compare in the column. */
  predicate ColumnSorts(found: seq<Row>, column: Column, shown: Shown) {
    && (forall row | row in found :: column in row)
    && (|found| > 1 ==>
          || (forall row | row in found :: Visible(row, column, shown).Str?)
          || (forall row | row in found :: Visible(row, column, shown).Number?))
  }

  lemma {:induction false} FromTheEnd(c: int, n: nat)
    requires -(n as int) <= c < n
    ensures c % n == if c < 0 then c + n else c
  {
  }

  lemma {:induction false} OrderKey(request: Request, k: nat)
    requires k < |request.order| && Within(request.order[k].column, |request.columns|) && InRange(request)
    ensures KeyOf(request.order[k], request.columns)
         == Key(OrderColumn(request, k), request.order[k].desc, false)
  {
    FromTheEnd(request.order[k].column, |request.columns|);
  }

  lemma {:induction false} SoughtIsVisible(row: Row, column: Column, desc: bool, shown: Shown)
    requires column in row
    ensures Sought(row, Key(column, desc, false), shown) == Visible(row, column, shown)
  {
  }

  lemma {:induction false} SortableColumn(found: seq<Row>, column: Column, desc: bool, shown: Shown)
    ensures Sortable(found, Key(column, desc, false), shown) <==> ColumnSorts(found, column, shown)
  {
    forall row | row in found && column in row
      ensures Sought(row, Key(column, desc, false), shown) == Visible(row, column, shown)
    {
      SoughtIsVisible(row, column, desc, shown);
    }
  }

  lemma {:induction false} KeyFrom(order: seq<Order>, columns: seq<ColumnInfo>, defaultSort: Column, key: Key)
    requires forall o | o in order :: Within(o.column, |columns|)
    requires key in Keys(order, columns, defaultSort)
    ensures key == Key(defaultSort, false, true)
         || exists k | 0 <= k < |order| :: key == KeyOf(order[k], columns)
  {
    if order != [] && key != KeyOf(order[0], columns) {
      KeyFrom(order[1..], columns, defaultSort, key);
      if k :| 0 <= k < |order[1..]| && key == KeyOf(order[1..][k], columns) {
        assert order[k + 1] == order[1..][k];
      }
    }
  }

  lemma {:induction false} RangeIsWithin(request: Request)
    ensures InRange(request) <==> forall o | o in request.order :: Within(o.column, |request.columns|)
  {
    if InRange(request) {
      forall o | o in request.order ensures Within(o.column, |request.columns|) {
        var k :| 0 <= k < |request.order| && request.order[k] == o;
      }
    }
  }

  lemma {:induction false} DefaultSortable(found: seq<Row>, defaultSort: Column, shown: Shown)
    ensures Sortable(found, Key(defaultSort, false, true), shown)
       <==> forall row: Row | row in found :: defaultSort in row && row[defaultSort].Str?
  {
  }

  lemma {:induction false} OrderSorts(found: seq<Row>, request: Request, k: nat, defaultSort: Column, shown: Shown)
    requires InRange(request) && (forall o | o in request.order :: Within(o.column, |request.columns|))
    requires k < |request.order|
    ensures KeyOf(request.order[k], request.columns) in Keys(request.order, request.columns, defaultSort)
    ensures Sortable(found, KeyOf(request.order[k], request.columns), shown)
       <==> ColumnSorts(found, OrderColumn(request, k), shown)
  {
    KeyIn(request.order, k, request.columns, defaultSort);
    OrderKey(request, k);
    SortableColumn(found, OrderColumn(request, k), request.order[k].desc, shown);
  }

  lemma {:induction false} KeysSort(found: seq<Row>, request: Request, defaultSort: Column, shown: Shown)
    requires InRange(request) && (forall o | o in request.order :: Within(o.column, |request.columns|))
    requires Sortable(found, Key(defaultSort, false, true), shown)
    requires forall k | 0 <= k < |request.order| :: ColumnSorts(found, OrderColumn(request, k), shown)
    ensures forall key | key in Keys(request.order, request.columns, defaultSort) :: Sortable(found, key, shown)
  {
    forall key | key in Keys(request.order, request.columns, defaultSort) ensures Sortable(found, key, shown) {
      KeyFrom(request.order, request.columns, defaultSort, key);
      if key != Key(defaultSort, false, true) {
        var k :| 0 <= k < |request.order| && key == KeyOf(request.order[k], request.columns);
        OrderSorts(found, request, k, defaultSort, shown);
      }
    }
  }

  lemma {:induction false} ColumnsSort(found: seq<Row>, request: Request, defaultSort: Column, shown: Shown)
    requires InRange(request) && (forall o | o in request.order :: Within(o.column, |request.columns|))
    requires forall key | key in Keys(request.order, request.columns, defaultSort) :: Sortable(found, key, shown)
    ensures Sortable(found, Key(defaultSort, false, true), shown)
    ensures forall k | 0 <= k < |request.order| :: ColumnSorts(found, OrderColumn(request, k), shown)
  {
    DefaultKeyLast(request.order, request.columns, defaultSort);
    forall k | 0 <= k < |request.order| ensures ColumnSorts(found, OrderColumn(request, k), shown) {
      OrderSorts(found, request, k, defaultSort, shown);
    }
  }

  /** The request goes through exactly when every order names a column, every row found has text in the
      default column, and a cell in the column of every order, texts only or numbers only. */
  lemma {:induction false} AnswersExactly(rows: seq<Row>, request: Request, defaultSort: Column, more: set<Column>,
                                          shown: Shown)
    ensures var found := Found(rows, request, more, shown);
            Answer(rows, request, defaultSort, more, shown).Page?
            <==> && InRange(request)
                 && (forall row: Row | row in found :: defaultSort in row && row[defaultSort].Str?)
                 && (forall k | 0 <= k < |request.order| :: ColumnSorts(found, OrderColumn(request, k), shown))
  {
    var found := Found(rows, request, more, shown);
    RangeIsWithin(request);
    DefaultSortable(found, defaultSort, shown);
    if Succeeds(found, request, defaultSort, shown) {
      ColumnsSort(found, request, defaultSort, shown);
    } else if InRange(request) && Sortable(found, Key(defaultSort, false, true), shown)
              && forall k | 0 <= k < |request.order| :: ColumnSorts(found, OrderColumn(request, k), shown) {
      KeysSort(found, request, defaultSort, shown);
    }
  }

  /** The order of the sort keys is the order of the request. */
  lemma {:induction false} BeforeComes(request: Request, defaultSort: Column, shown: Shown, found: seq<Row>,
                                       a: Tagged, b: Tagged, k: nat)
    requires InRange(request) && (forall o | o in request.order :: Within(o.column, |request.columns|))
    requires |found| > 1 && a.row in found && b.row in found
    requires forall m | 0 <= m < |request.order| :: ColumnSorts(found, OrderColumn(request, m), shown)
    requires k <= |request.order| && HasColumns(request, defaultSort, a.row) && HasColumns(request, defaultSort, b.row)
    requires Tied(request, shown, a.row, b.row, k)
    requires Before(Keys(request.order[k..], request.columns, defaultSort), shown, a, b)
    ensures Comes(request, defaultSort, shown, a.row, b.row)
    ensures TiedByDefault(request, defaultSort, shown, a.row, b.row) ==> a.position < b.position
    decreases |request.order| - k
  {
    var rest := request.order[k..];
    if k == |request.order| {
      var key := Key(defaultSort, false, true);
      assert Keys(rest, request.columns, defaultSort) == [key];
      assert [key][1..] == [];
      TextTotal(Lower(a.row[defaultSort].s), Lower(b.row[defaultSort].s));
    } else {
      var o, column := request.order[k], OrderColumn(request, k);
      assert rest[0] == o && rest[1..] == request.order[k + 1..];
      OrderKey(request, k);
      SoughtIsVisible(a.row, column, o.desc, shown);
      SoughtIsVisible(b.row, column, o.desc, shown);
      var keys := Keys(rest, request.columns, defaultSort);
      assert keys == [KeyOf(o, request.columns)] + Keys(rest[1..], request.columns, defaultSort);
      assert keys[0] == KeyOf(o, request.columns) && keys[1..] == Keys(rest[1..], request.columns, defaultSort);
      assert ColumnSorts(found, column, shown);
      if Visible(a.row, column, shown) == Visible(b.row, column, shown) {
        BeforeComes(request, defaultSort, shown, found, a, b, k + 1);
      } else {
        assert Decided(request, shown, a.row, b.row, k);
      }
    }
  }

  lemma {:induction false} UntagAt(s: seq<Tagged>)
    ensures |Untag(s)| == |s| && forall i | 0 <= i < |s| :: Untag(s)[i] == s[i].row
  {
    if s != [] {
      UntagAt(s[1..]);
      forall i | 0 <= i < |s| ensures Untag(s)[i] == s[i].row {
        if i > 0 { assert Untag(s)[i] == Untag(s[1..])[i - 1]; }
      }
    }
  }

  /** A tagged row that is rearranged still tells its place. */
  lemma {:induction false} TagTells(found: seq<Row>, s: seq<Tagged>, i: nat)
    requires multiset(s) == multiset(Tag(found)) && i < |s|
    ensures s[i].position < |found| && s[i].row == found[s[i].position]
  {
    TagContents(found, 0);
    assert s[i] in multiset(Tag(found));
    var j :| 0 <= j < |Tag(found)| && Tag(found)[j] == s[i];
  }

  lemma {:induction false} SliceAt<T>(s: seq<T>, start: int, stop: int) returns (from: nat)
    ensures var r := Slice(s, start, stop);
            from + |r| <= |s| && r == s[from..from + |r|]
  {
    from := Clamp(start, |s|);
    if Clamp(stop, |s|) < from { from := 0; }
  }

  /** The same of rows with the places where they were found: rows that tie in everything come in the
      order of their places. */
  predicate ComesAt(request: Request, defaultSort: Column, shown: Shown, a: Row, i: nat, b: Row, j: nat) {
    Comes(request, defaultSort, shown, a, b) && (TiedByDefault(request, defaultSort, shown, a, b) ==> i < j)
  }

  /** `results` are rows found, at different places `at`, and every one may come before every later one. */
  ghost predicate Arranged(request: Request, defaultSort: Column, shown: Shown, found: seq<Row>, results: seq<Row>,
                           at: seq<nat>) {
    && |at| == |results|
    && (forall i | 0 <= i < |at| :: at[i] < |found| && results[i] == found[at[i]])
    && (forall i, j | 0 <= i < j < |at| :: at[i] != at[j])
    && (forall i, j | 0 <= i < j < |at| :: ComesAt(request, defaultSort, shown, results[i], at[i], results[j], at[j]))
  }

  lemma {:induction false} ArrangedPart(request: Request, defaultSort: Column, shown: Shown, found: seq<Row>,
                                        results: seq<Row>,
                     at: seq<nat>, from: nat, till: nat)
    requires Arranged(request, defaultSort, shown, found, results, at) && from <= till <= |results|
    ensures Arranged(request, defaultSort, shown, found, results[from..till], at[from..till])
  {
    var part, places := results[from..till], at[from..till];
    forall i | 0 <= i < |places| ensures part[i] == results[from + i] && places[i] == at[from + i] {
    }
    forall i, j | 0 <= i < j < |places|
      ensures ComesAt(request, defaultSort, shown, part[i], places[i], part[j], places[j])
    {
      assert ComesAt(request, defaultSort, shown, results[from + i], at[from + i], results[from + j], at[from + j]);
    }
  }

  lemma {:induction false} PairInOrder(found: seq<Row>, request: Request, defaultSort: Column, shown: Shown,
                                       s: seq<Tagged>, i: nat,
                    j: nat)
    requires InRange(request) && forall o | o in request.order :: Within(o.column, |request.columns|)
    requires forall row: Row | row in found :: defaultSort in row && row[defaultSort].Str?
    requires forall m | 0 <= m < |request.order| :: ColumnSorts(found, OrderColumn(request, m), shown)
    requires multiset(s) == multiset(Tag(found)) && |s| == |found|
    requires Chain(s, BeforeBy(Keys(request.order, request.columns, defaultSort), shown)) && i < j < |s|
    ensures s[i].position != s[j].position
    ensures ComesAt(request, defaultSort, shown, s[i].row, s[i].position, s[j].row, s[j].position)
  {
    var keys := Keys(request.order, request.columns, defaultSort);
    TagTells(found, s, i);
    TagTells(found, s, j);
    assert BeforeBy(keys, shown)(s[i], s[j]);
    BeforeIsStrict(keys, shown, s[i], s[j]);
    assert request.order[0..] == request.order;
    BeforeComes(request, defaultSort, shown, found, s[i], s[j], 0);
  }

  lemma {:induction false} TagsArranged(found: seq<Row>, request: Request, defaultSort: Column, shown: Shown,
                                        s: seq<Tagged>)
    returns (at: seq<nat>)
    requires InRange(request) && forall o | o in request.order :: Within(o.column, |request.columns|)
    requires forall row: Row | row in found :: defaultSort in row && row[defaultSort].Str?
    requires forall m | 0 <= m < |request.order| :: ColumnSorts(found, OrderColumn(request, m), shown)
    requires multiset(s) == multiset(Tag(found)) && |s| == |found|
    requires Chain(s, BeforeBy(Keys(request.order, request.columns, defaultSort), shown))
    ensures |at| == |found| && Arranged(request, defaultSort, shown, found, Untag(s), at)
  {
    UntagAt(s);
    at := seq(|s|, i requires 0 <= i < |s| => s[i].position);
    forall i | 0 <= i < |s| ensures at[i] < |found| && s[i].row == found[at[i]] {
      TagTells(found, s, i);
    }
    forall i, j | 0 <= i < j < |s|
      ensures at[i] != at[j] && ComesAt(request, defaultSort, shown, s[i].row, at[i], s[j].row, at[j])
    {
      PairInOrder(found, request, defaultSort, shown, s, i, j);
    }
  }

  /** So the sorted whole is arranged, and has every row found once. */
  lemma {:induction false} WholeInOrder(found: seq<Row>, request: Request, defaultSort: Column,
                                        shown: Shown) returns (at: seq<nat>)
    requires InRange(request) && forall o | o in request.order :: Within(o.column, |request.columns|)
    requires forall row: Row | row in found :: defaultSort in row && row[defaultSort].Str?
    requires forall m | 0 <= m < |request.order| :: ColumnSorts(found, OrderColumn(request, m), shown)
    ensures |at| == |found|
    ensures Arranged(request, defaultSort, shown, found,
                     SortedBy(found, Keys(request.order, request.columns, defaultSort), shown), at)
  {
    var keys := Keys(request.order, request.columns, defaultSort);
    var s := SortsLexicographically(found, keys, shown);
    UntagAt(s);
    SortedByContents(found, keys, shown);
    at := TagsArranged(found, request, defaultSort, shown, s);
  }

  lemma {:induction false} SliceArranged(request: Request, defaultSort: Column, shown: Shown, found: seq<Row>,
                                         whole: seq<Row>,
                      all: seq<nat>, start: int, stop: int)
    returns (at: seq<nat>)
    requires Arranged(request, defaultSort, shown, found, whole, all)
    ensures Arranged(request, defaultSort, shown, found, Slice(whole, start, stop), at)
  {
    var from := SliceAt(whole, start, stop);
    var till := from + |Slice(whole, start, stop)|;
    ArrangedPart(request, defaultSort, shown, found, whole, all, from, till);
    at := all[from..till];
  }

  /** And so is every page. */
  lemma {:induction false} AnswerInOrder(rows: seq<Row>, request: Request, defaultSort: Column, more: set<Column>,
                                         shown: Shown)
    returns (at: seq<nat>)
    ensures var answer := Answer(rows, request, defaultSort, more, shown);
            answer.Page? ==> Arranged(request, defaultSort, shown, Found(rows, request, more, shown), answer.results, at)
  {
    at := [];
    if Answer(rows, request, defaultSort, more, shown).Page? {
      RangeIsWithin(request);
      AnswersExactly(rows, request, defaultSort, more, shown);
      var found := Found(rows, request, more, shown);
      var all := WholeInOrder(found, request, defaultSort, shown);
      at := SliceArranged(request, defaultSort, shown, found, Whole(rows, request, defaultSort, more, shown), all,
                          request.start, request.start + request.length);
    }
  }

  // ----- what is found, and which of it is on a page -----

  /** The text a row shows in a column, in lower case. */
  function ShownText(row: Row, column: Column, shown: Shown): string
    requires column in row
  {
    Lower(CellText(if column in shown && row[column] in shown[column] then shown[column][row[column]] else row[column]))
  }

  ghost predicate HasPart(text: string, part: string) {
    exists before, after :: text == before + part + after
  }

  /** Some column that is searched shows the text sought. */
  ghost predicate Shows(row: Row, request: Request, more: set<Column>, shown: Shown) {
    exists column | column in row ::
      && (column in more || exists c | c in request.columns :: c.searchable && c.data == column)
      && HasPart(ShownText(row, column, shown), Lower(request.search))
  }

  lemma {:induction false} LowerLength(s: string)
    ensures |Lower(s)| == |s|
  {
    if s != [] { LowerLength(s[1..]); }
  }

  lemma {:induction false} ContainsPart(text: string, part: string)
    ensures Contains(text, part) <==> HasPart(text, part)
  {
    if i :| 0 <= i <= |text| && part <= text[i..] {
      assert text == text[..i] + part + text[i..][|part|..];
    }
    if before, after :| text == before + part + after {
      assert text[|before|..] == part + after;
    }
  }

  lemma {:induction false} MatchesShows(row: Row, request: Request, more: set<Column>, shown: Shown)
    ensures Matches(row, Lower(request.search), Searched(request.columns, more), shown)
       <==> Shows(row, request, more, shown)
  {
    forall column | column in row
      ensures CellMatches(row, column, Lower(request.search), Searched(request.columns, more), shown)
         <==> (column in more || exists c | c in request.columns :: c.searchable && c.data == column)
              && HasPart(ShownText(row, column, shown), Lower(request.search))
    {
      ContainsPart(ShownText(row, column, shown), Lower(request.search));
    }
  }

  /** The rows that are found are those that show the text sought, each once and in their order; the
      counts are theirs and that of all rows. */
  lemma {:induction false} AnswerFinds(rows: seq<Row>, request: Request, defaultSort: Column, more: set<Column>,
                                       shown: Shown)
    returns (at: seq<nat>)
    ensures var found := Found(rows, request, more, shown);
            && |found| == |at| && (forall i | 0 <= i < |at| :: at[i] < |rows| && found[i] == rows[at[i]])
            && (forall i, j | 0 <= i < j < |at| :: at[i] < at[j])
    ensures forall p: nat | p < |rows| :: p in at <==> request.search == [] || Shows(rows[p], request, more, shown)
    ensures var answer := Answer(rows, request, defaultSort, more, shown);
            answer.Page? ==> answer.totalCount == |rows| && answer.filteredCount == |at|
  {
    LowerLength(request.search);
    var value, searched := Lower(request.search), Searched(request.columns, more);
    FoundExactly(rows, value, searched, shown);
    at := Positions(rows, value, searched, shown);
    forall p: nat | p < |rows| ensures p in at <==> request.search == [] || Shows(rows[p], request, more, shown) {
      MatchesShows(rows[p], request, more, shown);
    }
  }

  /** The part of `s` from `start` on that is `length` long, as far as there is so much. */
  function Stretch<T>(s: seq<T>, start: nat, length: nat): seq<T> {
    if start >= |s| then [] else if start + length >= |s| then s[start..] else s[start..start + length]
  }

  lemma {:induction false} SliceIsStretch<T>(s: seq<T>, start: nat, length: nat)
    ensures Slice(s, start, start + length) == Stretch(s, start, length)
    ensures length >= |s| ==> Slice(s, 0, length) == s
  {
  }

  function AllOf(rows: seq<Row>, request: Request): Request {
    request.(start := 0, length := |rows|)
  }

  lemma {:induction false} SameButThePage(rows: seq<Row>, request: Request, defaultSort: Column, more: set<Column>,
                                          shown: Shown)
    ensures var a, b := Answer(rows, request, defaultSort, more, shown),
                        Answer(rows, AllOf(rows, request), defaultSort, more, shown);
            a.Page? == b.Page? && (a.Page? ==> a.filteredCount == b.filteredCount)
  {
    assert Found(rows, AllOf(rows, request), more, shown) == Found(rows, request, more, shown);
  }

  lemma {:induction false} WholeLength(rows: seq<Row>, request: Request, defaultSort: Column, more: set<Column>,
                                       shown: Shown)
    requires forall o | o in request.order :: Within(o.column, |request.columns|)
    ensures |Whole(rows, request, defaultSort, more, shown)| == |Found(rows, request, more, shown)| <= |rows|
  {
    var found := Found(rows, request, more, shown);
    SortedByContents(found, Keys(request.order, request.columns, defaultSort), shown);
    NotMore(rows, Lower(request.search), Searched(request.columns, more), shown);
  }

  lemma {:induction false} AllResults(rows: seq<Row>, request: Request, defaultSort: Column, more: set<Column>,
                                      shown: Shown)
    requires Answer(rows, AllOf(rows, request), defaultSort, more, shown).Page?
    ensures forall o | o in request.order :: Within(o.column, |request.columns|)
    ensures var all := Answer(rows, AllOf(rows, request), defaultSort, more, shown);
            all.results == Whole(rows, request, defaultSort, more, shown) && |all.results| == all.filteredCount
  {
    WholeLength(rows, request, defaultSort, more, shown);
    SliceIsStretch(Whole(rows, request, defaultSort, more, shown), 0, |rows|);
  }

  /** A page is the stretch of all results from its start on that is as long as asked for. */
  lemma {:induction false} AnswerIsStretch(rows: seq<Row>, request: Request, defaultSort: Column, more: set<Column>,
                                           shown: Shown)
    requires request.start >= 0 && request.length >= 0
    ensures var all := request.(start := 0, length := |rows|);
            var page := Answer(rows, request, defaultSort, more, shown);
            var whole := Answer(rows, all, defaultSort, more, shown);
            && page.Page? == whole.Page?
            && (page.Page? ==>
                  && |whole.results| == whole.filteredCount == page.filteredCount
                  && page.results == Stretch(whole.results, request.start, request.length))
  {
    SameButThePage(rows, request, defaultSort, more, shown);
    if Answer(rows, AllOf(rows, request), defaultSort, more, shown).Page? {
      AllResults(rows, request, defaultSort, more, shown);
      SliceIsStretch(Whole(rows, request, defaultSort, more, shown), request.start, request.length);
    }
  }

  lemma {:induction false} NotMore(rows: seq<Row>, value: string, searched: set<Column>, shown: Shown)
    ensures |Filtered(rows, value, searched, shown)| <= |rows|
  {
    if rows != [] { NotMore(rows[..|rows| - 1], value, searched, shown); }
  }
}

/** Which cells meet in a row of a flattened object, and in which order the rows come. */
module FlattenOrder {
  import opened Options
  import opened Paths
  import opened FlattenRows

  /** A row, and nothing behind the last one. */
  function RowAt(rows: seq<Row>, n: nat): Row {
    if n < |rows| then rows[n] else map[]
  }

  /** What a field puts into row `n` of its dictionary: a list its own row `n`, a value or a dictionary its
      only row into the first. */
  function FieldRow(f: Field, p: Path, n: nat): Row {
    match f.value
    case Leaf(v) => if n == 0 then map[Down(p, f.key) := v] else map[]
    case List(items) =>
      var rows := FlattenItems(items, |items|, Down(p, f.key));
      if rows.Some? then RowAt(rows.value, n) else map[]
    case Dict(inner) =>
      var rows := FlattenFields(inner, Down(p, f.key));
      if rows.Some? && n == 0 then RowAt(rows.value, 0) else map[]
  }

  // ----- rows that meet -----

  /** Row `n` of each list, later ones on top. */
  function Meet(all: seq<seq<Row>>, n: nat): Row {
    if all == [] then map[] else Meet(all[..|all| - 1], n) + RowAt(all[|all| - 1], n)
  }

  lemma {:induction false} ZipAt(a: seq<Row>, b: seq<Row>, n: nat)
    ensures RowAt(Zip(a, b), n) == RowAt(a, n) + RowAt(b, n)
  {
    if a != [] && b != [] && n > 0 {
      ZipAt(a[1..], b[1..], n - 1);
      assert RowAt(Zip(a, b), n) == RowAt(Zip(a[1..], b[1..]), n - 1);
    }
  }

  lemma {:induction false} ZipLongestAt(all: seq<seq<Row>>, n: nat)
    ensures RowAt(ZipLongest(all), n) == Meet(all, n)
  {
    if all != [] {
      ZipLongestAt(all[..|all| - 1], n);
      ZipAt(ZipLongest(all[..|all| - 1]), all[|all| - 1], n);
    }
  }

  lemma {:induction false} MeetKeys(all: seq<seq<Row>>, n: nat)
    ensures Meet(all, n).Keys <= AllKeys(all)
  {
    if all != [] {
      MeetKeys(all[..|all| - 1], n);
      RowAtKeys(all[|all| - 1], n);
    }
  }

  lemma {:induction false} RowAtKeys(rows: seq<Row>, n: nat)
    ensures RowAt(rows, n).Keys <= RowKeys(rows)
  {
    if rows != [] && n > 0 {
      RowAtKeys(rows[1..], n - 1);
      assert RowAt(rows, n) == RowAt(rows[1..], n - 1);
    }
  }

  lemma {:induction false} Swap(a: Row, b: Row, c: Row)
    requires b.Keys !! c.Keys
    ensures a + b + c == a + c + b
  {
  }

  /** A common row goes into the first of the rows that meet. */
  lemma {:induction false} MeetCommon(all: seq<seq<Row>>, row: Row, n: nat)
    requires |all| > 0 && |all[0]| == 1 && row.Keys !! AllKeys(all)
    ensures Meet(Common(all, row), n) == if n == 0 then Meet(all, n) + row else Meet(all, n)
  {
    if |all| == 1 {
      MeetOne(all[0], n);
      MeetOne([all[0][0] + row], n);
      assert all == [all[0]] && Common(all, row) == [[all[0][0] + row]];
    } else {
      var front, last := all[..|all| - 1], all[|all| - 1];
      MeetCommon(front, row, n);
      CommonLast(all, row);
      RowAtKeys(last, n);
      Swap(Meet(front, n), row, RowAt(last, n));
    }
  }

  lemma {:induction false} MeetOne(rows: seq<Row>, n: nat)
    ensures Meet([rows], n) == RowAt(rows, n)
  {
    assert [rows][..0] == [];
  }

  lemma {:induction false} MeetMore(all: seq<seq<Row>>, rows: seq<Row>, n: nat)
    ensures Meet(all + [rows], n) == Meet(all, n) + RowAt(rows, n)
  {
    assert (all + [rows])[..|all|] == all;
  }

  // ----- the fields of a dictionary -----

  /** What the first `k` fields put into row `n`. */
  function Together(fields: seq<Field>, k: nat, p: Path, n: nat): Row
    requires k <= |fields|
  {
    if k == 0 then map[] else Together(fields, k - 1, p, n) + FieldRow(fields[k - 1], p, n)
  }

  lemma {:induction false} PartsMeet(fields: seq<Field>, k: nat, p: Path, n: nat)
    requires k <= |fields| && FieldsDiffer(fields, k) && Parts(fields, k, p).Some?
    ensures Meet(Parts(fields, k, p).value, n) == Together(fields, k, p, n)
  {
    if k == 0 {
      MeetOne([map[]], n);
    } else {
      var all := Parts(fields, k - 1, p).value;
      PartsMeet(fields, k - 1, p, n);
      PartsHold(fields, k - 1, p);
      OneField(fields, k);
      FieldMeets(all, fields[k - 1], p, n, KeySet(fields, k - 1));
    }
  }

  lemma {:induction false} FieldMeets(all: seq<seq<Row>>, f: Field, p: Path, n: nat, keys: set<Key>)
    requires |all| > 0 && |all[0]| == 1 && StepIn(AllKeys(all), p, keys) && f.key !in keys
    requires AddField(all, f, p).Some? && FieldsDiffer([f], 1)
    ensures Meet(AddField(all, f, p).value, n) == Meet(all, n) + FieldRow(f, p, n)
  {
    match f.value
    case Leaf(v) =>
      CommonMeets(all, map[Down(p, f.key) := v], f, p, n, keys);
    case List(items) =>
      MeetMore(all, FlattenItems(items, |items|, Down(p, f.key)).value, n);
    case Dict(inner) =>
      var rows := FlattenFields(inner, Down(p, f.key)).value;
      FieldsHold(inner, Down(p, f.key));
      RowAtKeys(rows, 0);
      CommonMeets(all, rows[0], f, p, n, keys);
  }

  lemma {:induction false} CommonMeets(all: seq<seq<Row>>, row: Row, f: Field, p: Path, n: nat, keys: set<Key>)
    requires |all| > 0 && |all[0]| == 1 && StepIn(AllKeys(all), p, keys) && f.key !in keys
    requires AllExtend(row.Keys, Down(p, f.key))
    ensures Meet(Common(all, row), n) == if n == 0 then Meet(all, n) + row else Meet(all, n)
  {
    ChildSteps(row.Keys, p, f.key);
    StepsApart(AllKeys(all), row.Keys, p, keys, f.key);
    MeetCommon(all, row, n);
  }

  lemma {:induction false} OneField(fields: seq<Field>, k: nat)
    requires 0 < k <= |fields| && FieldsDiffer(fields, k)
    ensures FieldsDiffer([fields[k - 1]], 1)
  {
    assert KeySet([fields[k - 1]], 0) == {};
  }

  lemma {:induction false} FieldRowExtends(f: Field, p: Path, n: nat)
    requires FieldsDiffer([f], 1)
    ensures AllExtend(FieldRow(f, p, n).Keys, Down(p, f.key))
  {
    match f.value
    case Leaf(_) =>
    case List(items) =>
      var rows := FlattenItems(items, |items|, Down(p, f.key));
      if rows.Some? {
        ItemsHold(items, |items|, Down(p, f.key));
        RowAtKeys(rows.value, n);
      }
    case Dict(inner) =>
      var rows := FlattenFields(inner, Down(p, f.key));
      if rows.Some? {
        FieldsHold(inner, Down(p, f.key));
        RowAtKeys(rows.value, 0);
      }
  }

  lemma {:induction false} FieldsDifferBefore(fields: seq<Field>, k: nat, j: nat)
    requires j < k <= |fields| && FieldsDiffer(fields, k)
    ensures FieldsDiffer(fields, j + 1) && fields[j].key in KeySet(fields, k)
    ensures j < k - 1 ==> fields[j].key != fields[k - 1].key
  {
    if j < k - 1 { FieldsDifferBefore(fields, k - 1, j); }
  }

  lemma {:induction false} PathsApart(q: Path, p: Path, a: Key, b: Key)
    requires Extends(q, Down(p, a)) && Extends(q, Down(p, b))
    ensures a == b
  {
    StepBelowIs(q, p, a);
    StepBelowIs(q, p, b);
  }

  /** Under the path of a field the fields put what this field puts. */
  lemma {:induction false} TogetherUnder(fields: seq<Field>, k: nat, p: Path, n: nat, j: nat, q: Path)
    requires j < k <= |fields| && FieldsDiffer(fields, k) && Extends(q, Down(p, fields[j].key))
    ensures q in Together(fields, k, p, n) <==> q in FieldRow(fields[j], p, n)
    ensures q in FieldRow(fields[j], p, n) ==> Together(fields, k, p, n)[q] == FieldRow(fields[j], p, n)[q]
    decreases k
  {
    OneField(fields, k);
    FieldRowExtends(fields[k - 1], p, n);
    if j == k - 1 {
      NotUnder(fields, k - 1, p, n, q, fields[j].key);
    } else {
      FieldsDifferBefore(fields, k, j);
      TogetherUnder(fields, k - 1, p, n, j, q);
      if q in FieldRow(fields[k - 1], p, n) { PathsApart(q, p, fields[j].key, fields[k - 1].key); }
    }
  }

  lemma {:induction false} NotUnder(fields: seq<Field>, k: nat, p: Path, n: nat, q: Path, key: Key)
    requires k <= |fields| && FieldsDiffer(fields, k) && Extends(q, Down(p, key)) && key !in KeySet(fields, k)
    ensures q !in Together(fields, k, p, n)
  {
    if k > 0 {
      NotUnder(fields, k - 1, p, n, q, key);
      OneField(fields, k);
      FieldRowExtends(fields[k - 1], p, n);
      if q in FieldRow(fields[k - 1], p, n) { PathsApart(q, p, key, fields[k - 1].key); }
    }
  }

  lemma {:induction false} UnderSome(fields: seq<Field>, k: nat, p: Path, n: nat, q: Path)
    requires k <= |fields| && FieldsDiffer(fields, k) && q in Together(fields, k, p, n)
    ensures exists j | 0 <= j < k :: Extends(q, Down(p, fields[j].key))
  {
    OneField(fields, k);
    FieldRowExtends(fields[k - 1], p, n);
    if q !in FieldRow(fields[k - 1], p, n) { UnderSome(fields, k - 1, p, n, q); }
  }

  lemma {:induction false} RowIsTogether(fields: seq<Field>, p: Path, n: nat)
    requires FieldsDiffer(fields, |fields|) && FlattenFields(fields, p).Some?
    ensures RowAt(FlattenFields(fields, p).value, n) == Together(fields, |fields|, p, n)
  {
    PartsMeet(fields, |fields|, p, n);
    ZipLongestAt(Parts(fields, |fields|, p).value, n);
  }

  /** Row `n` of a dictionary holds under the path of each field exactly row `n` of the field, and nothing
      under any other path. */
  lemma {:induction false} DictionaryRow(fields: seq<Field>, p: Path, n: nat, q: Path)
    requires FieldsDiffer(fields, |fields|) && FlattenFields(fields, p).Some?
    requires n < |FlattenFields(fields, p).value|
    ensures var row := FlattenFields(fields, p).value[n];
            && (q in row ==> exists j | 0 <= j < |fields| :: Extends(q, Down(p, fields[j].key)))
            && (forall j | 0 <= j < |fields| && Extends(q, Down(p, fields[j].key)) ::
                  var own := FieldRow(fields[j], p, n);
                  (q in row <==> q in own) && (q in own ==> row[q] == own[q]))
  {
    RowIsTogether(fields, p, n);
    var row := FlattenFields(fields, p).value[n];
    if q in row { UnderSome(fields, |fields|, p, n, q); }
    forall j | 0 <= j < |fields| && Extends(q, Down(p, fields[j].key))
      ensures var own := FieldRow(fields[j], p, n); (q in row <==> q in own) && (q in own ==> row[q] == own[q])
    {
      TogetherUnder(fields, |fields|, p, n, j, q);
    }
  }

  // ----- the elements of a list -----

  /** The rows of one element of a list. */
  function ElementRows(item: Item, p: Path): Option<seq<Row>> {
    match item
    case Scalar(v) => Some([map[p := v]])
    case Record(fields) => FlattenFields(fields, p)
  }

  lemma {:induction false} RowsBefore(items: seq<Item>, k: nat, p: Path)
    requires k <= |items| && FlattenItems(items, |items|, p).Some?
    ensures FlattenItems(items, k, p).Some? && FlattenItems(items, k, p).value <= FlattenItems(items, |items|, p).value
    decreases |items| - k
  {
    if k < |items| {
      RowsBefore(items, k + 1, p);
      var next := FlattenItems(items, k + 1, p);
      assert next.Some? && FlattenItems(items, k, p).Some?;
    }
  }

  /** The rows of a list are those of its elements one after the other: the rows of element `k` stand
      behind as many as the elements before it have. */
  lemma {:induction false} ListRows(items: seq<Item>, p: Path, k: nat)
    requires k < |items| && FlattenItems(items, |items|, p).Some?
    ensures var rows := FlattenItems(items, |items|, p).value;
            && ElementRows(items[k], p).Some? && ItemRows(items, k) <= ItemRows(items, k + 1) <= |rows|
            && rows[ItemRows(items, k)..ItemRows(items, k + 1)] == ElementRows(items[k], p).value
    ensures |FlattenItems(items, |items|, p).value| == ItemRows(items, |items|)
  {
    RowsBefore(items, k, p);
    RowsBefore(items, k + 1, p);
    ItemsCount(items, k, p);
    ItemsCount(items, k + 1, p);
    ItemsCount(items, |items|, p);
    var rows := FlattenItems(items, |items|, p).value;
    var before, next := FlattenItems(items, k, p).value, FlattenItems(items, k + 1, p).value;
    assert next == before + ElementRows(items[k], p).value;
    assert rows[..|next|] == next;
  }
}

/** Merging another database into the history tables: the imported rows are moved behind the existing
    ids, put in, and duplicates are deleted afterwards. */
module MergeImport {

  type Id = int

  /** The three tables that share their ids. */
  datatype Name = History | MediaInfo | Metadata

  /** A column besides the id and the reference. */
  datatype Column = Column(position: nat)

  datatype Value = Null | Number(n: int)

  /** A row without its id; only the history table uses the reference. */
  datatype Row = Row(reference: int, cells: map<Column, Value>)

  type Table = map<Id, Row>

  datatype Three<T> = Three(history: T, mediaInfo: T, metadata: T)
  {
    function At(name: Name): T {
      match name
      case History => history
      case MediaInfo => mediaInfo
      case Metadata => metadata
    }

    function With(name: Name, t: T): (r: Three<T>)
      ensures forall other :: r.At(other) == if other == name then t else At(other)
    {
      match name
      case History => Three(t, mediaInfo, metadata)
      case MediaInfo => Three(history, t, metadata)
      case Metadata => Three(history, mediaInfo, t)
    }
  }

  // ----- the statements -----

  function Shifted(ids: set<Id>, offset: nat): set<Id> {
    set a | a in ids :: a + offset
  }

  lemma {:induction false} ShiftedAt(ids: set<Id>, offset: nat, id: Id)
    ensures id in Shifted(ids, offset) <==> id - offset in ids
  {
    if id - offset in ids {
      var a := id - offset;
      assert a in ids && a + offset == id;
    }
  }

  function Moved(t: Table, offset: nat, references: bool, id: Id): Row
    requires id in Shifted(t.Keys, offset)
  {
    var r := t[id - offset];
    Row(if references then r.reference + offset else r.reference, r.cells)
  }

  /** `CREATE TABLE ..._copy`, `UPDATE ... SET id = id + ?`, and the same for the reference. */
  function Shift(t: Table, offset: nat, references: bool): Table {
    map id | id in Shifted(t.Keys, offset) :: Moved(t, offset, references, id)
  }

  /** The cells of an imported row in a table with these columns. */
  function Fill(r: Row, current: set<Column>, shared: set<Column>): Row {
    Row(r.reference, map c | c in current :: if c in shared && c in r.cells then r.cells[c] else Null)
  }

  /** `INSERT OR IGNORE INTO ... SELECT` */
  function InsertOrIgnore(t: Table, copy: Table, current: set<Column>, shared: set<Column>): Table {
    (map id | id in copy :: Fill(copy[id], current, shared)) + t
  }

  /** What the rows are grouped by. */
  function Content(r: Row, shared: set<Column>): map<Column, Value> {
    map c | c in shared :: if c in r.cells then r.cells[c] else Null
  }

  /** The smallest id of its group. */
  predicate IsFirst(t: Table, id: Id, shared: set<Column>)
    requires id in t
  {
    forall other {:trigger Content(t[other], shared)} |
      other in t && Content(t[other], shared) == Content(t[id], shared) :: id <= other
  }

  /** `DELETE ... WHERE id NOT IN (SELECT MIN(id) ... GROUP BY ...)` */
  function WithoutDuplicates(t: Table, shared: set<Column>): Table {
    map id | id in t && IsFirst(t, id, shared) :: t[id]
  }

  /** `DELETE ... WHERE id NOT IN (SELECT id FROM session_history)` */
  function OnlyIds(t: Table, history: Table): Table {
    map id | id in t && id in history :: t[id]
  }

  // ----- the import -----

  /** The two databases: their tables, the columns of each, and the ids the first one has used. */
  datatype Import = Import(main: Three<Table>, other: Three<Table>, current: Three<set<Column>>,
                           imported: Three<set<Column>>, offset: nat)
  {
    function Shared(name: Name): set<Column> {
      current.At(name) * imported.At(name)
    }

    function Copy(name: Name): Table {
      Shift(other.At(name), offset, name == History)
    }

    /** A table after the rows of the other database are in. */
    function Together(name: Name): Table {
      InsertOrIgnore(main.At(name), Copy(name), current.At(name), Shared(name))
    }

    /** The tables after the rows of the first `n` copies are in. */
    ghost function Inserted(n: nat): Three<Table> {
      Three(if n > 0 then Together(History) else main.history,
            if n > 1 then Together(MediaInfo) else main.mediaInfo,
            if n > 2 then Together(Metadata) else main.metadata)
    }

    /** A table after the duplicates are out. */
    function Merged(name: Name): Table {
      var history := WithoutDuplicates(Together(History), Shared(History));
      if name == History then history else OnlyIds(Together(name), history)
    }
  }

  /** The order of the source's tuple of names. */
  function CopyOrder(n: nat): Name
    requires n < 3
  {
    if n == 0 then History else if n == 1 then Metadata else MediaInfo
  }

  /** Alphabetical order. */
  function NameOrder(n: nat): Name
    requires n < 3
  {
    if n == 0 then History else if n == 1 then MediaInfo else Metadata
  }

  lemma {:induction false} InsertedNext(i: Import, n: nat)
    requires n < 3
    ensures i.Inserted(n).At(NameOrder(n)) == i.main.At(NameOrder(n))
    ensures i.Inserted(n + 1) == i.Inserted(n).With(NameOrder(n), i.Together(NameOrder(n)))
  {
  }

  lemma {:induction false} InsertedAll(i: Import)
    ensures forall name :: i.Inserted(3).At(name) == i.Together(name)
  {
  }

  class Database {
    var tables: Three<Table>
    var sequence: nat
    const columns: Three<set<Column>>

    constructor (tables: Three<Table>, sequence: nat, columns: Three<set<Column>>)
      ensures this.tables == tables && this.sequence == sequence && this.columns == columns
    {
      this.tables, this.sequence, this.columns := tables, sequence, columns;
    }

    /** The temporary copies with their ids moved behind the existing ones. */
    method Copies(i: Import) returns (copies: Three<Table>)
      requires i.offset == sequence
      ensures forall name :: copies.At(name) == i.Copy(name)
    {
      copies := i.other;
      for n := 0 to 3
        invariant forall k | 0 <= k < 3 ::
                    copies.At(CopyOrder(k)) == if k < n then i.Copy(CopyOrder(k)) else i.other.At(CopyOrder(k))
      {
        var name := CopyOrder(n);
        copies := copies.With(name, Shift(copies.At(name), sequence, name == History));
      }
      assert copies.At(CopyOrder(0)) == i.Copy(History);
      assert copies.At(CopyOrder(1)) == i.Copy(Metadata);
      assert copies.At(CopyOrder(2)) == i.Copy(MediaInfo);
    }

    /** Takes the rows of every copy whose id is free. */
    method InsertCopies(i: Import, copies: Three<Table>)
      requires i.main == tables && i.current == columns
      requires forall name :: copies.At(name) == i.Copy(name)
      modifies this`tables
      ensures forall name :: tables.At(name) == i.Together(name)
    {
      for n := 0 to 3
        invariant tables == i.Inserted(n)
      {
        var name := NameOrder(n);
        tables := tables.With(name, InsertOrIgnore(tables.At(name), copies.At(name), columns.At(name),
                                                   columns.At(name) * i.imported.At(name)));
        InsertedNext(i, n);
      }
      InsertedAll(i);
    }

    /** The history is cleared of duplicates first; the other two follow its ids. */
    method RemoveDuplicates(i: Import)
      requires i.current == columns
      requires forall name :: tables.At(name) == i.Together(name)
      modifies this`tables
      ensures forall name :: tables.At(name) == i.Merged(name)
    {
      for n := 0 to 3
        invariant forall k | 0 <= k < 3 ::
                    tables.At(NameOrder(k)) == if k < n then i.Merged(NameOrder(k)) else i.Together(NameOrder(k))
      {
        var name := NameOrder(n);
        if name == CopyOrder(1) || name == CopyOrder(2) {
          assert tables.At(NameOrder(0)) == i.Merged(History);
          tables := tables.With(name, OnlyIds(tables.At(name), tables.history));
        } else {
          tables := tables.With(name, WithoutDuplicates(tables.At(name), columns.At(name) * i.imported.At(name)));
        }
      }
      assert tables.At(NameOrder(0)) == i.Merged(History);
      assert tables.At(NameOrder(1)) == i.Merged(MediaInfo);
      assert tables.At(NameOrder(2)) == i.Merged(Metadata);
    }

    /** The merge path of the import for the three tables. */
    method Merge(other: Three<Table>, imported: Three<set<Column>>)
      modifies this`tables
      ensures forall name ::
                tables.At(name) == Import(old(tables), other, columns, imported, sequence).Merged(name)
    {
      var i := Import(tables, other, columns, imported, sequence);
      var copies := Copies(i);
      InsertCopies(i, copies);
      RemoveDuplicates(i);
    }
  }

  // ----- what the merged history holds -----

  /** Existing ids are 1 to the offset, imported ids start at 1. */
  ghost predicate Numbered(i: Import) {
    && (forall id | id in i.main.history :: 1 <= id <= i.offset)
    && (forall id | id in i.other.history :: 1 <= id)
  }

  /** An imported row as it arrives. */
  function Arrived(i: Import, id: Id): Row
    requires id - i.offset in i.other.history
  {
    var r := i.other.history[id - i.offset];
    Fill(Row(r.reference + i.offset, r.cells), i.current.history, i.Shared(History))
  }

  lemma {:induction false} InsertOrIgnoreAt(t: Table, copy: Table, current: set<Column>, shared: set<Column>, id: Id)
    ensures var r := InsertOrIgnore(t, copy, current, shared);
            && (id in r <==> id in t || id in copy)
            && (id in t ==> r[id] == t[id])
            && (id !in t && id in copy ==> r[id] == Fill(copy[id], current, shared))
  {
  }

  lemma {:induction false} ShiftAt(t: Table, offset: nat, id: Id)
    ensures var r := Shift(t, offset, true);
            && (id in r <==> id - offset in t)
            && (id in r ==> r[id] == Row(t[id - offset].reference + offset, t[id - offset].cells))
  {
    ShiftedAt(t.Keys, offset, id);
  }

  lemma {:induction false} TogetherAt(i: Import, id: Id)
    ensures id in i.Together(History) <==> id in i.main.history || id - i.offset in i.other.history
    ensures id in i.main.history ==> i.Together(History)[id] == i.main.history[id]
    ensures id !in i.main.history && id - i.offset in i.other.history ==> i.Together(History)[id] == Arrived(i, id)
  {
    ShiftAt(i.other.history, i.offset, id);
    InsertOrIgnoreAt(i.main.history, i.Copy(History), i.current.history, i.Shared(History), id);
  }

  lemma {:induction false} FilledContent(r: Row, current: set<Column>, shared: set<Column>)
    requires shared <= current
    ensures Content(Fill(r, current, shared), shared) == Content(r, shared)
  {
  }

  lemma {:induction false} ArrivedContent(i: Import, id: Id)
    requires id - i.offset in i.other.history
    ensures Content(Arrived(i, id), i.Shared(History)) == Content(i.other.history[id - i.offset], i.Shared(History))
  {
    var r := i.other.history[id - i.offset];
    FilledContent(Row(r.reference + i.offset, r.cells), i.current.history, i.Shared(History));
  }

  /** Every group has a smallest id. */
  lemma {:induction false} FirstOfGroup(t: Table, id: Id, shared: set<Column>) returns (first: Id)
    requires id in t && forall x | x in t :: x >= 1
    ensures first in t && first <= id && Content(t[first], shared) == Content(t[id], shared)
    ensures IsFirst(t, first, shared)
    decreases id
  {
    if other :| other in t && Content(t[other], shared) == Content(t[id], shared) && other < id {
      first := FirstOfGroup(t, other, shared);
    } else {
      first := id;
    }
  }

  ghost predicate Occurs(t: Table, content: map<Column, Value>, shared: set<Column>) {
    exists id {:trigger Content(t[id], shared)} :: id in t && Content(t[id], shared) == content
  }

  lemma {:induction false} Survives(i: Import, id: Id)
    requires Numbered(i) && id in i.Together(History)
    ensures Occurs(i.Merged(History), Content(i.Together(History)[id], i.Shared(History)), i.Shared(History))
  {
    var t := i.Together(History);
    forall x | x in t ensures x >= 1 { TogetherAt(i, x); }
    var first := FirstOfGroup(t, id, i.Shared(History));
    assert first in i.Merged(History);
  }

  /** The merged history has the contents of both histories, and no others. */
  lemma {:induction false} EveryContent(i: Import, content: map<Column, Value>)
    requires Numbered(i)
    ensures var shared := i.Shared(History);
            Occurs(i.Merged(History), content, shared)
            <==> Occurs(i.main.history, content, shared) || Occurs(i.other.history, content, shared)
  {
    var shared := i.Shared(History);
    if Occurs(i.main.history, content, shared) {
      var id :| id in i.main.history && Content(i.main.history[id], shared) == content;
      TogetherAt(i, id);
      Survives(i, id);
    }
    if Occurs(i.other.history, content, shared) {
      var a :| a in i.other.history && Content(i.other.history[a], shared) == content;
      var id := a + i.offset;
      TogetherAt(i, id);
      ArrivedContent(i, id);
      assert id !in i.main.history;
      Survives(i, id);
    }
    if Occurs(i.Merged(History), content, shared) {
      ComesFrom(i, content);
    }
  }

  lemma {:induction false} ComesFrom(i: Import, content: map<Column, Value>)
    requires Occurs(i.Merged(History), content, i.Shared(History))
    ensures Occurs(i.main.history, content, i.Shared(History)) || Occurs(i.other.history, content, i.Shared(History))
  {
    var id :| id in i.Merged(History) && Content(i.Merged(History)[id], i.Shared(History)) == content;
    TogetherAt(i, id);
    if id in i.main.history {
      assert Content(i.main.history[id], i.Shared(History)) == content;
    } else {
      ArrivedContent(i, id);
    }
  }

  /** Each content is there once: under the smallest id, so an existing row is preferred to an imported
      one; and the row is as it was in its database. */
  lemma {:induction false} EachContentOnce(i: Import, id: Id)
    requires Numbered(i) && id in i.Merged(History)
    ensures var shared := i.Shared(History);
            var content := Content(i.Merged(History)[id], shared);
            && (forall other | other in i.Merged(History) && Content(i.Merged(History)[other], shared) == content ::
                  other == id)
            && (forall first | first in i.main.history && Content(i.main.history[first], shared) == content ::
                  id in i.main.history && id <= first)
            && (if id in i.main.history then i.Merged(History)[id] == i.main.history[id]
                else id - i.offset in i.other.history && i.Merged(History)[id] == Arrived(i, id))
  {
    TogetherAt(i, id);
    var shared := i.Shared(History);
    var content := Content(i.Merged(History)[id], shared);
    forall first | first in i.main.history && Content(i.main.history[first], shared) == content
      ensures id in i.main.history && id <= first
    {
      TogetherAt(i, first);
      assert id <= first <= i.offset;
    }
  }

  /** If the three tables had the same ids in both databases they have the same ids afterwards. */
  lemma {:induction false} SameIds(i: Import, name: Name)
    requires i.main.At(name).Keys == i.main.history.Keys
    requires i.other.At(name).Keys == i.other.history.Keys
    ensures i.Merged(name).Keys == i.Merged(History).Keys
  {
    TogetherKeys(i, name);
    TogetherKeys(i, History);
    assert i.Merged(History).Keys <= i.Together(History).Keys;
  }

  lemma {:induction false} TogetherKeys(i: Import, name: Name)
    ensures i.Together(name).Keys == i.main.At(name).Keys + Shifted(i.other.At(name).Keys, i.offset)
  {
    assert i.Copy(name).Keys == Shifted(i.other.At(name).Keys, i.offset);
  }

  // ----- the rows themselves, in all three tables -----

  /** The cell of a row, as a query gives it. */
  function CellOf(r: Row, c: Column): Value {
    if c in r.cells then r.cells[c] else Null
  }

  /** A row that came in: the cells of the columns both tables have, and NULL in the others. */
  ghost predicate CameFrom(r: Row, source: Row, current: set<Column>, imported: set<Column>) {
    && r.cells.Keys == current
    && forall c | c in current :: r.cells[c] == if c in imported then CellOf(source, c) else Null
  }

  lemma {:induction false} ShiftKeeps(t: Table, offset: nat, references: bool, id: Id)
    ensures var r := Shift(t, offset, references);
            && (id in r <==> id - offset in t)
            && (id in r ==>
                  && r[id].cells == t[id - offset].cells
                  && r[id].reference == t[id - offset].reference + if references then offset else 0)
  {
    ShiftedAt(t.Keys, offset, id);
  }

  lemma {:induction false} FilledFrom(r: Row, current: set<Column>, imported: set<Column>)
    ensures CameFrom(Fill(r, current, current * imported), r, current, imported)
    ensures Fill(r, current, current * imported).reference == r.reference
  {
  }

  lemma {:induction false} SameCells(r: Row, a: Row, b: Row, current: set<Column>, imported: set<Column>)
    requires CameFrom(r, a, current, imported) && a.cells == b.cells
    ensures CameFrom(r, b, current, imported)
  {
    forall c | c in current ensures r.cells[c] == if c in imported then CellOf(b, c) else Null {
      assert CellOf(a, c) == CellOf(b, c);
    }
  }

  lemma {:induction false} TogetherRow(i: Import, name: Name, id: Id)
    ensures var t := i.Together(name);
            && (id in t <==> id in i.main.At(name) || id - i.offset in i.other.At(name))
            && (id in i.main.At(name) ==> t[id] == i.main.At(name)[id])
            && (id in t && id !in i.main.At(name) ==>
                  var source := i.other.At(name)[id - i.offset];
                  && CameFrom(t[id], source, i.current.At(name), i.imported.At(name))
                  && t[id].reference == source.reference + if name == History then i.offset else 0)
  {
    var copy := i.Copy(name);
    ShiftKeeps(i.other.At(name), i.offset, name == History, id);
    InsertOrIgnoreAt(i.main.At(name), copy, i.current.At(name), i.Shared(name), id);
    if id in copy {
      FilledFrom(copy[id], i.current.At(name), i.imported.At(name));
      SameCells(Fill(copy[id], i.current.At(name), i.Shared(name)), copy[id], i.other.At(name)[id - i.offset],
                i.current.At(name), i.imported.At(name));
    }
  }

  /** What every row of a merged table is: an existing row as it was, or a row of the other database with
      its cells; and it is there exactly when it was in one of them and its id is one of the history's. */
  lemma {:induction false} MergedRow(i: Import, name: Name, id: Id)
    ensures id in i.Merged(name)
       <==> id in i.Merged(History) && (id in i.main.At(name) || id - i.offset in i.other.At(name))
    ensures id in i.Merged(name) && id in i.main.At(name) ==> i.Merged(name)[id] == i.main.At(name)[id]
    ensures id in i.Merged(name) && id !in i.main.At(name) ==>
              var r, source := i.Merged(name)[id], i.other.At(name)[id - i.offset];
              && CameFrom(r, source, i.current.At(name), i.imported.At(name))
              && r.reference == source.reference + if name == History then i.offset else 0
  {
    TogetherRow(i, name, id);
    TogetherRow(i, History, id);
  }

  /** Where the three tables had the same ids in both databases, a surviving id names three rows that
      belonged together before: all existing ones as they were, or all from one id of the other database. */
  lemma {:induction false} RowsStayTogether(i: Import, id: Id)
    requires Numbered(i) && id in i.Merged(History)
    requires forall name :: i.main.At(name).Keys == i.main.history.Keys
    requires forall name :: i.other.At(name).Keys == i.other.history.Keys
    ensures forall name :: id in i.Merged(name)
    ensures if id in i.main.history
            then forall name :: i.Merged(name)[id] == i.main.At(name)[id]
            else id - i.offset in i.other.history
                 && forall name :: CameFrom(i.Merged(name)[id], i.other.At(name)[id - i.offset],
                                            i.current.At(name), i.imported.At(name))
  {
    MergedRow(i, History, id);
    MergedRow(i, MediaInfo, id);
    MergedRow(i, Metadata, id);
    forall name ensures id in i.Merged(name) {
      MergedRow(i, name, id);
    }
    if id in i.main.history {
      forall name ensures i.Merged(name)[id] == i.main.At(name)[id] { MergedRow(i, name, id); }
    } else {
      forall name
        ensures CameFrom(i.Merged(name)[id], i.other.At(name)[id - i.offset], i.current.At(name), i.imported.At(name))
      {
        MergedRow(i, name, id);
      }
    }
  }

  // ----- references -----

  /** References are to the row's own id or an earlier one. */
  ghost predicate References(t: Table) {
    forall id | id in t :: 1 <= t[id].reference <= id
  }

  lemma {:induction false} MergedAt(i: Import, id: Id)
    requires id in i.Merged(History)
    ensures id in i.Together(History) && i.Merged(History)[id] == i.Together(History)[id]
  {
  }

  lemma {:induction false} ReferenceAt(i: Import, id: Id)
    requires id in i.Merged(History)
    ensures id in i.main.history ==> i.Merged(History)[id].reference == i.main.history[id].reference
    ensures id !in i.main.history ==>
              && id - i.offset in i.other.history
              && i.Merged(History)[id].reference == i.other.history[id - i.offset].reference + i.offset
  {
    MergedAt(i, id);
    TogetherAt(i, id);
  }

  /** A surviving imported row never shares its reference with an existing row, and with another imported
      row exactly where it did before. */
  lemma {:induction false} ReferencesKept(i: Import, id: Id, other: Id)
    requires Numbered(i) && References(i.main.history) && References(i.other.history)
    requires id in i.Merged(History) && other in i.Merged(History) && id !in i.main.history
    ensures id - i.offset in i.other.history
    ensures other in i.main.history ==> i.Merged(History)[id].reference != i.Merged(History)[other].reference
    ensures other !in i.main.history ==>
              && other - i.offset in i.other.history
              && (i.Merged(History)[id].reference == i.Merged(History)[other].reference
                  <==> i.other.history[id - i.offset].reference == i.other.history[other - i.offset].reference)
  {
    ReferenceAt(i, id);
    ReferenceAt(i, other);
  }

  // ----- which rows survive, told from the two databases -----

  /** An existing row survives exactly when it is the first of its content in its own database. */
  lemma {:induction false} ExistingSurvives(i: Import, id: Id)
    requires Numbered(i) && id in i.main.history
    ensures id in i.Merged(History) <==> IsFirst(i.main.history, id, i.Shared(History))
  {
    var shared, all := i.Shared(History), i.Together(History);
    TogetherAt(i, id);
    if IsFirst(i.main.history, id, shared) {
      forall other | other in all && Content(all[other], shared) == Content(all[id], shared) ensures id <= other {
        TogetherAt(i, other);
      }
    }
    if id in i.Merged(History) {
      forall other | other in i.main.history
          && Content(i.main.history[other], shared) == Content(i.main.history[id], shared)
        ensures id <= other
      {
        TogetherAt(i, other);
      }
    }
  }

  /** An imported row that is the first of its content in its own database, of a content the existing
      history lacks. */
  ghost predicate FirstAndNew(i: Import, r: Id)
    requires r in i.other.history
  {
    && IsFirst(i.other.history, r, i.Shared(History))
    && !Occurs(i.main.history, Content(i.other.history[r], i.Shared(History)), i.Shared(History))
  }

  /** Exactly those survive. */
  lemma {:induction false} ImportedSurvives(i: Import, r: Id)
    requires Numbered(i) && r in i.other.history
    ensures r + i.offset in i.Merged(History) <==> FirstAndNew(i, r)
  {
    ImportedAt(i, r);
    if r + i.offset in i.Merged(History) {
      SurvivorIsFirst(i, r);
    } else {
      LostHasEarlier(i, r);
    }
  }

  /** An imported row behind the existing ones, with its content. */
  lemma {:induction false} ImportedAt(i: Import, r: Id)
    requires Numbered(i) && r in i.other.history
    ensures r + i.offset in i.Together(History) && r + i.offset !in i.main.history
    ensures Content(i.Together(History)[r + i.offset], i.Shared(History))
         == Content(i.other.history[r], i.Shared(History))
  {
    TogetherAt(i, r + i.offset);
    ArrivedContent(i, r + i.offset);
  }

  lemma {:induction false} ExistingAt(i: Import, id: Id)
    requires id in i.main.history
    ensures id in i.Together(History) && i.Together(History)[id] == i.main.history[id]
  {
    TogetherAt(i, id);
  }

  lemma {:induction false} SurvivorIsFirst(i: Import, r: Id)
    requires Numbered(i) && r in i.other.history && r + i.offset in i.Merged(History)
    ensures FirstAndNew(i, r)
  {
    var shared, all := i.Shared(History), i.Together(History);
    ImportedAt(i, r);
    forall other | other in i.other.history
        && Content(i.other.history[other], shared) == Content(i.other.history[r], shared)
      ensures r <= other
    {
      ImportedAt(i, other);
      assert r + i.offset <= other + i.offset;
    }
    forall id | id in i.main.history ensures Content(i.main.history[id], shared) != Content(i.other.history[r], shared) {
      ExistingAt(i, id);
    }
  }

  lemma {:induction false} LostHasEarlier(i: Import, r: Id)
    requires Numbered(i) && r in i.other.history && r + i.offset !in i.Merged(History)
    ensures !FirstAndNew(i, r)
  {
    var shared, all := i.Shared(History), i.Together(History);
    ImportedAt(i, r);
    var first :| first in all && Content(all[first], shared) == Content(all[r + i.offset], shared)
                 && first < r + i.offset;
    TogetherAt(i, first);
    if first in i.main.history {
      ExistingAt(i, first);
    } else {
      ImportedAt(i, first - i.offset);
      assert first - i.offset < r;
    }
  }

  /** Two rows agree on every column both databases have. */
  ghost predicate Agree(a: Row, b: Row, current: set<Column>, imported: set<Column>) {
    forall c | c in current && c in imported :: CellOf(a, c) == CellOf(b, c)
  }

  lemma {:induction false} SameContent(a: Row, b: Row, current: set<Column>, imported: set<Column>)
    ensures Content(a, current * imported) == Content(b, current * imported) <==> Agree(a, b, current, imported)
  {
    var x, y := Content(a, current * imported), Content(b, current * imported);
    assert x.Keys == current * imported == y.Keys;
    assert forall c | c in current * imported :: x[c] == CellOf(a, c) && y[c] == CellOf(b, c);
  }

  /** No row of the table with a smaller id agrees with `r`. */
  ghost predicate NoneBefore(t: Table, id: Id, r: Row, current: set<Column>, imported: set<Column>) {
    forall other | other in t && other < id :: !Agree(t[other], r, current, imported)
  }

  lemma {:induction false} FirstByColumns(t: Table, id: Id, current: set<Column>, imported: set<Column>)
    requires id in t
    ensures IsFirst(t, id, current * imported) <==> NoneBefore(t, id, t[id], current, imported)
  {
    forall other | other in t
      ensures Content(t[other], current * imported) == Content(t[id], current * imported)
         <==> Agree(t[other], t[id], current, imported)
    {
      SameContent(t[other], t[id], current, imported);
    }
  }

  lemma {:induction false} OccursByColumns(t: Table, r: Row, current: set<Column>, imported: set<Column>)
    ensures Occurs(t, Content(r, current * imported), current * imported)
       <==> exists id :: id in t && Agree(t[id], r, current, imported)
  {
    forall id | id in t
      ensures Content(t[id], current * imported) == Content(r, current * imported) <==> Agree(t[id], r, current, imported)
    {
      SameContent(t[id], r, current, imported);
    }
  }

  /** Told from the cells: an existing row survives if and only if no existing row before it agrees with it
      on every common column. */
  lemma {:induction false} ExistingByColumns(i: Import, id: Id)
    requires Numbered(i) && id in i.main.history
    ensures id in i.Merged(History)
       <==> NoneBefore(i.main.history, id, i.main.history[id], i.current.history, i.imported.history)
  {
    ExistingSurvives(i, id);
    FirstByColumns(i.main.history, id, i.current.history, i.imported.history);
  }

  /** And an imported row if and only if none before it in its own database and no existing row agrees with
      it on every common column. */
  lemma {:induction false} ImportedByColumns(i: Import, r: Id)
    requires Numbered(i) && r in i.other.history
    ensures var row := i.other.history[r];
            r + i.offset in i.Merged(History)
            <==> NoneBefore(i.other.history, r, row, i.current.history, i.imported.history)
                 && forall id | id in i.main.history ::
                      !Agree(i.main.history[id], row, i.current.history, i.imported.history)
  {
    ImportedSurvives(i, r);
    FirstByColumns(i.other.history, r, i.current.history, i.imported.history);
    OccursByColumns(i.main.history, i.other.history[r], i.current.history, i.imported.history);
  }

  /** A surviving imported row whose reference led to row `r` of its database leads to the same row
      afterwards, and that row is still there exactly when it was first and new. */
  lemma {:induction false} ReferenceResolves(i: Import, id: Id, r: Id)
    requires Numbered(i) && id in i.Merged(History) && id !in i.main.history && id - i.offset in i.other.history
    requires r == i.other.history[id - i.offset].reference && r in i.other.history
    ensures i.Merged(History)[id].reference == r + i.offset
    ensures r + i.offset in i.Merged(History) <==> FirstAndNew(i, r)
  {
    assert i.Merged(History)[id].reference == r + i.offset by { ReferenceAt(i, id); }
    ImportedSurvives(i, r);
  }

  /** The reference of a surviving existing row is untouched, and its row is still there exactly when it
      was the first of its content in the existing history. */
  lemma {:induction false} ExistingReferenceResolves(i: Import, id: Id, r: Id)
    requires Numbered(i) && id in i.Merged(History) && id in i.main.history
    requires r == i.main.history[id].reference && r in i.main.history
    ensures i.Merged(History)[id].reference == r
    ensures r in i.Merged(History) <==> IsFirst(i.main.history, r, i.Shared(History))
  {
    assert i.Merged(History)[id].reference == r by { ReferenceAt(i, id); }
    ExistingSurvives(i, r);
  }

  /** A row whose reference leads to no row. */
  ghost predicate Dangles(t: Table, id: Id) {
    id in t && t[id].reference !in t
  }

  lemma {:induction false} DanglesWhere(t: Table, id: Id, r: Id, kept: bool, found: bool)
    requires (id in t <==> kept) && (r in t <==> found) && (id in t ==> t[id].reference == r)
    ensures Dangles(t, id) <==> kept && !found
  {
  }

  lemma {:induction false} ArrivedReference(i: Import, a: Id)
    requires Numbered(i) && a in i.other.history && a + i.offset in i.Merged(History)
    ensures i.Merged(History)[a + i.offset].reference == i.other.history[a].reference + i.offset
  {
    ImportedAt(i, a);
    ReferenceAt(i, a + i.offset);
  }

  /** An imported row whose reference led to row `r` of its database is left dangling exactly when it is
      first and new and `r` is not. */
  lemma {:induction false} DanglesExact(i: Import, a: Id, r: Id)
    requires Numbered(i) && a in i.other.history && r in i.other.history && i.other.history[a].reference == r
    ensures Dangles(i.Merged(History), a + i.offset) <==> FirstAndNew(i, a) && !FirstAndNew(i, r)
  {
    ImportedSurvives(i, a);
    ImportedSurvives(i, r);
    if a + i.offset in i.Merged(History) { ArrivedReference(i, a); }
    DanglesWhere(i.Merged(History), a + i.offset, r + i.offset, FirstAndNew(i, a), FirstAndNew(i, r));
  }

  // ----- what that means on two small databases -----

  const TITLE := Column(0)
  const NOTE := Column(1)

  function HistoryOnly(main: Table, other: Table, current: set<Column>, imported: set<Column>, offset: nat): Import {
    Import(Three(main, map[], map[]), Three(other, map[], map[]), Three(current, {}, {}), Three(imported, {}, {}), offset)
  }

  function Plays(reference: int, title: int, note: int): Row {
    Row(reference, map[TITLE := Number(title), NOTE := Number(note)])
  }

  /** The second imported row refers to the first, which has the title of the existing one. */
  function Dangling(): Import {
    HistoryOnly(map[1 := Plays(1, 5, 0)], map[1 := Plays(1, 5, 0), 2 := Plays(1, 6, 0)], {TITLE}, {TITLE}, 1)
  }

  lemma {:induction false} OneColumn(r: Row, title: int)
    requires TITLE in r.cells && r.cells[TITLE] == Number(title)
    ensures Content(r, {TITLE}) == map[TITLE := Number(title)]
  {
  }

  lemma {:induction false} TitlesDiffer()
    ensures map[TITLE := Number(5)] != map[TITLE := Number(6)]
  {
    assert map[TITLE := Number(5)][TITLE] != map[TITLE := Number(6)][TITLE];
  }

  lemma {:induction false} DanglingShared()
    ensures Dangling().Shared(History) == {TITLE}
  {
  }

  lemma {:induction false} DanglingFirst()
    ensures !FirstAndNew(Dangling(), 1) && FirstAndNew(Dangling(), 2)
  {
    var i := Dangling();
    DanglingShared();
    TitlesDiffer();
    OneColumn(i.main.history[1], 5);
    OneColumn(i.other.history[1], 5);
    OneColumn(i.other.history[2], 6);
  }

  lemma {:induction false} DanglingNumbered()
    ensures Numbered(Dangling()) && References(Dangling().main.history) && References(Dangling().other.history)
    ensures 2 in Dangling().other.history && Dangling().other.history[2].reference == 1
  {
  }

  /** The first row of an imported group can be a duplicate while the second still refers to it. */
  lemma {:induction false} ReferenceCanDangle()
    ensures var i := Dangling();
            && Numbered(i) && References(i.main.history) && References(i.other.history)
            && Dangles(i.Merged(History), 3)
  {
    DanglingNumbered();
    DanglingFirst();
    DanglesExact(Dangling(), 2, 1);
  }

  /** The second row has the title of the first and another note. */
  function TwoNotes(): Import {
    HistoryOnly(map[1 := Plays(1, 5, 0), 2 := Plays(2, 5, 1)], map[], {TITLE, NOTE}, {TITLE}, 2)
  }

  /** Rows are compared on the shared columns only: two existing rows that differ in a column the other
      database lacks become one, even if nothing is imported. */
  lemma {:induction false} ExistingRowsCanBeLost()
    ensures var i := TwoNotes();
            && Numbered(i) && i.main.history[1].cells != i.main.history[2].cells && 2 !in i.Merged(History)
  {
    var i := TwoNotes();
    assert i.main.history[1].cells[NOTE] != i.main.history[2].cells[NOTE];
    assert i.Shared(History) == {TITLE};
    OneColumn(i.main.history[1], 5);
    OneColumn(i.main.history[2], 5);
    ExistingSurvives(i, 2);
  }
}

/**
 * A column-by-column view of a table. Native operations touch one column each, so a whole run of
 * them is understood one column at a time.
 */
module Views {
  import opened Results
  import opened Schema
  import opened Sql
  import opened Materialize
  import opened Changesets
  import opened Witnesses
  import opened Diffs
  import opened Executor

  datatype ColumnView = Absent | Present(def: Column, index: Option<string>, inline: bool, cells: map<string, Value>)

  function CellsOf(rows: map<string, Row>, id: string): map<string, Value> {
    map r | r in rows :: Cell(rows[r].cells, id)
  }

  function ViewOf(t: Table, id: string): ColumnView {
    if id !in t.cols then Absent
    else Present(t.cols[id], if id in t.indexes then Some(t.indexes[id]) else None, id in t.inline, CellsOf(t.rows, id))
  }

  /** Rows have one cell per column, and only columns are indexed or carry a foreign key. */
  predicate Shaped(t: Table) {
    && t.indexes.Keys <= t.cols.Keys && t.inline <= t.cols.Keys
    && forall r | r in t.rows :: t.rows[r].cells.Keys == t.cols.Keys
  }

  /** The same rows by id, with the same timestamps. */
  predicate SameRows(a: map<string, Row>, b: map<string, Row>) {
    && a.Keys == b.Keys
    && forall r | r in a :: a[r].created == b[r].created && a[r].updated == b[r].updated
  }

  ghost predicate SameViews(a: Table, b: Table) {
    forall id :: ViewOf(a, id) == ViewOf(b, id)
  }

  /** The views, the row ids and the timestamps determine the table. */
  lemma ViewsDetermineTable(a: Table, b: Table)
    requires Shaped(a) && Shaped(b) && SameRows(a.rows, b.rows) && SameViews(a, b)
    ensures a == b
  {
    forall id ensures id in a.cols <==> id in b.cols {
      assert ViewOf(a, id) == ViewOf(b, id);
    }
    forall id | id in a.cols ensures a.cols[id] == b.cols[id] {
      assert ViewOf(a, id) == ViewOf(b, id);
    }
    assert a.cols == b.cols;
    forall id | id in a.cols ensures (id in a.indexes <==> id in b.indexes) && (id in a.indexes ==> a.indexes[id] == b.indexes[id]) {
      assert ViewOf(a, id) == ViewOf(b, id);
    }
    assert a.indexes == b.indexes;
    forall id ensures id in a.inline <==> id in b.inline {
      assert ViewOf(a, id) == ViewOf(b, id);
    }
    forall r | r in a.rows ensures a.rows[r] == b.rows[r] {
      forall id | id in a.cols ensures a.rows[r].cells[id] == b.rows[r].cells[id] {
        assert ViewOf(a, id) == ViewOf(b, id);
        assert CellsOf(a.rows, id)[r] == CellsOf(b.rows, id)[r];
      }
      assert a.rows[r].cells == b.rows[r].cells;
    }
    assert a.rows == b.rows;
  }

  // ----- one native operation -----

  /** The column a change is about, if it is about one. */
  function Target(change: Change): Option<string> {
    match change
    case AddEntity(_) => None
    case DropEntity(_) => None
    case RenameEntity(_, _) => None
    case DropField(f) => Some(f.id)
    case AddField(f) => Some(f.id)
    case RenameField(_, f) => Some(f.id)
    case ChangeType(_, f) => Some(f.id)
    case ChangeRequired(_, f) => Some(f.id)
    case ChangeUnique(_, f) => Some(f.id)
    case ChangeEnum(_, f) => Some(f.id)
    case ChangeReference(_, f) => Some(f.id)
  }

  function IndexFor(eid: string, f: Field): Option<string> {
    if f.unique then Some(IndexName(eid, f.id)) else None
  }

  function Filled(p: Platform, f: Field, rows: set<string>): map<string, Value> {
    map r | r in rows :: Stored(p, ColumnDef(f).affinity, DefaultLiteral(p, f))
  }

  /** What a native change makes of the view of its own column. */
  function StepView(p: Platform, eid: string, change: Change, v: ColumnView, rows: set<string>): ColumnView {
    match change
    case AddField(f) => Present(ColumnDef(f), IndexFor(eid, f), ColumnDef(f).fk.Some?, Filled(p, f, rows))
    case DropField(_) => Absent
    case ChangeUnique(_, f) => if v.Present? then v.(index := IndexFor(eid, f)) else v
    case _ => v
  }

  predicate SameElsewhere(a: Db, b: Db, eid: string) {
    a.fingerprint == b.fingerprint && eid in b.tables && b == WithTable(a, eid, b.tables[eid])
  }

  /** Indexes this change may create or drop belong to `pairs`. */
  predicate IndexesCovered(eid: string, change: Change, pairs: set<(string, string)>) {
    match change
    case AddField(f) => f.unique ==> (eid, f.id) in pairs
    case ChangeUnique(_, f) => (eid, f.id) in pairs
    case _ => true
  }

  ghost predicate Ready(db: Db, eid: string, pairs: set<(string, string)>) {
    eid in db.tables && Shaped(db.tables[eid]) && Named(db, pairs) && NamesDistinct(pairs)
  }

  /** From `db`, a change of `eid` led to `after`, touching only the view of column `target`. */
  ghost predicate Touches(db: Db, after: Db, eid: string, target: Option<string>, pairs: set<(string, string)>) {
    && Ready(db, eid, pairs) && Ready(after, eid, pairs)
    && SameElsewhere(db, after, eid)
    && SameRows(db.tables[eid].rows, after.tables[eid].rows)
    && forall id | Some(id) != target :: ViewOf(after.tables[eid], id) == ViewOf(db.tables[eid], id)
  }

  lemma TakenMeansIndexed(db: Db, pairs: set<(string, string)>, t: string, c: string)
    requires Named(db, pairs) && NamesDistinct(pairs) && (t, c) in pairs
    requires IndexTaken(db, IndexName(t, c))
    ensures Holds(db, t, c, IndexName(t, c))
  {
    var u, d :| Holds(db, u, d, IndexName(t, c));
    assert IndexName(u, d) == IndexName(t, c);
  }

  lemma CreateIndexTouches(p: Platform, db: Db, eid: string, c: string, pairs: set<(string, string)>)
    requires Ready(db, eid, pairs) && (eid, c) in pairs
    requires RunCreateUniqueIndex(p, db, IndexName(eid, c), eid, c).Ok?
    ensures var after := RunCreateUniqueIndex(p, db, IndexName(eid, c), eid, c).value;
            && Touches(db, after, eid, Some(c), pairs)
            && ViewOf(db.tables[eid], c).Present?
            && ViewOf(after.tables[eid], c) == ViewOf(db.tables[eid], c).(index := Some(IndexName(eid, c)))
  {
    var name := IndexName(eid, c);
    var after := RunCreateUniqueIndex(p, db, name, eid, c).value;
    if IndexTaken(db, name) {
      TakenMeansIndexed(db, pairs, eid, c);
      assert after.tables[eid] == db.tables[eid];
      assert after == WithTable(db, eid, db.tables[eid]);
    } else {
      forall t, d, i | Holds(after, t, d, i) ensures i == IndexName(t, d) && (t, d) in pairs {
        if !(t == eid && d == c) {
          assert Holds(db, t, d, i);
        }
      }
    }
  }

  lemma DropIndexTouches(db: Db, eid: string, c: string, pairs: set<(string, string)>)
    requires Ready(db, eid, pairs) && (eid, c) in pairs
    requires RunDropIndex(db, IndexName(eid, c)).Ok?
    ensures var after := RunDropIndex(db, IndexName(eid, c)).value;
            && Touches(db, after, eid, Some(c), pairs)
            && ViewOf(db.tables[eid], c).Present?
            && ViewOf(after.tables[eid], c) == ViewOf(db.tables[eid], c).(index := None)
  {
    var name := IndexName(eid, c);
    var after := RunDropIndex(db, name).value;
    TakenMeansIndexed(db, pairs, eid, c);
    forall t | t in db.tables && t != eid ensures after.tables[t] == db.tables[t] {
      forall d | d in db.tables[t].indexes ensures db.tables[t].indexes[d] != name {
        assert Holds(db, t, d, db.tables[t].indexes[d]);
      }
      assert WithoutName(db.tables[t].indexes, name) == db.tables[t].indexes;
    }
    forall d | d in db.tables[eid].indexes && d != c ensures db.tables[eid].indexes[d] != name {
      assert Holds(db, eid, d, db.tables[eid].indexes[d]);
    }
    assert after.tables == db.tables[eid := after.tables[eid]];
    forall t, d, i | Holds(after, t, d, i) ensures Holds(db, t, d, i) {
    }
  }

  lemma WidenedShape(p: Platform, t: Table, col: string, def: Column, dflt: Value)
    requires Shaped(t) && col !in t.cols
    ensures var w := Widened(p, t, col, def, dflt);
            && Shaped(w) && SameRows(t.rows, w.rows) && w.indexes == t.indexes
            && ViewOf(w, col) == Present(def, None, def.fk.Some?, map r | r in t.rows :: Stored(p, def.affinity, dflt))
  {
    hide Stored;
    WidenedCells(p, t, col, def, dflt);
  }

  lemma WidenedCells(p: Platform, t: Table, col: string, def: Column, dflt: Value)
    ensures CellsOf(Widened(p, t, col, def, dflt).rows, col) == map r | r in t.rows :: Stored(p, def.affinity, dflt)
  {
    hide Stored;
    var w := Widened(p, t, col, def, dflt);
    forall r | r in t.rows ensures CellsOf(w.rows, col)[r] == Stored(p, def.affinity, dflt) {
      assert w.rows[r].cells == t.rows[r].cells[col := Stored(p, def.affinity, dflt)];
    }
  }

  lemma WidenedViews(p: Platform, t: Table, col: string, def: Column, dflt: Value)
    requires Shaped(t) && col !in t.cols
    ensures forall id | id != col :: ViewOf(Widened(p, t, col, def, dflt), id) == ViewOf(t, id)
  {
    hide Stored, Widened, Shaped, ViewOf;
    forall id | id != col ensures ViewOf(Widened(p, t, col, def, dflt), id) == ViewOf(t, id) {
      WidenedView(p, t, col, def, dflt, id);
    }
  }

  lemma WidenedView(p: Platform, t: Table, col: string, def: Column, dflt: Value, id: string)
    requires Shaped(t) && id != col
    ensures ViewOf(Widened(p, t, col, def, dflt), id) == ViewOf(t, id)
  {
    hide Stored;
    assert CellsOf(Widened(p, t, col, def, dflt).rows, id) == CellsOf(t.rows, id);
  }

  lemma SameIndexesStayNamed(db: Db, eid: string, t: Table, pairs: set<(string, string)>)
    requires Named(db, pairs) && eid in db.tables && t.indexes == db.tables[eid].indexes
    ensures Named(WithTable(db, eid, t), pairs)
  {
    assert forall u, d, i :: Holds(WithTable(db, eid, t), u, d, i) == Holds(db, u, d, i);
  }

  lemma AddColumnTouches(p: Platform, db: Db, eid: string, f: Field, pairs: set<(string, string)>)
    requires Ready(db, eid, pairs)
    requires RunAddColumn(p, db, eid, f.id, ColumnDef(f), DefaultLiteral(p, f)).Ok?
    ensures var after := RunAddColumn(p, db, eid, f.id, ColumnDef(f), DefaultLiteral(p, f)).value;
            && Touches(db, after, eid, Some(f.id), pairs)
            && ViewOf(db.tables[eid], f.id).Absent?
            && ViewOf(after.tables[eid], f.id)
               == Present(ColumnDef(f), None, ColumnDef(f).fk.Some?, Filled(p, f, db.tables[eid].rows.Keys))
  {
    hide ColumnDef, DefaultLiteral, Stored, Widened, SameRows;
    var t := db.tables[eid];
    var w := Widened(p, t, f.id, ColumnDef(f), DefaultLiteral(p, f));
    WidenedShape(p, t, f.id, ColumnDef(f), DefaultLiteral(p, f));
    WidenedViews(p, t, f.id, ColumnDef(f), DefaultLiteral(p, f));
    SameIndexesStayNamed(db, eid, w, pairs);
  }

  lemma NarrowedShape(t: Table, c: string)
    requires Shaped(t) && c !in t.indexes
    ensures Shaped(Narrowed(t, c)) && SameRows(t.rows, Narrowed(t, c).rows) && Narrowed(t, c).indexes == t.indexes
  {
  }

  lemma NarrowedViews(t: Table, c: string)
    ensures ViewOf(Narrowed(t, c), c) == Absent
    ensures forall id | id != c :: ViewOf(Narrowed(t, c), id) == ViewOf(t, id)
  {
    forall id | id != c ensures ViewOf(Narrowed(t, c), id) == ViewOf(t, id) {
      assert CellsOf(Narrowed(t, c).rows, id) == CellsOf(t.rows, id);
    }
  }

  lemma DropColumnTouches(db: Db, eid: string, c: string, pairs: set<(string, string)>)
    requires Ready(db, eid, pairs)
    requires RunDropColumn(db, eid, c).Ok?
    ensures var after := RunDropColumn(db, eid, c).value;
            && Touches(db, after, eid, Some(c), pairs)
            && ViewOf(after.tables[eid], c) == Absent
  {
    hide Narrowed, ViewOf, SameRows, NamesDistinct;
    var t := db.tables[eid];
    NarrowedShape(t, c);
    NarrowedViews(t, c);
    SameIndexesStayNamed(db, eid, Narrowed(t, c), pairs);
  }

  lemma TouchesTwice(a: Db, b: Db, c: Db, eid: string, target: Option<string>, pairs: set<(string, string)>)
    requires Touches(a, b, eid, target, pairs) && Touches(b, c, eid, target, pairs)
    ensures Touches(a, c, eid, target, pairs)
  {
  }

  /** A native operation that succeeds changes the view of its own column as declared, and nothing else. */
  lemma NativeOpTouches(p: Platform, db: Db, eid: string, change: Change, pairs: set<(string, string)>)
    requires Ready(db, eid, pairs) && IndexesCovered(eid, change, pairs)
    requires NativeOp(p, db, eid, change).Ok?
    ensures var after := NativeOp(p, db, eid, change).value;
            && Touches(db, after, eid, Target(change), pairs)
            && (Target(change).Some? ==>
                  ViewOf(after.tables[eid], Target(change).value)
                  == StepView(p, eid, change, ViewOf(db.tables[eid], Target(change).value), db.tables[eid].rows.Keys))
  {
    hide ColumnDef, DefaultLiteral, ViewOf, RunAddColumn, RunDropColumn, RunCreateUniqueIndex, RunDropIndex;
    match change
    case RenameEntity(_, _) =>
      assert db == WithTable(db, eid, db.tables[eid]);
    case RenameField(_, _) =>
      assert db == WithTable(db, eid, db.tables[eid]);
    case AddField(f) =>
      AddColumnTouches(p, db, eid, f, pairs);
      if f.unique {
        var added := RunAddColumn(p, db, eid, f.id, ColumnDef(f), DefaultLiteral(p, f)).value;
        CreateIndexTouches(p, added, eid, f.id, pairs);
        TouchesTwice(db, added, NativeOp(p, db, eid, change).value, eid, Some(f.id), pairs);
      }
    case DropField(f) =>
      DropColumnTouches(db, eid, f.id, pairs);
    case ChangeUnique(_, f) =>
      if f.unique {
        CreateIndexTouches(p, db, eid, f.id, pairs);
      } else {
        DropIndexTouches(db, eid, f.id, pairs);
      }
    case _ =>
  }

  // ----- a run of native operations -----

  /** The view a column ends up with after the operations about it. */
  function FoldView(p: Platform, eid: string, ops: seq<Operation>, id: string, v: ColumnView, rows: set<string>): ColumnView {
    if ops == [] then v
    else
      var before := FoldView(p, eid, ops[..|ops| - 1], id, v, rows);
      var change := ops[|ops| - 1].change;
      if Target(change) == Some(id) then StepView(p, eid, change, before, rows) else before
  }

  predicate AllCovered(eid: string, ops: seq<Operation>, pairs: set<(string, string)>) {
    forall op | op in ops :: IndexesCovered(eid, op.change, pairs)
  }

  /** A run of native operations acts on each column separately. */
  lemma {:induction false} NativeOpsFold(p: Platform, db: Db, eid: string, ops: seq<Operation>, pairs: set<(string, string)>)
    requires Ready(db, eid, pairs) && AllCovered(eid, ops, pairs)
    requires NativeOps(p, db, eid, ops).Ok?
    ensures var after := NativeOps(p, db, eid, ops).value;
            && Ready(after, eid, pairs) && SameElsewhere(db, after, eid)
            && SameRows(db.tables[eid].rows, after.tables[eid].rows)
            && forall id :: ViewOf(after.tables[eid], id)
                            == FoldView(p, eid, ops, id, ViewOf(db.tables[eid], id), db.tables[eid].rows.Keys)
  {
    hide ViewOf, NativeOp, StepView, IndexesCovered;
    if ops == [] {
      assert db == WithTable(db, eid, db.tables[eid]);
    } else {
      var rest, op := ops[..|ops| - 1], ops[|ops| - 1];
      NativeOpsFold(p, db, eid, rest, pairs);
      var mid := NativeOps(p, db, eid, rest).value;
      assert mid.tables[eid].rows.Keys == db.tables[eid].rows.Keys;
      NativeOpTouches(p, mid, eid, op.change, pairs);
    }
  }
}

/** The fast path of a migration refines the slow one. */
module FastSlow {
  import opened Results
  import opened Schema
  import opened Sql
  import opened Materialize
  import opened Changesets
  import opened Witnesses
  import opened Diffs
  import opened Executor
  import opened Naming
  import opened Views
  import opened NativePath
  import opened ChangesetShape
  import opened DiffMembers
  import opened Migration
  import opened WholeMigration
  import opened Reach

  // ----- native operations keep rows and indexes consistent -----

  lemma WidenedRowOk(p: Platform, t: Table, col: string, def: Column, dflt: Value, r: string)
    requires r in t.rows && col !in t.cols && RowOk(p, t.cols, t.rows[r]) && Satisfies(p, col, def, Stored(p, def.affinity, dflt))
    ensures var w := Widened(p, t, col, def, dflt); RowOk(p, w.cols, w.rows[r])
  {
    hide Satisfies, Stored;
    StoredIsStable(p, def.affinity, dflt);
    assert Widened(p, t, col, def, dflt).rows[r].cells == t.rows[r].cells[col := Stored(p, def.affinity, dflt)];
  }

  lemma WidenedUnique(p: Platform, t: Table, col: string, def: Column, dflt: Value, c: string)
    requires col !in t.cols && TableOk(p, t) && c in t.indexes
    ensures var w := Widened(p, t, col, def, dflt); c in w.cols && NoDuplicates(w.rows, c)
  {
    hide Satisfies, Stored, RowOk;
    assert c in t.cols && NoDuplicates(t.rows, c);
    SameCellsSameDuplicates(t.rows, Widened(p, t, col, def, dflt).rows, c);
  }

  lemma AddColumnKeepsOk(p: Platform, db: Db, eid: string, col: string, def: Column, dflt: Value)
    requires eid in db.tables && TableOk(p, db.tables[eid])
    requires RunAddColumn(p, db, eid, col, def, dflt).Ok?
    ensures TableOk(p, RunAddColumn(p, db, eid, col, def, dflt).value.tables[eid])
  {
    hide Satisfies, Stored, NoDuplicates;
    var t := db.tables[eid];
    var w := Widened(p, t, col, def, dflt);
    forall r | r in w.rows ensures RowOk(p, w.cols, w.rows[r]) {
      WidenedRowOk(p, t, col, def, dflt, r);
    }
    forall c | c in w.indexes ensures c in w.cols && NoDuplicates(w.rows, c) {
      WidenedUnique(p, t, col, def, dflt, c);
    }
  }

  lemma SameCellsSameDuplicates(a: map<string, Row>, b: map<string, Row>, c: string)
    requires NoDuplicates(a, c) && b.Keys == a.Keys
    requires forall r | r in a :: (c in b[r].cells ==> c in a[r].cells && b[r].cells[c] == a[r].cells[c])
    ensures NoDuplicates(b, c)
  {
  }

  lemma DropColumnKeepsOk(p: Platform, db: Db, eid: string, col: string)
    requires eid in db.tables && TableOk(p, db.tables[eid])
    requires RunDropColumn(db, eid, col).Ok?
    ensures TableOk(p, RunDropColumn(db, eid, col).value.tables[eid])
  {
    hide Satisfies, Stored;
    var t := db.tables[eid];
    var n := Narrowed(t, col);
    forall r | r in n.rows ensures RowOk(p, n.cols, n.rows[r]) {
      assert RowOk(p, t.cols, t.rows[r]);
    }
    forall c | c in n.indexes ensures c in n.cols && NoDuplicates(n.rows, c) {
      SameCellsSameDuplicates(t.rows, n.rows, c);
    }
  }

  lemma CreateIndexKeepsOk(p: Platform, db: Db, eid: string, c: string, pairs: set<(string, string)>)
    requires Ready(db, eid, pairs) && (eid, c) in pairs && TableOk(p, db.tables[eid])
    requires RunCreateUniqueIndex(p, db, IndexName(eid, c), eid, c).Ok?
    ensures TableOk(p, RunCreateUniqueIndex(p, db, IndexName(eid, c), eid, c).value.tables[eid])
  {
    hide RowOk, NoDuplicates, RunCreateUniqueIndex;
    CreateIndexExact(p, db, eid, c, pairs);
  }

  lemma DropIndexKeepsOk(p: Platform, db: Db, eid: string, index: string)
    requires eid in db.tables && TableOk(p, db.tables[eid])
    requires RunDropIndex(db, index).Ok?
    ensures TableOk(p, RunDropIndex(db, index).value.tables[eid])
  {
    hide RowOk, NoDuplicates;
  }

  lemma NativeOpKeepsOk(p: Platform, db: Db, eid: string, change: Change, pairs: set<(string, string)>)
    requires Ready(db, eid, pairs) && IndexesCovered(eid, change, pairs) && TableOk(p, db.tables[eid])
    requires NativeOp(p, db, eid, change).Ok?
    ensures var after := NativeOp(p, db, eid, change).value;
            Ready(after, eid, pairs) && TableOk(p, after.tables[eid])
  {
    hide ColumnDef, DefaultLiteral, TableOk, RunAddColumn, RunDropColumn, RunCreateUniqueIndex, RunDropIndex, ViewOf, StepView;
    NativeOpTouches(p, db, eid, change, pairs);
    match change
    case RenameEntity(_, _) =>
    case RenameField(_, _) =>
    case AddField(f) =>
      AddColumnKeepsOk(p, db, eid, f.id, ColumnDef(f), DefaultLiteral(p, f));
      if f.unique {
        AddColumnTouches(p, db, eid, f, pairs);
        CreateIndexKeepsOk(p, RunAddColumn(p, db, eid, f.id, ColumnDef(f), DefaultLiteral(p, f)).value, eid, f.id, pairs);
      }
    case DropField(f) =>
      DropColumnKeepsOk(p, db, eid, f.id);
    case ChangeUnique(_, f) =>
      if f.unique {
        CreateIndexKeepsOk(p, db, eid, f.id, pairs);
      } else {
        DropIndexKeepsOk(p, db, eid, IndexName(eid, f.id));
      }
    case _ =>
  }

  lemma {:induction false} NativeOpsKeepOk(p: Platform, db: Db, eid: string, ops: seq<Operation>, pairs: set<(string, string)>)
    requires Ready(db, eid, pairs) && AllCovered(eid, ops, pairs) && TableOk(p, db.tables[eid])
    requires NativeOps(p, db, eid, ops).Ok?
    ensures var after := NativeOps(p, db, eid, ops).value;
            Ready(after, eid, pairs) && TableOk(p, after.tables[eid])
  {
    hide NativeOp, TableOk, IndexesCovered;
    if ops != [] {
      NativeOpsKeepOk(p, db, eid, ops[..|ops| - 1], pairs);
      NativeOpKeepsOk(p, NativeOps(p, db, eid, ops[..|ops| - 1]).value, eid, ops[|ops| - 1].change, pairs);
    }
  }

  // ----- the rebuild's last step succeeds on consistent rows -----

  lemma CreateIndexSucceeds(p: Platform, db: Db, eid: string, c: string)
    requires eid in db.tables && c in db.tables[eid].cols && NoDuplicates(db.tables[eid].rows, c)
    requires IndexName(eid, c) !in db.tables && Readable(p, c)
    ensures RunCreateUniqueIndex(p, db, IndexName(eid, c), eid, c).Ok?
  {
    hide NoDuplicates, IndexTaken, IndexName;
  }

  lemma CreateIndexAfterOthers(p: Platform, db: Db, eid: string, c: string, others: map<string, string>)
    requires eid in db.tables && c in db.tables[eid].cols && NoDuplicates(db.tables[eid].rows, c)
    requires IndexName(eid, c) !in db.tables && Readable(p, c)
    ensures RunCreateUniqueIndex(p, WithIndexes(db, eid, others), IndexName(eid, c), eid, c).Ok?
  {
    hide NoDuplicates, IndexName, RunCreateUniqueIndex;
    CreateIndexSucceeds(p, WithIndexes(db, eid, others), eid, c);
  }

  predicate CanIndex(p: Platform, db: Db, eid: string, f: Field, pairs: set<(string, string)>)
    requires eid in db.tables
  {
    f.unique ==> && (eid, f.id) in pairs && f.id in db.tables[eid].cols
                 && NoDuplicates(db.tables[eid].rows, f.id) && IndexName(eid, f.id) !in db.tables && Readable(p, f.id)
  }

  lemma {:induction false} IndexStmtsSucceed(p: Platform, db: Db, eid: string, fields: seq<Field>, pairs: set<(string, string)>)
    requires Ready(db, eid, pairs) && forall f | f in fields :: CanIndex(p, db, eid, f, pairs)
    ensures RunAll(p, IndexStmts(eid, eid, fields), db).Ok?
  {
    hide RunCreateUniqueIndex, CanIndex, Shaped, Named, NamesDistinct;
    if fields != [] {
      var rest, f := fields[..|fields| - 1], fields[|fields| - 1];
      assert f in fields && forall g | g in rest :: g in fields;
      IndexStmtsSucceed(p, db, eid, rest, pairs);
      if f.unique {
        RunAllAppend(p, IndexStmts(eid, eid, rest), [CreateUniqueIndex(IndexName(eid, f.id), eid, f.id)], db);
        NextIndexSucceeds(p, db, eid, rest, f, pairs);
      }
    }
  }

  lemma NextIndexSucceeds(p: Platform, db: Db, eid: string, rest: seq<Field>, f: Field, pairs: set<(string, string)>)
    requires Ready(db, eid, pairs) && forall g | g in rest :: CanIndex(p, db, eid, g, pairs)
    requires CanIndex(p, db, eid, f, pairs) && f.unique && RunAll(p, IndexStmts(eid, eid, rest), db).Ok?
    ensures RunCreateUniqueIndex(p, RunAll(p, IndexStmts(eid, eid, rest), db).value, IndexName(eid, f.id), eid, f.id).Ok?
  {
    hide NoDuplicates, RunCreateUniqueIndex, Indexes, Shaped, Named, NamesDistinct, WithIndexes, IndexName, RunAll, IndexStmts;
    IndexStmtsOutcome(p, db, eid, rest, pairs);
    CreateIndexAfterOthers(p, db, eid, f.id, Indexes(eid, rest));
  }

  // ----- the two paths build the same table -----

  /** The view a rebuild leaves: it declares every foreign key with the table. */
  function AtRest(v: ColumnView): ColumnView {
    if v.Present? then v.(inline := false) else v
  }

  /** The database as a rebuild would have left it, up to where the table's foreign keys are declared. */
  function Settled(db: Db, eid: string): Db
    requires eid in db.tables
  {
    WithTable(db, eid, db.tables[eid].(inline := {}))
  }

  /** No enum field carries a remap: the rebuild would apply it, the native path would not. */
  predicate NoRemap(news: seq<Field>, ops: seq<Operation>) {
    forall nf | nf in news :: !(nf.typ.Enum? && HasKind(WitnessOf(ops, nf.id), WitnessRemap))
  }

  /** One field that needs no rebuild, in one row: the rebuild copies, or fills in the default. */
  lemma RebuiltCell(p: Platform, of: Option<Field>, nf: Field, w: Option<Witness>, v: Value)
    requires match of case None => !NeedsBackfill(nf) case Some(f) => KeepsDefinition(f, nf)
    requires !(nf.typ.Enum? && HasKind(w, WitnessRemap))
    ensures SelectFault(of, nf, w).None? && !MustNotLose(of, nf, w)
    ensures Declared(p, of, nf, w, v) == if of.Some? then v else DefaultLiteral(p, nf)
  {
    hide SqlLiteral;
  }

  lemma RebuiltRowCell(p: Platform, olds: seq<Field>, news: seq<Field>, ops: seq<Operation>, row: Row, nf: Field)
    requires DistinctFieldIds(news) && nf in news
    ensures nf.id in RebuiltRow(p, olds, news, ops, row).cells
    ensures RebuiltRow(p, olds, news, ops, row).cells[nf.id] ==
            Stored(p, ColumnDef(nf).affinity,
                   Declared(p, FieldById(olds, nf.id), nf, WitnessOf(ops, nf.id), Seen(p, nf.id, Cell(row.cells, nf.id))))
  {
    hide Stored, Declared, WitnessOf, ColumnDef, Seen, Cell;
    FieldByIdFinds(news, nf);
    assert nf.id in FieldIds(news);
  }

  /** The rebuilt value of a field that needs no rebuild. */
  lemma UnrebuiltCell(p: Platform, oe: Entity, ne: Entity, ops: seq<Operation>, t: Table, nf: Field, r: string)
    requires DistinctFieldIds(ne.fields) && nf in ne.fields && TableOk(p, t) && r in t.rows
    requires t.cols.Keys == FieldIds(oe.fields)
    requires nf.id in t.cols ==> t.cols[nf.id] == ColumnDef(nf)
    requires match FieldById(oe.fields, nf.id) case None => !NeedsBackfill(nf) case Some(of) => KeepsDefinition(of, nf)
    requires !(nf.typ.Enum? && HasKind(WitnessOf(ops, nf.id), WitnessRemap)) && !Timed(p, oe.fields, nf)
    ensures Cell(RebuiltRow(p, oe.fields, ne.fields, ops, t.rows[r]).cells, nf.id) ==
            if nf.id in t.cols then Cell(t.rows[r].cells, nf.id) else Stored(p, ColumnDef(nf).affinity, DefaultLiteral(p, nf))
  {
    hide ColumnDef, Stored, Declared, DefaultLiteral, WitnessOf, KeepsDefinition, HasKind, NeedsBackfill, Satisfies, RebuiltRow, FieldIds;
    RebuiltRowCell(p, oe.fields, ne.fields, ops, t.rows[r], nf);
    RebuiltCell(p, FieldById(oe.fields, nf.id), nf, WitnessOf(ops, nf.id), Seen(p, nf.id, Cell(t.rows[r].cells, nf.id)));
    assert RowOk(p, t.cols, t.rows[r]);
  }

  lemma RebuiltView(p: Platform, oe: Entity, ne: Entity, ops: seq<Operation>, t: Table, nf: Field)
    requires DistinctFieldIds(ne.fields) && nf in ne.fields && TableOk(p, t)
    requires t.cols.Keys == FieldIds(oe.fields)
    requires nf.id in t.cols ==> t.cols[nf.id] == ColumnDef(nf)
    requires match FieldById(oe.fields, nf.id) case None => !NeedsBackfill(nf) case Some(of) => KeepsDefinition(of, nf)
    requires !(nf.typ.Enum? && HasKind(WitnessOf(ops, nf.id), WitnessRemap)) && !Timed(p, oe.fields, nf)
    ensures ViewOf(RebuiltTable(p, oe, ne, ops, t), nf.id) == AtRest(NativeView(p, ne.id, ne.fields, t, nf.id))
  {
    hide ColumnDef, Stored, DefaultLiteral, WitnessOf, KeepsDefinition, HasKind, NeedsBackfill, TableOk, RebuiltRow, Columns, Indexes, FieldById, FieldIds, Cell;
    var rebuilt := RebuiltTable(p, oe, ne, ops, t);
    ColumnsOfFields(ne.fields);
    FieldByIdFinds(ne.fields, nf);
    IdsOfFields(ne.fields);
    IndexOfField(ne.id, ne.fields, nf);
    IndexValues(ne.id, ne.fields);
    forall r | r in t.rows {
      UnrebuiltCell(p, oe, ne, ops, t, nf, r);
    }
    assert CellsOf(rebuilt.rows, nf.id) == if nf.id in t.cols then CellsOf(t.rows, nf.id) else Filled(p, nf, t.rows.Keys);
  }

  lemma IdsOfFields(fields: seq<Field>)
    ensures forall f | f in fields :: f.id in FieldIds(fields)
  {
  }

  lemma IndexValues(eid: string, fields: seq<Field>)
    ensures forall c | c in Indexes(eid, fields) :: Indexes(eid, fields)[c] == IndexName(eid, c)
  {
  }

  lemma SameTable(p: Platform, oe: Entity, ne: Entity, ops: seq<Operation>, t: Table, after: Table)
    requires DistinctFieldIds(oe.fields) && DistinctFieldIds(ne.fields) && TableOk(p, t)
    requires t.cols.Keys == FieldIds(oe.fields) && NoRemap(ne.fields, ops) && Timeless(p, oe.fields, ne.fields)
    requires forall nf | nf in ne.fields ::
               && (nf.id in t.cols ==> t.cols[nf.id] == ColumnDef(nf))
               && (match FieldById(oe.fields, nf.id) case None => !NeedsBackfill(nf) case Some(of) => KeepsDefinition(of, nf))
    requires Shaped(after) && SameRows(t.rows, after.rows)
    requires forall id :: ViewOf(after, id) == NativeView(p, ne.id, ne.fields, t, id)
    ensures RebuiltTable(p, oe, ne, ops, t) == after.(inline := {})
  {
    hide ColumnDef, ViewOf, NativeView, KeepsDefinition, NeedsBackfill, HasKind, RebuiltRows, TableOk, Columns, Indexes, WitnessOf;
    var rebuilt := RebuiltTable(p, oe, ne, ops, t);
    RebuiltShape(p, oe.fields, ne.fields, ops, t.rows);
    ColumnsOfFields(ne.fields);
    IndexKeys(ne.id, ne.fields);
    var settled := after.(inline := {});
    SettledShape(after);
    forall id ensures ViewOf(rebuilt, id) == ViewOf(settled, id) {
      SettledView(after, id);
      match FieldById(ne.fields, id) {
        case None =>
          AbsentView(rebuilt, id);
          AbsentNative(p, ne.id, ne.fields, t, id);
        case Some(nf) =>
          RebuiltView(p, oe, ne, ops, t, nf);
      }
    }
    ViewsDetermineTable(rebuilt, settled);
  }

  /** What a rebuild writes into a surviving column that reads as the clock. */
  lemma TimedCell(p: Platform, oe: Entity, ne: Entity, ops: seq<Operation>, row: Row, of: Field, nf: Field)
    requires DistinctFieldIds(ne.fields) && nf in ne.fields && FieldById(oe.fields, nf.id) == Some(of)
    requires nf.id in p.clock && KeepsDefinition(of, nf) && !(nf.typ.Enum? && HasKind(WitnessOf(ops, nf.id), WitnessRemap))
    ensures Cell(RebuiltRow(p, oe.fields, ne.fields, ops, row).cells, nf.id) == Stored(p, ColumnDef(nf).affinity, TEXT(p.clock[nf.id]))
  {
    hide ColumnDef, Stored, Declared, WitnessOf, KeepsDefinition, HasKind, RebuiltRow, FieldIds;
    RebuiltRowCell(p, oe.fields, ne.fields, ops, row, nf);
    RebuiltCell(p, Some(of), nf, WitnessOf(ops, nf.id), Seen(p, nf.id, Cell(row.cells, nf.id)));
  }

  /** Once the native table is consistent, each rebuilt cell fits its column: its CHECKs test the clock, or the same value. */
  lemma RebuiltCellFits(p: Platform, oe: Entity, ne: Entity, ops: seq<Operation>, t: Table, after: Table, nf: Field, r: string)
    requires DistinctFieldIds(ne.fields) && nf in ne.fields && TableOk(p, t) && TableOk(p, after) && r in t.rows && r in after.rows
    requires t.cols.Keys == FieldIds(oe.fields) && NoRemap(ne.fields, ops)
    requires nf.id in t.cols ==> t.cols[nf.id] == ColumnDef(nf)
    requires nf.id in after.cols && after.cols[nf.id] == ColumnDef(nf)
    requires match FieldById(oe.fields, nf.id) case None => !NeedsBackfill(nf) case Some(of) => KeepsDefinition(of, nf)
    requires ViewOf(after, nf.id) == NativeView(p, ne.id, ne.fields, t, nf.id)
    ensures var cell := Cell(RebuiltRow(p, oe.fields, ne.fields, ops, t.rows[r]).cells, nf.id);
            && Stored(p, ColumnDef(nf).affinity, cell) == cell && Satisfies(p, nf.id, ColumnDef(nf), cell)
            && (!Timed(p, oe.fields, nf) ==> cell == Cell(after.rows[r].cells, nf.id))
  {
    hide ColumnDef, Stored, Satisfies, DefaultLiteral, WitnessOf, KeepsDefinition, HasKind, NeedsBackfill, RebuiltRow, FieldIds, NoDuplicates;
    FieldByIdFinds(ne.fields, nf);
    assert RowOk(p, after.cols, after.rows[r]);
    if Timed(p, oe.fields, nf) {
      TimedCell(p, oe, ne, ops, t.rows[r], FieldById(oe.fields, nf.id).value, nf);
      TimeFits(p, nf, Cell(after.rows[r].cells, nf.id));
    } else {
      UnrebuiltCell(p, oe, ne, ops, t, nf, r);
      assert CellsOf(after.rows, nf.id)[r] == if nf.id in t.cols then CellsOf(t.rows, nf.id)[r] else Filled(p, nf, t.rows.Keys)[r];
    }
  }

  lemma TimeFits(p: Platform, f: Field, v: Value)
    requires f.id in p.clock && Satisfies(p, f.id, ColumnDef(f), v)
    ensures var time := Stored(p, ColumnDef(f).affinity, TEXT(p.clock[f.id]));
            Stored(p, ColumnDef(f).affinity, time) == time && Satisfies(p, f.id, ColumnDef(f), time)
  {
    hide ColumnDef;
  }

  /** `after` is what the native path makes of `t`, where no field needs a rebuild or keeps a remap. */
  ghost predicate NativelyMade(p: Platform, oe: Entity, ne: Entity, ops: seq<Operation>, t: Table, after: Table) {
    && t.cols.Keys == FieldIds(oe.fields) && NoRemap(ne.fields, ops)
    && (forall nf | nf in ne.fields ::
          && (nf.id in t.cols ==> t.cols[nf.id] == ColumnDef(nf))
          && (match FieldById(oe.fields, nf.id) case None => !NeedsBackfill(nf) case Some(of) => KeepsDefinition(of, nf)))
    && Shaped(after) && SameRows(t.rows, after.rows)
    && after.cols == Columns(ne.fields) && after.indexes == Indexes(ne.id, ne.fields)
    && forall id :: ViewOf(after, id) == NativeView(p, ne.id, ne.fields, t, id)
  }

  lemma NativeCellFits(p: Platform, oe: Entity, ne: Entity, ops: seq<Operation>, t: Table, after: Table, nf: Field, r: string)
    requires DistinctFieldIds(ne.fields) && TableOk(p, t) && TableOk(p, after) && NativelyMade(p, oe, ne, ops, t, after)
    requires nf in ne.fields && r in t.rows
    ensures r in after.rows && nf.id in after.rows[r].cells
    ensures var cell := Cell(RebuiltRow(p, oe.fields, ne.fields, ops, t.rows[r]).cells, nf.id);
            && Stored(p, ColumnDef(nf).affinity, cell) == cell && Satisfies(p, nf.id, ColumnDef(nf), cell)
            && (!Timed(p, oe.fields, nf) ==> cell == Cell(after.rows[r].cells, nf.id))
  {
    hide ColumnDef, Stored, Satisfies, ViewOf, NativeView, KeepsDefinition, NeedsBackfill, RebuiltRow, Columns, TableOk, NoRemap, Indexes;
    ColumnsOfFields(ne.fields);
    IdsOfFields(ne.fields);
    RebuiltCellFits(p, oe, ne, ops, t, after, nf, r);
  }

  lemma NativeRowFits(p: Platform, oe: Entity, ne: Entity, ops: seq<Operation>, t: Table, after: Table, r: string)
    requires DistinctFieldIds(ne.fields) && TableOk(p, t) && TableOk(p, after) && NativelyMade(p, oe, ne, ops, t, after)
    requires r in t.rows
    ensures RowOk(p, Columns(ne.fields), RebuiltRow(p, oe.fields, ne.fields, ops, t.rows[r]))
  {
    hide ColumnDef, Stored, Satisfies, RebuiltRow, Columns, TableOk, NativelyMade, FieldIds, RowOk;
    RebuiltParts(p, oe.fields, ne.fields, ops, t.rows[r]);
    forall nf | nf in ne.fields {
      NativeCellFits(p, oe, ne, ops, t, after, nf, r);
    }
    CellsMakeRowOk(p, ne.fields, RebuiltRow(p, oe.fields, ne.fields, ops, t.rows[r]));
  }

  lemma NativeStaysUnique(p: Platform, oe: Entity, ne: Entity, ops: seq<Operation>, t: Table, after: Table, f: Field)
    requires DistinctFieldIds(ne.fields) && TableOk(p, t) && TableOk(p, after) && NativelyMade(p, oe, ne, ops, t, after)
    requires f in ne.fields && f.unique && Readable(p, f.id)
    ensures NoDuplicates(RebuiltRows(p, oe.fields, ne.fields, ops, t.rows), f.id)
  {
    hide ColumnDef, Stored, Satisfies, RebuiltRow, Columns, TableOk, FieldIds, NoDuplicates, ViewOf, NativeView, KeepsDefinition, NeedsBackfill, NoRemap;
    var rows := RebuiltRows(p, oe.fields, ne.fields, ops, t.rows);
    IndexOfField(ne.id, ne.fields, f);
    AfterUnique(p, after, f.id);
    forall r | r in after.rows
      ensures r in rows && f.id in after.rows[r].cells && f.id in rows[r].cells && Cell(rows[r].cells, f.id) == Cell(after.rows[r].cells, f.id)
    {
      NativeCellFits(p, oe, ne, ops, t, after, f, r);
      RebuiltRowCell(p, oe.fields, ne.fields, ops, t.rows[r], f);
    }
    SameValuesSameDuplicates(after.rows, rows, f.id);
  }

  /** The rebuilt table meets its constraints where the native one does. */
  lemma RebuiltFits(p: Platform, oe: Entity, ne: Entity, ops: seq<Operation>, t: Table, after: Table)
    requires DistinctFieldIds(ne.fields) && TableOk(p, t) && TableOk(p, after) && NativelyMade(p, oe, ne, ops, t, after)
    requires forall f | f in ne.fields && f.unique :: Readable(p, f.id)
    ensures TableOk(p, RebuiltTable(p, oe, ne, ops, t))
  {
    hide RebuiltRow, NoDuplicates, Columns, TableOk, NativelyMade, FieldIds, RowOk, Readable;
    var rows := RebuiltRows(p, oe.fields, ne.fields, ops, t.rows);
    forall r | r in rows ensures RowOk(p, Columns(ne.fields), rows[r]) {
      NativeRowFits(p, oe, ne, ops, t, after, r);
    }
    forall c | c in Indexes(ne.id, ne.fields) ensures c in Columns(ne.fields) && NoDuplicates(rows, c) {
      var f :| f in ne.fields && f.unique && f.id == c;
      NativeStaysUnique(p, oe, ne, ops, t, after, f);
      ColumnsOfFields(ne.fields);
      IdsOfFields(ne.fields);
    }
    OkIfRowsAre(p, RebuiltTable(p, oe, ne, ops, t));
  }

  lemma RebuiltParts(p: Platform, olds: seq<Field>, news: seq<Field>, ops: seq<Operation>, row: Row)
    ensures var after := RebuiltRow(p, olds, news, ops, row);
            after.created == row.created && after.updated == row.updated && after.cells.Keys == FieldIds(news)
  {
    hide Stored, Declared, WitnessOf, ColumnDef;
  }

  lemma AfterUnique(p: Platform, t: Table, c: string)
    requires TableOk(p, t) && c in t.indexes
    ensures c in t.cols && NoDuplicates(t.rows, c)
  {
    hide NoDuplicates, RowOk;
  }

  lemma SameValuesSameDuplicates(a: map<string, Row>, b: map<string, Row>, c: string)
    requires NoDuplicates(a, c) && b.Keys == a.Keys
    requires forall r | r in a :: c in a[r].cells && c in b[r].cells && Cell(b[r].cells, c) == Cell(a[r].cells, c)
    ensures NoDuplicates(b, c)
  {
  }

  lemma CellsMakeRowOk(p: Platform, fields: seq<Field>, row: Row)
    requires DistinctFieldIds(fields) && row.cells.Keys == FieldIds(fields)
    requires forall f | f in fields ::
               && Stored(p, ColumnDef(f).affinity, Cell(row.cells, f.id)) == Cell(row.cells, f.id)
               && Satisfies(p, f.id, ColumnDef(f), Cell(row.cells, f.id))
    ensures RowOk(p, Columns(fields), row)
  {
    hide ColumnDef, Stored, Satisfies, Columns;
    ColumnsOfFields(fields);
    forall c | c in Columns(fields)
      ensures Stored(p, Columns(fields)[c].affinity, row.cells[c]) == row.cells[c] && Satisfies(p, c, Columns(fields)[c], row.cells[c])
    {
      var f :| f in fields && f.id == c;
    }
  }

  lemma OkIfRowsAre(p: Platform, t: Table)
    requires forall r | r in t.rows :: RowOk(p, t.cols, t.rows[r])
    requires forall c | c in t.indexes :: c in t.cols && NoDuplicates(t.rows, c)
    requires t.inline == {}
    ensures TableOk(p, t)
  {
    hide RowOk, NoDuplicates;
  }

  lemma SettledView(t: Table, id: string)
    ensures ViewOf(t.(inline := {}), id) == AtRest(ViewOf(t, id))
  {
  }

  lemma SettledShape(t: Table)
    requires Shaped(t)
    ensures Shaped(t.(inline := {}))
  {
  }

  lemma SettledOk(p: Platform, t: Table)
    requires TableOk(p, t)
    ensures TableOk(p, t.(inline := {}))
  {
  }

  lemma AbsentNative(p: Platform, eid: string, news: seq<Field>, t: Table, id: string)
    requires FieldById(news, id).None?
    ensures NativeView(p, eid, news, t, id) == Absent
  {
  }

  lemma IndexKeys(eid: string, fields: seq<Field>)
    ensures Indexes(eid, fields).Keys <= FieldIds(fields)
  {
  }

  lemma IndexIsNotTemp(db: Db, eid: string, pairs: set<(string, string)>)
    requires Named(db, pairs)
    ensures !IndexTaken(db, TempName(eid))
  {
    forall t, c, i | Holds(db, t, c, i) ensures i != TempName(eid) {
      assert IndexName(t, c)[0] == 'u' && TempName(eid)[0] == 'm';
    }
  }

  /** The names a rebuild gives are accepted once its new columns are. */
  lemma RebuildNames(p: Platform, db: Db, ne: Entity, pairs: set<(string, string)>)
    requires Lawful(p, db) && Named(db, pairs) && ne.id in db.tables && TempName(ne.id) !in db.tables
    requires UsableColumns(p, Columns(ne.fields))
    ensures NamesAccepted(p, db, ne)
  {
    hide UsableName, UsableColumns, Columns;
    IndexIsNotTemp(db, ne.id, pairs);
    var without := db.(tables := db.tables - {ne.id});
    forall t, c, i | Holds(without, t, c, i) ensures i != ne.id {
      assert Holds(db, t, c, i);
    }
  }

  /**
   * The fast path refines the slow one: on any difference that needs no rebuild and keeps the
   * bounds of surviving fields, whenever the native statements succeed, rebuilding the table
   * succeeds too and leaves the same database, every column, index, row and value; only where the
   * table's foreign keys are declared may differ. That is so as long as SQL can read the surviving
   * columns: a rebuild fails if one is no expression, and stores the time if one reads as the clock.
   */
  lemma NativeRefinesRebuild(p: Platform, db: Db, olds: seq<Entity>, news: seq<Entity>, ops: seq<Operation>, oe: Entity, ne: Entity, pairs: set<(string, string)>)
    requires WellFormed(olds) && WellFormed(news) && ne in news && EntityById(olds, ne.id) == Some(oe)
    requires ValidEntity(olds, oe) && ValidEntity(news, ne)
    requires SameChanges(ops, DiffOps(olds, news)) && NamesFit(db, olds, news, pairs) && Lawful(p, db)
    requires ne.id in db.tables && Matches(db.tables[ne.id], oe) && TableOk(p, db.tables[ne.id])
    requires TempName(ne.id) !in db.tables
    requires !NeedsRebuild(OpsOf(ops, ne.id)) && BoundsKept(oe, ne) && NoRemap(ne.fields, OpsOf(ops, ne.id))
    requires NativeOps(p, db, ne.id, OpsOf(ops, ne.id)).Ok?
    ensures ne.id in NativeOps(p, db, ne.id, OpsOf(ops, ne.id)).value.tables
    ensures Rebuild(p, db, oe, ne, OpsOf(ops, ne.id)).Ok? <==> !HasUnreadable(p, oe.fields, ne.fields)
    ensures !HasUnreadable(p, oe.fields, ne.fields) && Timeless(p, oe.fields, ne.fields) ==>
              Rebuild(p, db, oe, ne, OpsOf(ops, ne.id)) == Ok(Settled(NativeOps(p, db, ne.id, OpsOf(ops, ne.id)).value, ne.id))
  {
    hide DiffOps, EntityChanges, ColumnDef, KeepsDefinition, NeedsBackfill, ViewOf, NativeView, RebuiltRows, Columns, Indexes,
      NoRemap, Named, NamesDistinct, UniquePairs, TableOk, RowOk, OpsOf, WitnessOf, SelectFault, MustNotLose, LossyRows, Selectable, HasEmptyRemap, HasUnreadable, Timeless, LosesInformation, Shaped, FieldIds, AllCovered, Rebuild, NativeOps, RebuiltTable, NamesAccepted, Lawful, IndexName;
    var own := OpsOf(ops, ne.id);
    var t := db.tables[ne.id];
    assert oe in olds;
    PairsOfMember(olds, oe, pairs);
    PairsOfMember(news, ne, pairs);
    AddedEntities(olds, news, ops, ne);
    OwnOps(olds, news, ops, ne);
    assert SameChanges(own, EntityChanges(oe, ne));
    OkIsShaped(p, t);
    CarriedByMatch(t, oe);
    NativeOutcome(p, db, oe, ne, own, pairs);
    var after := NativeOps(p, db, ne.id, own).value;
    NativeOpsOfSameChanges(p, db, ne.id, own, EntityChanges(oe, ne));
    ChangesCovered(oe, ne, pairs);
    NativeOpsKeepOk(p, db, ne.id, EntityChanges(oe, ne), pairs);
    NativeOpsLawful(p, db, ne.id, own);
    WithoutRebuildDefinitionsStay(olds, news, ops, oe, ne);
    KeptColumns(olds, news, oe, ne, t);
    NativeCatalogue(p, ne.id, ne.fields, t, after.tables[ne.id]);
    ColumnsEqual(ne.fields, after.tables[ne.id].cols);
    NativeNames(p, db, after, ne, pairs);
    RebuildIsAllowed(p, oe.fields, ne.fields, own, t);
    if HasUnreadable(p, oe.fields, ne.fields) {
      UnreadableIsRefused(p, db, oe, ne, own);
    } else {
      RebuiltFits(p, oe, ne, own, t, after.tables[ne.id]);
      RebuildSucceeds(p, db, oe, ne, own, RebuiltTable(p, oe, ne, own, t), pairs);
      if Timeless(p, oe.fields, ne.fields) {
        SameTable(p, oe, ne, own, t, after.tables[ne.id]);
        RebuildOutcome(p, db, oe, ne, own, pairs);
        SetTwice(db, ne.id, after.tables[ne.id], after.tables[ne.id].(inline := {}));
        assert after == WithTable(db, ne.id, after.tables[ne.id]);
      }
    }
  }

  lemma UnreadableIsRefused(p: Platform, db: Db, oe: Entity, ne: Entity, ops: seq<Operation>)
    requires HasUnreadable(p, oe.fields, ne.fields)
    ensures Rebuild(p, db, oe, ne, ops).Err?
  {
    hide Columns, RebuiltRows, RowOk, LosesInformation, Selectable, IndexStmts, NamesAccepted, HasEmptyRemap, FieldIds;
  }

  /** What native statements have accepted, a rebuild's may use. */
  lemma NativeNames(p: Platform, db: Db, after: Db, ne: Entity, pairs: set<(string, string)>)
    requires Lawful(p, db) && Lawful(p, after) && Named(db, pairs) && TempName(ne.id) !in db.tables
    requires ne.id in db.tables && after.tables.Keys == db.tables.Keys
    requires after.tables[ne.id].cols == Columns(ne.fields) && after.tables[ne.id].indexes == Indexes(ne.id, ne.fields)
    ensures NamesAccepted(p, db, ne)
    ensures forall f | f in ne.fields && f.unique :: IndexName(ne.id, f.id) !in db.tables && Readable(p, f.id)
  {
    hide UsableTable, UsableColumns, Columns, Named, NamesAccepted, IndexName;
    RebuildNames(p, db, ne, pairs);
    forall f | f in ne.fields && f.unique ensures IndexName(ne.id, f.id) !in db.tables && Readable(p, f.id) {
      assert f.id in Indexes(ne.id, ne.fields);
      assert Holds(after, ne.id, f.id, IndexName(ne.id, f.id));
    }
  }

  lemma OkIsShaped(p: Platform, t: Table)
    requires TableOk(p, t)
    ensures Shaped(t)
  {
    forall r | r in t.rows ensures t.rows[r].cells.Keys == t.cols.Keys {
      assert RowOk(p, t.cols, t.rows[r]);
    }
  }

  lemma CarriedByMatch(t: Table, e: Entity)
    requires Matches(t, e) && Shaped(t) && DistinctFieldIds(e.fields)
    ensures Carries(t, e.id, e.fields)
  {
    hide ColumnDef;
    ColumnsOfFields(e.fields);
  }

  /** Fields that need no rebuild and keep their bounds keep their column definition. */
  lemma KeptColumns(olds: seq<Entity>, news: seq<Entity>, oe: Entity, ne: Entity, t: Table)
    requires ValidEntity(olds, oe) && ValidEntity(news, ne) && Matches(t, oe) && BoundsKept(oe, ne)
    requires forall nf | nf in ne.fields ::
               match FieldById(oe.fields, nf.id) case None => true case Some(of) => KeepsDefinition(of, nf)
    ensures forall nf | nf in ne.fields && nf.id in t.cols :: t.cols[nf.id] == ColumnDef(nf)
  {
    hide ColumnDef, KeepsDefinition;
    ColumnsOfFields(oe.fields);
    forall nf | nf in ne.fields && nf.id in t.cols ensures t.cols[nf.id] == ColumnDef(nf) {
      var of := FieldById(oe.fields, nf.id).value;
      DefinitionsEqual(olds, news, of, nf);
    }
  }

  lemma RebuildIsAllowed(p: Platform, olds: seq<Field>, news: seq<Field>, ops: seq<Operation>, t: Table)
    requires forall nf | nf in news ::
               match FieldById(olds, nf.id) case None => !NeedsBackfill(nf) case Some(of) => KeepsDefinition(of, nf)
    requires NoRemap(news, ops)
    ensures Selectable(olds, news, ops) && !HasEmptyRemap(olds, news, ops) && !LosesInformation(p, t, olds, news, ops)
  {
    hide SelectFault, MustNotLose, LossyRows, WitnessOf, KeepsDefinition, NeedsBackfill, HasKind, EmptyRemap;
    forall nf | nf in news
      ensures SelectFault(FieldById(olds, nf.id), nf, WitnessOf(ops, nf.id)).None?
      ensures !MustNotLose(FieldById(olds, nf.id), nf, WitnessOf(ops, nf.id))
      ensures !EmptyRemap(FieldById(olds, nf.id), nf, WitnessOf(ops, nf.id))
    {
      RebuiltCell(p, FieldById(olds, nf.id), nf, WitnessOf(ops, nf.id), NULL);
      NoRemapNotEmpty(FieldById(olds, nf.id), nf, WitnessOf(ops, nf.id));
    }
  }

  lemma NoRemapNotEmpty(of: Option<Field>, nf: Field, w: Option<Witness>)
    requires !(nf.typ.Enum? && HasKind(w, WitnessRemap))
    ensures !EmptyRemap(of, nf, w)
  {
  }

  lemma RebuildSucceeds(p: Platform, db: Db, oe: Entity, ne: Entity, ops: seq<Operation>, after: Table, pairs: set<(string, string)>)
    requires Ready(db, ne.id, pairs) && UniquePairs([ne]) <= pairs && DistinctFieldIds(ne.fields)
    requires db.tables[ne.id].cols.Keys == FieldIds(oe.fields) && NamesAccepted(p, db, ne)
    requires forall f | f in ne.fields && f.unique :: IndexName(ne.id, f.id) !in db.tables && Readable(p, f.id)
    requires Selectable(oe.fields, ne.fields, ops) && !HasEmptyRemap(oe.fields, ne.fields, ops) && !HasUnreadable(p, oe.fields, ne.fields)
    requires !LosesInformation(p, db.tables[ne.id], oe.fields, ne.fields, ops)
    requires RebuiltTable(p, oe, ne, ops, db.tables[ne.id]) == after && TableOk(p, after)
    ensures Rebuild(p, db, oe, ne, ops).Ok?
  {
    hide Columns, RebuiltRows, RowOk, NoDuplicates, Selectable, HasEmptyRemap, HasUnreadable, LosesInformation, Named, NamesDistinct, NamesAccepted, IndexStmts, UniquePairs, Indexes;
    var bare := Table(after.cols, map[], after.rows, {});
    RebuiltShape(p, oe.fields, ne.fields, ops, db.tables[ne.id].rows);
    NewTableIsReady(db, ne.id, bare, pairs);
    PairsOfEntity(ne, pairs);
    forall f | f in ne.fields ensures CanIndex(p, WithTable(db, ne.id, bare), ne.id, f, pairs) {
      IndexOfField(ne.id, ne.fields, f);
    }
    IndexStmtsSucceed(p, WithTable(db, ne.id, bare), ne.id, ne.fields, pairs);
  }
}

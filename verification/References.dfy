/**
 * What a migration does to the rows' constraints: every row that is left satisfies its columns and
 * unique indexes, and no reference is left dangling, or nothing changes at all.
 */
module References {
  import opened Results
  import opened Schema
  import opened Sql
  import opened Materialize
  import opened Changesets
  import opened Witnesses
  import opened Diffs
  import opened Executor
  import opened Views
  import opened NativePath
  import opened Migration
  import opened WholeMigration
  import opened Reach
  import opened FastSlow
  import opened Lossless
  import opened Fingerprints
  import opened RowCodec
  import opened DomainSound

  // ----- NOT NULL, CHECKs and unique indexes -----

  lemma WithTableOk(p: Platform, db: Db, name: string, t: Table)
    requires DbOk(p, db) && TableOk(p, t)
    ensures DbOk(p, WithTable(db, name, t))
  {
    hide TableOk;
  }

  lemma EmptyTableOk(p: Platform, cols: map<string, Column>)
    ensures TableOk(p, Table(cols, map[], map[], {}))
  {
  }

  lemma WidenedOk(p: Platform, t: Table, col: string, def: Column, dflt: Value)
    requires TableOk(p, t) && col !in t.cols
    requires t.rows != map[] ==> Satisfies(p, col, def, Stored(p, def.affinity, dflt))
    ensures TableOk(p, Widened(p, t, col, def, dflt))
  {
    hide Satisfies, Stored, RowOk, NoDuplicates, Widened;
    var after := Widened(p, t, col, def, dflt);
    WidenedRows(p, t, col, def, dflt);
    forall r | r in after.rows ensures RowOk(p, after.cols, after.rows[r]) {
      WidenedRowOk(p, t, col, def, dflt, r);
    }
    forall c | c in after.indexes ensures NoDuplicates(after.rows, c) {
      WidenedUnique(p, t, col, def, dflt, c);
    }
  }

  lemma WidenedRows(p: Platform, t: Table, col: string, def: Column, dflt: Value)
    requires t.indexes.Keys <= t.cols.Keys && t.inline <= t.cols.Keys
    ensures var after := Widened(p, t, col, def, dflt);
            && after.rows.Keys == t.rows.Keys && after.indexes == t.indexes
            && after.indexes.Keys <= after.cols.Keys && after.inline <= after.cols.Keys
  {
    hide Stored;
  }

  lemma WidenedRowOk(p: Platform, t: Table, col: string, def: Column, dflt: Value, r: string)
    requires r in t.rows && RowOk(p, t.cols, t.rows[r]) && Satisfies(p, col, def, Stored(p, def.affinity, dflt))
    ensures r in Widened(p, t, col, def, dflt).rows
    ensures RowOk(p, Widened(p, t, col, def, dflt).cols, Widened(p, t, col, def, dflt).rows[r])
  {
    hide Satisfies, Stored;
    StoredIsStable(p, def.affinity, dflt);
  }

  lemma WidenedUnique(p: Platform, t: Table, col: string, def: Column, dflt: Value, c: string)
    requires NoDuplicates(t.rows, c) && c != col
    ensures NoDuplicates(Widened(p, t, col, def, dflt).rows, c)
  {
    hide Stored;
  }

  lemma NarrowedOk(p: Platform, t: Table, col: string)
    requires TableOk(p, t) && col !in t.indexes
    ensures TableOk(p, Narrowed(t, col))
  {
    hide Satisfies, Stored;
    var after := Narrowed(t, col);
    forall r | r in after.rows ensures RowOk(p, after.cols, after.rows[r]) {
      assert RowOk(p, t.cols, t.rows[r]);
    }
    forall c | c in after.indexes ensures NoDuplicates(after.rows, c) {
      assert NoDuplicates(t.rows, c);
    }
  }

  lemma CreateIndexOk(p: Platform, db: Db, index: string, name: string, col: string)
    requires DbOk(p, db) && RunCreateUniqueIndex(p, db, index, name, col).Ok?
    ensures DbOk(p, RunCreateUniqueIndex(p, db, index, name, col).value)
  {
    hide RowOk, NoDuplicates;
  }

  lemma DropIndexOk(p: Platform, db: Db, index: string)
    requires DbOk(p, db) && RunDropIndex(db, index).Ok?
    ensures DbOk(p, RunDropIndex(db, index).value)
  {
    hide RowOk, NoDuplicates, IndexTaken;
    var after := RunDropIndex(db, index).value;
    forall t | t in after.tables ensures TableOk(p, after.tables[t]) {
      assert TableOk(p, db.tables[t]);
    }
  }

  lemma AddColumnOk(p: Platform, db: Db, name: string, col: string, def: Column, dflt: Value)
    requires DbOk(p, db) && RunAddColumn(p, db, name, col, def, dflt).Ok?
    ensures DbOk(p, RunAddColumn(p, db, name, col, def, dflt).value)
  {
    hide TableOk, Widened, Satisfies, UsableColumn, Stored;
    WidenedOk(p, db.tables[name], col, def, dflt);
    WithTableOk(p, db, name, Widened(p, db.tables[name], col, def, dflt));
  }

  lemma DropColumnOk(p: Platform, db: Db, name: string, col: string)
    requires DbOk(p, db) && RunDropColumn(db, name, col).Ok?
    ensures DbOk(p, RunDropColumn(db, name, col).value)
  {
    hide TableOk, Narrowed;
    NarrowedOk(p, db.tables[name], col);
    WithTableOk(p, db, name, Narrowed(db.tables[name], col));
  }

  lemma NativeOpOk(p: Platform, db: Db, eid: string, change: Change)
    requires DbOk(p, db) && NativeOp(p, db, eid, change).Ok?
    ensures DbOk(p, NativeOp(p, db, eid, change).value)
  {
    hide DbOk, RunAddColumn, RunDropColumn, RunCreateUniqueIndex, RunDropIndex, ColumnDef, DefaultLiteral;
    match change
    case AddField(f) =>
      AddColumnOk(p, db, eid, f.id, ColumnDef(f), DefaultLiteral(p, f));
      if f.unique {
        CreateIndexOk(p, RunAddColumn(p, db, eid, f.id, ColumnDef(f), DefaultLiteral(p, f)).value, IndexName(eid, f.id), eid, f.id);
      }
    case DropField(f) =>
      DropColumnOk(p, db, eid, f.id);
    case ChangeUnique(_, f) =>
      if f.unique {
        CreateIndexOk(p, db, IndexName(eid, f.id), eid, f.id);
      } else {
        DropIndexOk(p, db, IndexName(eid, f.id));
      }
    case _ =>
  }

  lemma {:induction false} NativeOpsOk(p: Platform, db: Db, eid: string, ops: seq<Operation>)
    requires DbOk(p, db) && NativeOps(p, db, eid, ops).Ok?
    ensures DbOk(p, NativeOps(p, db, eid, ops).value)
  {
    hide DbOk, NativeOp;
    if ops != [] {
      NativeOpsOk(p, db, eid, ops[..|ops| - 1]);
      NativeOpOk(p, NativeOps(p, db, eid, ops[..|ops| - 1]).value, eid, ops[|ops| - 1].change);
    }
  }

  lemma {:induction false} IndexesOk(p: Platform, stmts: seq<Stmt>, db: Db)
    requires DbOk(p, db) && RunAll(p, stmts, db).Ok? && forall s | s in stmts :: s.CreateUniqueIndex?
    ensures DbOk(p, RunAll(p, stmts, db).value)
  {
    hide DbOk, RunCreateUniqueIndex;
    if stmts != [] {
      var s := stmts[|stmts| - 1];
      assert s in stmts;
      IndexesOk(p, stmts[..|stmts| - 1], db);
      CreateIndexOk(p, RunAll(p, stmts[..|stmts| - 1], db).value, s.index, s.name, s.col);
    }
  }

  lemma {:induction false} IndexStmtsAreIndexes(eid: string, table: string, fields: seq<Field>)
    ensures forall s | s in IndexStmts(eid, table, fields) :: s.CreateUniqueIndex?
  {
    hide IndexName;
    if fields != [] {
      IndexStmtsAreIndexes(eid, table, fields[..|fields| - 1]);
    }
  }

  lemma CreateEntityOk(p: Platform, db: Db, e: Entity)
    requires DbOk(p, db) && CreateEntity(p, db, e).Ok?
    ensures DbOk(p, CreateEntity(p, db, e).value)
  {
    hide TableOk, Columns, IndexStmts, UsableTable, UsableColumns, IndexTaken;
    EmptyTableOk(p, Columns(e.fields));
    WithTableOk(p, db, e.id, Table(Columns(e.fields), map[], map[], {}));
    IndexStmtsAreIndexes(e.id, e.id, e.fields);
    IndexesOk(p, IndexStmts(e.id, e.id, e.fields), RunCreateTable(p, db, e.id, Columns(e.fields), true).value);
  }

  lemma RebuildOk(p: Platform, db: Db, oe: Entity, ne: Entity, ops: seq<Operation>)
    requires DbOk(p, db) && Rebuild(p, db, oe, ne, ops).Ok?
    ensures DbOk(p, Rebuild(p, db, oe, ne, ops).value)
  {
    hide RowOk, Columns, RebuiltRows, IndexStmts, LosesInformation, NamesAccepted, Selectable, HasEmptyRemap, HasUnreadable, FieldIds, DbOk;
    var bare := Table(Columns(ne.fields), map[], RebuiltRows(p, oe.fields, ne.fields, ops, db.tables[ne.id].rows), {});
    WithTableOk(p, db, ne.id, bare);
    IndexStmtsAreIndexes(ne.id, ne.id, ne.fields);
    IndexesOk(p, IndexStmts(ne.id, ne.id, ne.fields), WithTable(db, ne.id, bare));
  }

  lemma {:induction false} CreateAddedOk(p: Platform, db: Db, news: seq<Entity>, ops: seq<Operation>)
    requires DbOk(p, db) && CreateAdded(p, db, news, ops).Ok?
    ensures DbOk(p, CreateAdded(p, db, news, ops).value)
  {
    hide DbOk, CreateEntity, Adds;
    if news != [] {
      CreateAddedOk(p, db, news[..|news| - 1], ops);
      var before, e := CreateAdded(p, db, news[..|news| - 1], ops).value, news[|news| - 1];
      if Adds(ops, e.id) {
        CreateEntityOk(p, before, e);
      }
    }
  }

  lemma {:induction false} ChangeEntitiesOk(p: Platform, db: Db, olds: seq<Entity>, news: seq<Entity>, ops: seq<Operation>)
    requires DbOk(p, db) && ChangeEntities(p, db, olds, news, ops).Ok?
    ensures DbOk(p, ChangeEntities(p, db, olds, news, ops).value)
  {
    hide DbOk, Rebuild, NativeOps, NeedsRebuild, OpsOf, Adds;
    if news != [] {
      ChangeEntitiesOk(p, db, olds, news[..|news| - 1], ops);
      var before, e := ChangeEntities(p, db, olds, news[..|news| - 1], ops).value, news[|news| - 1];
      var own, oe := OpsOf(ops, e.id), EntityById(olds, e.id);
      if !Adds(ops, e.id) && own != [] {
        if NeedsRebuild(own) {
          RebuildOk(p, before, oe.value, e, own);
        } else {
          NativeOpsOk(p, before, e.id, own);
        }
      }
    }
  }

  lemma {:induction false} DropRemovedOk(p: Platform, db: Db, olds: seq<Entity>, ops: seq<Operation>)
    requires DbOk(p, db) && DropRemoved(p, db, olds, ops).Ok?
    ensures DbOk(p, DropRemoved(p, db, olds, ops).value)
  {
    hide TableOk, Drops;
    if olds != [] {
      DropRemovedOk(p, db, olds[..|olds| - 1], ops);
    }
  }

  /** A migration leaves only rows that satisfy their columns, CHECKs and unique indexes, whatever the changeset. */
  lemma MigrationKeepsRowsOk(p: Platform, db: Db, oldApp: App, newApp: App, ops: seq<Operation>, commits: bool)
    requires DbOk(p, db) && Executed(p, db, oldApp, newApp, ops, commits).Ok?
    ensures DbOk(p, Executed(p, db, oldApp, newApp, ops, commits).value)
  {
    hide TableOk, CreateAdded, ChangeEntities, DropRemoved, AllRenames, ForeignKeysHold;
    var olds, news := oldApp.entities, newApp.entities;
    if !AllRenames(ops) {
      CreateAddedOk(p, db, news, ops);
      var created := CreateAdded(p, db, news, ops).value;
      ChangeEntitiesOk(p, created, olds, news, ops);
      var changed := ChangeEntities(p, created, olds, news, ops).value;
      DropRemovedOk(p, changed, olds, ops);
    }
  }

  // ----- references -----

  /** Every reference a row holds names a row that exists, of the entity the field refers to. */
  predicate ReferencesHold(db: Db, app: App) {
    forall e, f, r | e in app.entities && f in e.fields && f.typ.Reference? && e.id in db.tables && r in db.tables[e.id].rows ::
      RefersToRow(db, f.target, Cell(db.tables[e.id].rows[r].cells, f.id))
  }

  lemma ColumnRefers(db: Db, app: App, e: Entity, f: Field)
    requires ValidApp(app) && CatalogueButBounds(db, app) && e in app.entities && f in e.fields
    ensures e.id in db.tables && f.id in db.tables[e.id].cols
    ensures f.typ.Reference? ==> db.tables[e.id].cols[f.id].fk == Some(ForeignKey(f.target, f.onDelete))
    ensures !f.typ.Reference? ==> db.tables[e.id].cols[f.id].fk == None
  {
    hide ValidEntity, CatalogueButBounds, MatchesButBounds, ColumnDef, WithoutBounds, FieldIds;
    MemberMatches(db, app, e);
    DistinctIn(app.entities, e);
    MatchingColumns(db.tables[e.id], e);
    IdOfField(e.fields, f);
    ForeignKeyOf(f);
    KeyWithoutBounds(db.tables[e.id].cols[f.id], ColumnDef(f));
  }

  lemma KeyWithoutBounds(c: Column, d: Column)
    requires WithoutBounds(c) == WithoutBounds(d)
    ensures c.fk == d.fk
  {
  }

  /** On a database with the manifest's catalogue, foreign_key_check is a check of the manifest's references. */
  lemma CheckIsOfReferences(db: Db, app: App)
    requires ValidApp(app) && CatalogueButBounds(db, app) && WellShaped(db)
    ensures ForeignKeysHold(db) <==> ReferencesHold(db, app)
  {
    hide ValidApp, CatalogueButBounds, RefersToRow;
    if ForeignKeysHold(db) {
      forall e, f, r | e in app.entities && f in e.fields && f.typ.Reference? && e.id in db.tables && r in db.tables[e.id].rows
        ensures RefersToRow(db, f.target, Cell(db.tables[e.id].rows[r].cells, f.id))
      {
        ColumnRefers(db, app, e, f);
        assert Shaped(db.tables[e.id]);
      }
    }
    if ReferencesHold(db, app) {
      forall t, r, c | t in db.tables && r in db.tables[t].rows && c in db.tables[t].cols
                       && db.tables[t].cols[c].fk.Some? && c in db.tables[t].rows[r].cells
        ensures RefersToRow(db, db.tables[t].cols[c].fk.value.target, db.tables[t].rows[r].cells[c])
      {
        var e, f := FieldOfColumn(db, app, t, c);
        ColumnRefers(db, app, e, f);
      }
    }
  }

  lemma FieldOfColumn(db: Db, app: App, t: string, c: string) returns (e: Entity, f: Field)
    requires CatalogueButBounds(db, app) && t in db.tables && c in db.tables[t].cols
    ensures e in app.entities && e.id == t && f in e.fields && f.id == c
  {
    e :| e in app.entities && e.id == t;
    assert c in Columns(e.fields);
    f :| f in e.fields && f.id == c;
  }

  // ----- a migration's references -----

  lemma AppliedReaches(p: Platform, db: Db, oldApp: App, newApp: App, ops: seq<Operation>)
    requires ValidApp(oldApp) && ValidApp(newApp) && NoNameClash(oldApp.entities, newApp.entities)
    requires CatalogueButBounds(db, oldApp) && WellShaped(db) && SameChanges(ops, DiffOps(oldApp.entities, newApp.entities))
    requires ApplyOps(p, db, oldApp.entities, newApp.entities, ops).Ok?
    ensures var after := ApplyOps(p, db, oldApp.entities, newApp.entities, ops).value;
            && Reached(p, db, after, oldApp.entities, newApp.entities, ops)
            && CatalogueButBounds(after, newApp) && WellShaped(after)
  {
    hide DiffOps, ApplyOps, MatchesButBounds, Carries, Survived, FreshTable, NamesDistinct, UniquePairs, CatalogueIs, ValidEntity, Named;
    var olds, news := oldApp.entities, newApp.entities;
    var after := ApplyOps(p, db, olds, news, ops).value;
    ValidIsWellFormed(oldApp);
    ValidIsWellFormed(newApp);
    ButBoundsCarries(db, oldApp);
    CatalogueIsNamed(db, oldApp, UniquePairs(olds) + UniquePairs(news));
    ApplyOutcome(p, db, olds, news, ops, UniquePairs(olds) + UniquePairs(news));
    forall ne | ne in news ensures ne.id in after.tables && MatchesButBounds(after.tables[ne.id], ne) && Shaped(after.tables[ne.id]) {
      EntityReaches(p, db, after, oldApp, newApp, ops, ne);
      CarriesShaped(after.tables[ne.id], ne.id, ne.fields);
    }
    forall t | t in after.tables ensures Shaped(after.tables[t]) {
      var ne :| ne in news && ne.id == t;
    }
  }

  /**
   * The integrity gate, exactly. A changeset whose statements all run, and which runs any, is
   * committed if and only if every reference of the new manifest that a row then holds names a row
   * that exists; otherwise the migration fails.
   */
  lemma ReferencesDecide(p: Platform, db: Db, oldApp: App, newApp: App, ops: seq<Operation>)
    requires ValidApp(oldApp) && ValidApp(newApp) && NoNameClash(oldApp.entities, newApp.entities)
    requires CatalogueButBounds(db, oldApp) && WellShaped(db) && SameChanges(ops, DiffOps(oldApp.entities, newApp.entities))
    requires ApplyOps(p, db, oldApp.entities, newApp.entities, ops).Ok? && !AllRenames(ops)
    ensures Executed(p, db, oldApp, newApp, ops, true).Ok? <==>
            ReferencesHold(ApplyOps(p, db, oldApp.entities, newApp.entities, ops).value, newApp)
    ensures Executed(p, db, oldApp, newApp, ops, false).Err?
  {
    hide DiffOps, ApplyOps, AllRenames, ForeignKeysHold, ReferencesHold, ValidApp, NoNameClash, CatalogueButBounds, Reached;
    var applied := ApplyOps(p, db, oldApp.entities, newApp.entities, ops).value;
    AppliedReaches(p, db, oldApp, newApp, ops);
    CheckIsOfReferences(applied, newApp);
    SameTablesSameKeys(applied, applied.(fingerprint := Some(CanonicalText(p.num, newApp))));
  }

  lemma SameTablesSameKeys(a: Db, b: Db)
    requires a.tables == b.tables
    ensures ForeignKeysHold(a) <==> ForeignKeysHold(b)
  {
  }

  /** Whatever path each entity takes, a migration that succeeds leaves no reference dangling. */
  lemma MigrationKeepsReferences(p: Platform, db: Db, oldApp: App, newApp: App, ops: seq<Operation>, commits: bool)
    requires ValidApp(oldApp) && ValidApp(newApp) && NoNameClash(oldApp.entities, newApp.entities)
    requires CatalogueButBounds(db, oldApp) && WellShaped(db) && SameChanges(ops, DiffOps(oldApp.entities, newApp.entities))
    requires ReferencesHold(db, oldApp) && Executed(p, db, oldApp, newApp, ops, commits).Ok?
    ensures ReferencesHold(Executed(p, db, oldApp, newApp, ops, commits).value, newApp)
  {
    hide DiffOps, ApplyOps, AllRenames, ForeignKeysHold, ReferencesHold, ValidApp, NoNameClash, CatalogueButBounds, WellShaped, BoundsReach, CatalogueIs;
    var after := Executed(p, db, oldApp, newApp, ops, commits).value;
    MigrationReachesTarget(p, db, oldApp, newApp, ops, commits);
    CheckIsOfReferences(db, oldApp);
    CheckIsOfReferences(after, newApp);
  }

  // ----- a reference that would dangle -----

  lemma MigratedRowsStay(p: Platform, t: Table, after: Table, oe: Entity, ne: Entity, own: seq<Operation>)
    requires Migrated(p, t, after, oe, ne, own)
    ensures after.rows.Keys == t.rows.Keys
  {
    hide RebuiltRow, Columns, Indexes, Selectable, LosesInformation, AllRowsOk, ViewOf, NativeView;
    if NeedsRebuild(own) {
      RebuiltShape(p, oe.fields, ne.fields, own, t.rows);
    }
  }

  lemma TextIsKept(p: Platform, of: Field, nf: Field, w: Option<Witness>, s: string)
    requires nf.typ.Reference? && SelectFault(Some(of), nf, w).None?
    ensures Stored(p, ColumnDef(nf).affinity, Declared(p, Some(of), nf, w, TEXT(s))) == TEXT(s)
  {
    hide SqlLiteral;
  }

  /** Text in a surviving field that is now a reference stays what it was. */
  lemma ReferenceIsKept(p: Platform, t: Table, after: Table, oe: Entity, ne: Entity, own: seq<Operation>, of: Field, nf: Field, r: string, s: string)
    requires Migrated(p, t, after, oe, ne, own) && DistinctFieldIds(ne.fields)
    requires nf in ne.fields && nf.typ.Reference? && FieldById(oe.fields, nf.id) == Some(of) && nf.id !in p.clock
    requires nf.id in t.cols && r in t.rows && Cell(t.rows[r].cells, nf.id) == TEXT(s)
    ensures r in after.rows && Cell(after.rows[r].cells, nf.id) == TEXT(s)
  {
    hide RebuiltRow, Columns, Indexes, LosesInformation, AllRowsOk, ColumnDef, Stored, Declared, WitnessOf, SelectFault, Filled;
    MigratedRowsStay(p, t, after, oe, ne, own);
    FieldByIdFinds(ne.fields, nf);
    if NeedsRebuild(own) {
      RebuiltRowCell(p, oe.fields, ne.fields, own, t.rows[r], nf);
      TextIsKept(p, of, nf, WitnessOf(own, nf.id), s);
    } else {
      assert ViewOf(after, nf.id) == NativeView(p, ne.id, ne.fields, t, nf.id);
      assert CellsOf(after.rows, nf.id)[r] == CellsOf(t.rows, nf.id)[r];
    }
  }

  /** The rows of the target entity, after the migration, are those it had before; a new entity has none. */
  predicate NamesOldRow(db: Db, olds: seq<Entity>, target: string, s: string) {
    target in EntityIds(olds) && target in db.tables && s in db.tables[target].rows
  }

  lemma TargetRows(p: Platform, db: Db, after: Db, olds: seq<Entity>, news: seq<Entity>, ops: seq<Operation>, target: string, s: string)
    requires Reached(p, db, after, olds, news, ops) && target in EntityIds(news)
    requires target in after.tables && s in after.tables[target].rows
    ensures NamesOldRow(db, olds, target, s)
  {
    hide Migrated, Columns, Indexes, OpsOf;
    var ne :| ne in news && ne.id == target;
    if ne.id in EntityIds(olds) {
      assert Survived(p, db, after, olds, ne, ops);
      MigratedRowsStay(p, db.tables[target], after.tables[target], EntityById(olds, target).value, ne, OpsOf(ops, target));
    }
  }

  /**
   * One row that would be left referring to a row that is not there fails the migration: its text
   * stays what it was, whatever witness is attached, and the target has no row of that id.
   */
  lemma DanglingReferenceFails(p: Platform, db: Db, oldApp: App, newApp: App, ops: seq<Operation>, commits: bool,
                               oe: Entity, ne: Entity, of: Field, nf: Field, r: string, s: string)
    requires ValidApp(oldApp) && ValidApp(newApp) && NoNameClash(oldApp.entities, newApp.entities)
    requires CatalogueButBounds(db, oldApp) && WellShaped(db) && SameChanges(ops, DiffOps(oldApp.entities, newApp.entities))
    requires ReferencesHold(db, oldApp)
    requires ne in newApp.entities && EntityById(oldApp.entities, ne.id) == Some(oe)
    requires nf in ne.fields && nf.typ.Reference? && FieldById(oe.fields, nf.id) == Some(of) && nf.id !in p.clock
    requires ne.id in db.tables && r in db.tables[ne.id].rows && Cell(db.tables[ne.id].rows[r].cells, nf.id) == TEXT(s)
    requires !NamesOldRow(db, oldApp.entities, nf.target, s)
    ensures Executed(p, db, oldApp, newApp, ops, commits).Err?
  {
    hide DiffOps, Executed, Migrated, NoNameClash, OpsOf, CatalogueButBounds, WellShaped, ValidEntity, NamesOldRow;
    if Executed(p, db, oldApp, newApp, ops, commits).Ok? {
      var after := Executed(p, db, oldApp, newApp, ops, commits).value;
      MigrationKeepsReferences(p, db, oldApp, newApp, ops, commits);
      ExecuteReaches(p, db, oldApp, newApp, ops, commits);
      assert Survived(p, db, after, oldApp.entities, ne, ops);
      DistinctIn(newApp.entities, ne);
      assert oe in oldApp.entities && of in oe.fields;
      ColumnRefers(db, oldApp, oe, of);
      ReferenceIsKept(p, db.tables[ne.id], after.tables[ne.id], oe, ne, OpsOf(ops, ne.id), of, nf, r, s);
      assert RefersToRow(after, nf.target, TEXT(s));
      TargetIsDeclared(newApp, ne, nf);
      TargetRows(p, db, after, oldApp.entities, newApp.entities, ops, nf.target, s);
    }
  }

  lemma TargetIsDeclared(app: App, e: Entity, f: Field)
    requires ValidApp(app) && e in app.entities && f in e.fields && f.typ.Reference?
    ensures f.target in EntityIds(app.entities)
  {
    hide IsIdentifier;
    assert ValidField(app.entities, f);
  }

  // ----- rows over migrations and writes -----

  lemma OkRowsAreShaped(p: Platform, db: Db)
    requires DbOk(p, db)
    ensures WellShaped(db)
  {
    hide TableOk, Shaped;
    forall t | t in db.tables ensures Shaped(db.tables[t]) {
      OkIsShaped(p, db.tables[t]);
    }
  }

  /**
   * What the data API keeps of every row, a migration keeps too: from a sound database, a migration
   * that succeeds (and through which no bounds moved natively) leaves a sound database of the new manifest.
   */
  lemma MigrationStaysSound(p: Platform, db: Db, oldApp: App, newApp: App, ops: seq<Operation>, commits: bool)
    requires ValidApp(oldApp) && ValidApp(newApp) && NoNameClash(oldApp.entities, newApp.entities)
    requires SameChanges(ops, DiffOps(oldApp.entities, newApp.entities)) && Sound(p, db, oldApp)
    requires (forall ne | ne in newApp.entities :: AllReadable(p, ne) && BoundsReach(oldApp.entities, ne, ops))
    requires Executed(p, db, oldApp, newApp, ops, commits).Ok?
    ensures Sound(p, Executed(p, db, oldApp, newApp, ops, commits).value, newApp)
  {
    hide DiffOps, Executed, ValidApp, NoNameClash, BoundsReach, AllReadable, ForeignKeysHold, ReferencesHold, CatalogueIs, CatalogueButBounds, DbOk, WellShaped;
    var after := Executed(p, db, oldApp, newApp, ops, commits).value;
    OkRowsAreShaped(p, db);
    ExactButBounds(db, oldApp);
    MigrationReachesTarget(p, db, oldApp, newApp, ops, commits);
    MigrationKeepsRowsOk(p, db, oldApp, newApp, ops, commits);
    CheckIsOfReferences(db, oldApp);
    MigrationKeepsReferences(p, db, oldApp, newApp, ops, commits);
    ExactButBounds(after, newApp);
    CheckIsOfReferences(after, newApp);
  }
}

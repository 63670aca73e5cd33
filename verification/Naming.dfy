/** The names in a database: SQL must be able to spell them, and tables and indexes share one namespace. */
module Naming {
  import opened Results
  import opened Schema
  import opened Sql
  import opened Materialize
  import opened MaterializeFresh
  import opened Changesets
  import opened Witnesses
  import opened Executor

  // ----- what every statement keeps -----

  predicate Spelled(p: Platform, db: Db) {
    forall t | t in db.tables ::
      && UsableTable(p, t) && UsableColumns(p, db.tables[t].cols)
      && forall c | c in db.tables[t].indexes :: Readable(p, c)
  }

  /** No index is named like a table. */
  ghost predicate Apart(db: Db) {
    forall t, c, i | Holds(db, t, c, i) :: i !in db.tables
  }

  /** What SQLite guarantees of the names in any database. */
  ghost predicate Lawful(p: Platform, db: Db) {
    Spelled(p, db) && Apart(db)
  }

  lemma EmptyIsLawful(p: Platform)
    ensures Lawful(p, EMPTY_DB)
  {
  }

  lemma NotTaken(db: Db, name: string)
    requires !IndexTaken(db, name)
    ensures forall t, c, i | Holds(db, t, c, i) :: i != name
  {
    forall t, c, i | Holds(db, t, c, i) ensures i != name {
      assert t in db.tables && c in db.tables[t].indexes;
    }
  }

  /** A table that is new under a free name, or replaces one with as few indexes. */
  lemma TableIsLawful(p: Platform, db: Db, name: string, t: Table)
    requires Lawful(p, db) && UsableTable(p, name) && UsableColumns(p, t.cols)
    requires name in db.tables || !IndexTaken(db, name)
    requires forall c | c in t.indexes :: name in db.tables && c in db.tables[name].indexes && db.tables[name].indexes[c] == t.indexes[c]
    ensures Lawful(p, WithTable(db, name, t))
  {
    hide UsableTable, UsableColumns;
    var after := WithTable(db, name, t);
    forall u, c, i | Holds(after, u, c, i) ensures i !in after.tables {
      assert Holds(db, u, c, i);
      if name !in db.tables {
        NotTaken(db, name);
      }
    }
  }

  lemma FewerTablesLawful(p: Platform, db: Db, name: string)
    requires Lawful(p, db)
    ensures Lawful(p, db.(tables := db.tables - {name}))
  {
    hide UsableTable, UsableColumns;
    var after := db.(tables := db.tables - {name});
    forall u, c, i | Holds(after, u, c, i) ensures i !in after.tables {
      assert Holds(db, u, c, i);
    }
  }

  lemma CreateTableLawful(p: Platform, db: Db, name: string, cols: map<string, Column>, ifNotExists: bool)
    requires Lawful(p, db) && RunCreateTable(p, db, name, cols, ifNotExists).Ok?
    ensures Lawful(p, RunCreateTable(p, db, name, cols, ifNotExists).value)
    ensures UsableTable(p, name) && UsableColumns(p, cols)
  {
    hide Lawful, UsableTable, UsableColumns, IndexTaken;
    if name !in db.tables {
      TableIsLawful(p, db, name, Table(cols, map[], map[], {}));
    }
  }

  lemma AddColumnLawful(p: Platform, db: Db, name: string, col: string, def: Column, dflt: Value)
    requires Lawful(p, db) && RunAddColumn(p, db, name, col, def, dflt).Ok?
    ensures Lawful(p, RunAddColumn(p, db, name, col, def, dflt).value)
  {
    hide Stored, Satisfies, UsableTable;
    var t := db.tables[name];
    assert (map[col := def])[col] == def;
    TableIsLawful(p, db, name, Widened(p, t, col, def, dflt));
  }

  lemma DropColumnLawful(p: Platform, db: Db, name: string, col: string)
    requires Lawful(p, db) && RunDropColumn(db, name, col).Ok?
    ensures Lawful(p, RunDropColumn(db, name, col).value)
  {
    hide UsableTable;
    TableIsLawful(p, db, name, Narrowed(db.tables[name], col));
  }

  lemma CreateIndexLawful(p: Platform, db: Db, index: string, name: string, col: string)
    requires Lawful(p, db) && RunCreateUniqueIndex(p, db, index, name, col).Ok?
    ensures Lawful(p, RunCreateUniqueIndex(p, db, index, name, col).value)
    ensures index !in db.tables && RunCreateUniqueIndex(p, db, index, name, col).value.tables.Keys == db.tables.Keys
  {
    hide UsableTable, UsableColumns, NoDuplicates;
    var after := RunCreateUniqueIndex(p, db, index, name, col).value;
    forall u, c, i | Holds(after, u, c, i) ensures i !in after.tables {
      if i != index {
        assert Holds(db, u, c, i);
      }
    }
  }

  lemma DropIndexLawful(p: Platform, db: Db, index: string)
    requires Lawful(p, db) && RunDropIndex(db, index).Ok?
    ensures Lawful(p, RunDropIndex(db, index).value)
  {
    hide UsableTable, UsableColumns, IndexTaken;
    var after := RunDropIndex(db, index).value;
    forall u, c, i | Holds(after, u, c, i) ensures i !in after.tables {
      assert Holds(db, u, c, i);
    }
  }

  // ----- what a migration keeps -----

  lemma NativeOpLawful(p: Platform, db: Db, eid: string, change: Change)
    requires Lawful(p, db) && NativeOp(p, db, eid, change).Ok?
    ensures Lawful(p, NativeOp(p, db, eid, change).value)
  {
    hide Lawful, RunAddColumn, RunDropColumn, RunCreateUniqueIndex, RunDropIndex, ColumnDef, DefaultLiteral;
    match change
    case AddField(f) =>
      AddColumnLawful(p, db, eid, f.id, ColumnDef(f), DefaultLiteral(p, f));
      if f.unique {
        CreateIndexLawful(p, RunAddColumn(p, db, eid, f.id, ColumnDef(f), DefaultLiteral(p, f)).value, IndexName(eid, f.id), eid, f.id);
      }
    case DropField(f) =>
      DropColumnLawful(p, db, eid, f.id);
    case ChangeUnique(_, f) =>
      if f.unique {
        CreateIndexLawful(p, db, IndexName(eid, f.id), eid, f.id);
      } else {
        DropIndexLawful(p, db, IndexName(eid, f.id));
      }
    case _ =>
  }

  lemma {:induction false} NativeOpsLawful(p: Platform, db: Db, eid: string, ops: seq<Operation>)
    requires Lawful(p, db) && NativeOps(p, db, eid, ops).Ok?
    ensures Lawful(p, NativeOps(p, db, eid, ops).value)
  {
    hide Lawful, NativeOp;
    if ops != [] {
      NativeOpsLawful(p, db, eid, ops[..|ops| - 1]);
      NativeOpLawful(p, NativeOps(p, db, eid, ops[..|ops| - 1]).value, eid, ops[|ops| - 1].change);
    }
  }

  /** Indexes that were created are not named like tables, and creating them adds and drops no table. */
  lemma {:induction false} IndexStmtsLawful(p: Platform, db: Db, eid: string, fields: seq<Field>)
    requires Lawful(p, db) && RunAll(p, IndexStmts(eid, eid, fields), db).Ok?
    ensures var after := RunAll(p, IndexStmts(eid, eid, fields), db).value;
            && Lawful(p, after) && after.tables.Keys == db.tables.Keys
            && forall f | f in fields && f.unique :: IndexName(eid, f.id) !in db.tables
  {
    hide Lawful, RunCreateUniqueIndex, IndexName;
    if fields != [] {
      var rest, f := fields[..|fields| - 1], fields[|fields| - 1];
      assert forall g | g in fields :: g in rest || g == f;
      if f.unique {
        RunAllAppend(p, IndexStmts(eid, eid, rest), [CreateUniqueIndex(IndexName(eid, f.id), eid, f.id)], db);
        IndexStmtsLawful(p, db, eid, rest);
        var mid := RunAll(p, IndexStmts(eid, eid, rest), db).value;
        OneIndex(p, mid, eid, f.id);
        CreateIndexLawful(p, mid, IndexName(eid, f.id), eid, f.id);
      } else {
        IndexStmtsLawful(p, db, eid, rest);
      }
    }
  }

  lemma OneIndex(p: Platform, db: Db, eid: string, c: string)
    ensures RunAll(p, [CreateUniqueIndex(IndexName(eid, c), eid, c)], db) == RunCreateUniqueIndex(p, db, IndexName(eid, c), eid, c)
  {
    hide RunCreateUniqueIndex;
    var stmts := [CreateUniqueIndex(IndexName(eid, c), eid, c)];
    assert stmts[..|stmts| - 1] == [];
    assert RunAll(p, [], db) == Ok(db);
  }

  lemma CreateEntityLawful(p: Platform, db: Db, e: Entity)
    requires Lawful(p, db) && CreateEntity(p, db, e).Ok?
    ensures Lawful(p, CreateEntity(p, db, e).value)
  {
    hide Lawful, RunCreateTable, IndexStmts, Columns;
    CreateTableLawful(p, db, e.id, Columns(e.fields), true);
    IndexStmtsLawful(p, RunCreateTable(p, db, e.id, Columns(e.fields), true).value, e.id, e.fields);
  }

  lemma LawfulTable(p: Platform, db: Db, name: string)
    requires Lawful(p, db) && name in db.tables
    ensures UsableTable(p, name)
  {
  }

  lemma RebuildLawful(p: Platform, db: Db, oe: Entity, ne: Entity, ops: seq<Operation>)
    requires Lawful(p, db) && Rebuild(p, db, oe, ne, ops).Ok?
    ensures Lawful(p, Rebuild(p, db, oe, ne, ops).value)
  {
    hide Lawful, IndexStmts, Columns, RebuiltRows, RowOk, LosesInformation, Selectable, HasEmptyRemap, HasUnreadable, UsableTable, UsableName, UsableColumns, IndexTaken, FieldIds;
    LawfulTable(p, db, ne.id);
    var bare := Table(Columns(ne.fields), map[], RebuiltRows(p, oe.fields, ne.fields, ops, db.tables[ne.id].rows), {});
    TableIsLawful(p, db, ne.id, bare);
    IndexStmtsLawful(p, WithTable(db, ne.id, bare), ne.id, ne.fields);
  }

  lemma {:induction false} CreateAddedLawful(p: Platform, db: Db, news: seq<Entity>, ops: seq<Operation>)
    requires Lawful(p, db) && CreateAdded(p, db, news, ops).Ok?
    ensures Lawful(p, CreateAdded(p, db, news, ops).value)
  {
    hide Lawful, CreateEntity, Adds;
    if news != [] {
      CreateAddedLawful(p, db, news[..|news| - 1], ops);
      var before, e := CreateAdded(p, db, news[..|news| - 1], ops).value, news[|news| - 1];
      if Adds(ops, e.id) {
        CreateEntityLawful(p, before, e);
      }
    }
  }

  lemma {:induction false} ChangeEntitiesLawful(p: Platform, db: Db, olds: seq<Entity>, news: seq<Entity>, ops: seq<Operation>)
    requires Lawful(p, db) && ChangeEntities(p, db, olds, news, ops).Ok?
    ensures Lawful(p, ChangeEntities(p, db, olds, news, ops).value)
  {
    hide Lawful, Rebuild, NativeOps, NeedsRebuild, OpsOf, Adds;
    if news != [] {
      ChangeEntitiesLawful(p, db, olds, news[..|news| - 1], ops);
      var before, e := ChangeEntities(p, db, olds, news[..|news| - 1], ops).value, news[|news| - 1];
      var own, oe := OpsOf(ops, e.id), EntityById(olds, e.id);
      if !Adds(ops, e.id) && own != [] {
        if NeedsRebuild(own) {
          RebuildLawful(p, before, oe.value, e, own);
        } else {
          NativeOpsLawful(p, before, e.id, own);
        }
      }
    }
  }

  lemma {:induction false} DropRemovedLawful(p: Platform, db: Db, olds: seq<Entity>, ops: seq<Operation>)
    requires Lawful(p, db) && DropRemoved(p, db, olds, ops).Ok?
    ensures Lawful(p, DropRemoved(p, db, olds, ops).value)
  {
    hide Lawful, Drops;
    if olds != [] {
      DropRemovedLawful(p, db, olds[..|olds| - 1], ops);
      FewerTablesLawful(p, DropRemoved(p, db, olds[..|olds| - 1], ops).value, olds[|olds| - 1].id);
    }
  }

  lemma SameTablesLawful(p: Platform, a: Db, b: Db)
    requires Lawful(p, a) && a.tables == b.tables
    ensures Lawful(p, b)
  {
    forall t, c, i | Holds(b, t, c, i) ensures i !in b.tables {
      assert Holds(a, t, c, i);
    }
  }

  /** A migration that succeeds leaves names SQLite accepts, as every statement it consists of does. */
  lemma ExecutedLawful(p: Platform, db: Db, oldApp: App, newApp: App, ops: seq<Operation>, commits: bool)
    requires Lawful(p, db) && Executed(p, db, oldApp, newApp, ops, commits).Ok?
    ensures Lawful(p, Executed(p, db, oldApp, newApp, ops, commits).value)
  {
    hide Lawful, CreateAdded, ChangeEntities, DropRemoved, AllRenames, ForeignKeysHold;
    var olds, news := oldApp.entities, newApp.entities;
    if !AllRenames(ops) {
      CreateAddedLawful(p, db, news, ops);
      var created := CreateAdded(p, db, news, ops).value;
      ChangeEntitiesLawful(p, created, olds, news, ops);
      var changed := ChangeEntities(p, created, olds, news, ops).value;
      DropRemovedLawful(p, changed, olds, ops);
      SameTablesLawful(p, DropRemoved(p, changed, olds, ops).value, Executed(p, db, oldApp, newApp, ops, commits).value);
    }
  }

  // ----- what a database shows of a manifest -----

  /** Every field that is checked is an expression. */
  predicate ChecksReadable(p: Platform, entities: seq<Entity>) {
    forall e | e in entities :: ColumnsReadable(p, Columns(e.fields))
  }

  predicate ColumnsReadable(p: Platform, cols: map<string, Column>) {
    forall c | c in cols && HasCheck(cols[c]) :: c !in p.unreadable
  }

  /**
   * A lawful database with the manifest's catalogue shows that the manifest's names are accepted, but
   * for the CHECKs: the manifest may have moved bounds the database does not know of.
   */
  lemma LawfulIsBootable(p: Platform, db: Db, app: App)
    requires Lawful(p, db) && CatalogueButBounds(db, app)
    ensures Bootable(p, app) <==> ChecksReadable(p, app.entities)
    ensures forall x | x in UniquePairs(app.entities) :: Readable(p, x.1)
  {
    hide UsableTable, UsableColumns, IndexName, Readable, Columns, ColumnsReadable, ClocksShadowed;
    forall e | e in app.entities
      ensures UsableTable(p, e.id) && (UsableColumns(p, Columns(e.fields)) <==> ColumnsReadable(p, Columns(e.fields)))
    {
      assert e.id in EntityIds(app.entities) && MatchesButBounds(db.tables[e.id], e);
      SameSpelling(p, db.tables[e.id].cols, Columns(e.fields));
    }
    forall x | x in UniquePairs(app.entities) ensures IndexName(x.0, x.1) !in EntityIds(app.entities) && Readable(p, x.1) {
      var e, f :| e in app.entities && f in e.fields && f.unique && x == (e.id, f.id);
      assert e.id in EntityIds(app.entities) && MatchesButBounds(db.tables[e.id], e);
      assert f.id in Indexes(e.id, e.fields);
      assert Holds(db, e.id, f.id, IndexName(e.id, f.id));
    }
    if ChecksReadable(p, app.entities) {
      ReadableIsBootable(p, app);
    }
  }

  /** The manifest's own catalogue, bounds included, shows that all its names are accepted. */
  lemma ExactIsBootable(p: Platform, db: Db, app: App)
    requires Lawful(p, db) && CatalogueIs(db, app) && CatalogueButBounds(db, app)
    ensures Bootable(p, app)
  {
    hide UsableTable, CatalogueButBounds, Bootable, Columns, ColumnsReadable;
    LawfulIsBootable(p, db, app);
    forall e | e in app.entities ensures ColumnsReadable(p, Columns(e.fields)) {
      assert e.id in EntityIds(app.entities) && Matches(db.tables[e.id], e);
      UsableIsReadable(p, db.tables[e.id].cols);
    }
  }

  lemma UsableIsReadable(p: Platform, cols: map<string, Column>)
    requires UsableColumns(p, cols)
    ensures ColumnsReadable(p, cols)
  {
    forall c | c in cols && HasCheck(cols[c]) ensures c !in p.unreadable {
      assert UsableColumn(p, c, cols[c]);
    }
  }

  lemma SameSpelling(p: Platform, a: map<string, Column>, b: map<string, Column>)
    requires SameButBounds(a, b) && UsableColumns(p, a)
    ensures UsableColumns(p, b) <==> ColumnsReadable(p, b)
  {
    if ColumnsReadable(p, b) {
      forall c | c in b ensures UsableColumn(p, c, b[c]) {
        assert UsableColumn(p, c, a[c]) && WithoutBounds(a[c]) == WithoutBounds(b[c]);
      }
    }
    if UsableColumns(p, b) {
      UsableIsReadable(p, b);
    }
  }

  lemma ReadableIsBootable(p: Platform, app: App)
    requires forall e | e in app.entities :: UsableTable(p, e.id) && UsableColumns(p, Columns(e.fields))
    requires forall x | x in UniquePairs(app.entities) :: IndexName(x.0, x.1) !in EntityIds(app.entities) && Readable(p, x.1)
    ensures Bootable(p, app)
  {
    hide UsableTable, UsableColumns, IndexName, Columns;
    forall e, f | e in app.entities && f in e.fields && f.unique ensures f.id !in p.unreadable {
      assert (e.id, f.id) in UniquePairs(app.entities);
    }
    AllIndexStmtsArePairs(app.entities);
    var stmts := AllIndexStmts(app.entities);
    forall i | 0 <= i < |stmts| ensures stmts[i].col !in p.clock {
      assert stmts[i] in stmts;
    }
  }
}

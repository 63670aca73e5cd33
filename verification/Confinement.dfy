/** A migration looks at a table's rows only in the step that changes that table. */
module Confinement {
  import opened Results
  import opened Schema
  import opened Sql
  import opened Materialize
  import opened Changesets
  import opened Witnesses
  import opened Diffs
  import opened Executor
  import opened Views
  import opened NativePath
  import opened ChangesetShape
  import opened Naming

  function Reshelved(db: Db, eid: string, rows: map<string, Row>): Db
    requires eid in db.tables
  {
    WithTable(db, eid, db.tables[eid].(rows := rows))
  }

  /** Two databases that differ in the rows of one table only. */
  predicate Twins(a: Db, b: Db, eid: string, ours: map<string, Row>, theirs: map<string, Row>) {
    eid in a.tables && a.tables[eid].rows == ours && b == Reshelved(a, eid, theirs)
  }

  lemma TwinTables(a: Db, b: Db, eid: string, ours: map<string, Row>, theirs: map<string, Row>)
    requires Twins(a, b, eid, ours, theirs)
    ensures b.tables.Keys == a.tables.Keys
    ensures forall t | t in a.tables && t != eid :: b.tables[t] == a.tables[t]
    ensures b.tables[eid] == a.tables[eid].(rows := theirs)
  {
  }

  lemma TwinNames(a: Db, b: Db, eid: string, ours: map<string, Row>, theirs: map<string, Row>, index: string)
    requires Twins(a, b, eid, ours, theirs)
    ensures IndexTaken(b, index) == IndexTaken(a, index)
  {
    assert forall t, c :: Holds(b, t, c, index) == Holds(a, t, c, index);
    if IndexTaken(a, index) {
      var t, c :| t in a.tables && c in a.tables[t].indexes && Holds(a, t, c, index);
      assert Holds(b, t, c, index);
    }
    if IndexTaken(b, index) {
      var t, c :| t in b.tables && c in b.tables[t].indexes && Holds(b, t, c, index);
      assert Holds(a, t, c, index);
    }
  }

  /** Changing another table alike keeps the twins. */
  lemma TwinsElsewhere(a: Db, b: Db, eid: string, ours: map<string, Row>, theirs: map<string, Row>, name: string, t: Table)
    requires Twins(a, b, eid, ours, theirs) && name != eid
    ensures Twins(WithTable(a, name, t), WithTable(b, name, t), eid, ours, theirs)
  {
    assert WithTable(b, name, t).tables == Reshelved(WithTable(a, name, t), eid, theirs).tables;
  }

  // ----- statements about other tables -----

  lemma CreateTableConfined(p: Platform, a: Db, b: Db, eid: string, ours: map<string, Row>, theirs: map<string, Row>,
                            name: string, cols: map<string, Column>, ifNotExists: bool)
    requires Twins(a, b, eid, ours, theirs) && name != eid && RunCreateTable(p, a, name, cols, ifNotExists).Ok?
    ensures var after := RunCreateTable(p, b, name, cols, ifNotExists);
            after.Ok? && Twins(RunCreateTable(p, a, name, cols, ifNotExists).value, after.value, eid, ours, theirs)
  {
    hide UsableTable, UsableColumns, IndexTaken, Twins;
    TwinTables(a, b, eid, ours, theirs);
    TwinNames(a, b, eid, ours, theirs, name);
    TwinsElsewhere(a, b, eid, ours, theirs, name, Table(cols, map[], map[], {}));
  }

  lemma AddColumnConfined(p: Platform, a: Db, b: Db, eid: string, ours: map<string, Row>, theirs: map<string, Row>,
                          name: string, col: string, def: Column, dflt: Value)
    requires Twins(a, b, eid, ours, theirs) && name != eid && RunAddColumn(p, a, name, col, def, dflt).Ok?
    ensures var after := RunAddColumn(p, b, name, col, def, dflt);
            after.Ok? && Twins(RunAddColumn(p, a, name, col, def, dflt).value, after.value, eid, ours, theirs)
  {
    hide UsableColumns, Satisfies, Stored, Widened, Twins;
    TwinTables(a, b, eid, ours, theirs);
    TwinsElsewhere(a, b, eid, ours, theirs, name, Widened(p, a.tables[name], col, def, dflt));
  }

  lemma DropColumnConfined(a: Db, b: Db, eid: string, ours: map<string, Row>, theirs: map<string, Row>, name: string, col: string)
    requires Twins(a, b, eid, ours, theirs) && name != eid && RunDropColumn(a, name, col).Ok?
    ensures var after := RunDropColumn(b, name, col);
            after.Ok? && Twins(RunDropColumn(a, name, col).value, after.value, eid, ours, theirs)
  {
    hide InUse, Narrowed, Twins;
    TwinTables(a, b, eid, ours, theirs);
    TwinsElsewhere(a, b, eid, ours, theirs, name, Narrowed(a.tables[name], col));
  }

  lemma CreateIndexConfined(p: Platform, a: Db, b: Db, eid: string, ours: map<string, Row>, theirs: map<string, Row>, index: string, name: string, col: string)
    requires Twins(a, b, eid, ours, theirs) && name != eid && RunCreateUniqueIndex(p, a, index, name, col).Ok?
    ensures var after := RunCreateUniqueIndex(p, b, index, name, col);
            after.Ok? && Twins(RunCreateUniqueIndex(p, a, index, name, col).value, after.value, eid, ours, theirs)
  {
    hide NoDuplicates, IndexTaken, Twins;
    TwinTables(a, b, eid, ours, theirs);
    TwinNames(a, b, eid, ours, theirs, index);
    var t := a.tables[name];
    TwinsElsewhere(a, b, eid, ours, theirs, name, t.(indexes := t.indexes[col := index]));
  }

  lemma DropIndexConfined(a: Db, b: Db, eid: string, ours: map<string, Row>, theirs: map<string, Row>, index: string)
    requires Twins(a, b, eid, ours, theirs) && RunDropIndex(a, index).Ok?
    ensures var after := RunDropIndex(b, index);
            after.Ok? && Twins(RunDropIndex(a, index).value, after.value, eid, ours, theirs)
  {
    hide IndexTaken, WithoutName;
    TwinNames(a, b, eid, ours, theirs, index);
    var x, y := RunDropIndex(a, index).value, RunDropIndex(b, index).value;
    assert y.tables == Reshelved(x, eid, theirs).tables;
  }

  lemma NativeOpConfined(p: Platform, a: Db, b: Db, eid: string, ours: map<string, Row>, theirs: map<string, Row>, name: string, change: Change)
    requires Twins(a, b, eid, ours, theirs) && name != eid && NativeOp(p, a, name, change).Ok?
    ensures var after := NativeOp(p, b, name, change);
            after.Ok? && Twins(NativeOp(p, a, name, change).value, after.value, eid, ours, theirs)
  {
    hide Twins, RunAddColumn, RunDropColumn, RunCreateUniqueIndex, RunDropIndex, ColumnDef, DefaultLiteral;
    match change
    case AddField(f) =>
      AddColumnConfined(p, a, b, eid, ours, theirs, name, f.id, ColumnDef(f), DefaultLiteral(p, f));
      if f.unique {
        var x := RunAddColumn(p, a, name, f.id, ColumnDef(f), DefaultLiteral(p, f)).value;
        var y := RunAddColumn(p, b, name, f.id, ColumnDef(f), DefaultLiteral(p, f)).value;
        CreateIndexConfined(p, x, y, eid, ours, theirs, IndexName(name, f.id), name, f.id);
      }
    case DropField(f) =>
      DropColumnConfined(a, b, eid, ours, theirs, name, f.id);
    case ChangeUnique(_, f) =>
      if f.unique {
        CreateIndexConfined(p, a, b, eid, ours, theirs, IndexName(name, f.id), name, f.id);
      } else {
        DropIndexConfined(a, b, eid, ours, theirs, IndexName(name, f.id));
      }
    case _ =>
  }

  lemma {:induction false} NativeOpsConfined(p: Platform, a: Db, b: Db, eid: string, ours: map<string, Row>, theirs: map<string, Row>,
                                             name: string, ops: seq<Operation>)
    requires Twins(a, b, eid, ours, theirs) && name != eid && NativeOps(p, a, name, ops).Ok?
    ensures var after := NativeOps(p, b, name, ops);
            after.Ok? && Twins(NativeOps(p, a, name, ops).value, after.value, eid, ours, theirs)
  {
    hide Twins, NativeOp;
    if ops != [] {
      var rest, change := ops[..|ops| - 1], ops[|ops| - 1].change;
      NativeOpsConfined(p, a, b, eid, ours, theirs, name, rest);
      NativeOpConfined(p, NativeOps(p, a, name, rest).value, NativeOps(p, b, name, rest).value, eid, ours, theirs, name, change);
    }
  }

  lemma {:induction false} IndexStmtsConfined(p: Platform, a: Db, b: Db, eid: string, ours: map<string, Row>, theirs: map<string, Row>,
                                              name: string, fields: seq<Field>)
    requires Twins(a, b, eid, ours, theirs) && name != eid && RunAll(p, IndexStmts(name, name, fields), a).Ok?
    ensures var after := RunAll(p, IndexStmts(name, name, fields), b);
            after.Ok? && Twins(RunAll(p, IndexStmts(name, name, fields), a).value, after.value, eid, ours, theirs)
  {
    hide Twins, RunCreateUniqueIndex;
    if fields != [] {
      var rest, f := fields[..|fields| - 1], fields[|fields| - 1];
      if f.unique {
        RunAllAppend(p, IndexStmts(name, name, rest), [CreateUniqueIndex(IndexName(name, f.id), name, f.id)], a);
        RunAllAppend(p, IndexStmts(name, name, rest), [CreateUniqueIndex(IndexName(name, f.id), name, f.id)], b);
        IndexStmtsConfined(p, a, b, eid, ours, theirs, name, rest);
        var x, y := RunAll(p, IndexStmts(name, name, rest), a).value, RunAll(p, IndexStmts(name, name, rest), b).value;
        OneIndex(p, x, name, f.id);
        OneIndex(p, y, name, f.id);
        CreateIndexConfined(p, x, y, eid, ours, theirs, IndexName(name, f.id), name, f.id);
      } else {
        IndexStmtsConfined(p, a, b, eid, ours, theirs, name, rest);
      }
    }
  }

  lemma CreateEntityConfined(p: Platform, a: Db, b: Db, eid: string, ours: map<string, Row>, theirs: map<string, Row>, e: Entity)
    requires Twins(a, b, eid, ours, theirs) && e.id != eid && CreateEntity(p, a, e).Ok?
    ensures var after := CreateEntity(p, b, e);
            after.Ok? && Twins(CreateEntity(p, a, e).value, after.value, eid, ours, theirs)
  {
    hide Twins, RunCreateTable, RunAll, IndexStmts, Columns;
    CreateTableConfined(p, a, b, eid, ours, theirs, e.id, Columns(e.fields), true);
    IndexStmtsConfined(p, RunCreateTable(p, a, e.id, Columns(e.fields), true).value,
                       RunCreateTable(p, b, e.id, Columns(e.fields), true).value, eid, ours, theirs, e.id, e.fields);
  }

  // ----- rebuilds -----

  lemma TwinNamesAccepted(p: Platform, a: Db, b: Db, eid: string, ours: map<string, Row>, theirs: map<string, Row>, ne: Entity)
    requires Twins(a, b, eid, ours, theirs)
    ensures NamesAccepted(p, b, ne) == NamesAccepted(p, a, ne)
  {
    hide UsableTable, UsableColumns, IndexTaken, Twins, Columns;
    TwinTables(a, b, eid, ours, theirs);
    TwinNames(a, b, eid, ours, theirs, TempName(ne.id));
    TwinNamesBeside(a, b, eid, ours, theirs, ne.id);
  }

  lemma TwinNamesBeside(a: Db, b: Db, eid: string, ours: map<string, Row>, theirs: map<string, Row>, name: string)
    requires Twins(a, b, eid, ours, theirs)
    ensures IndexTaken(b.(tables := b.tables - {name}), name) == IndexTaken(a.(tables := a.tables - {name}), name)
  {
    var x, y := a.(tables := a.tables - {name}), b.(tables := b.tables - {name});
    if name == eid {
      assert y.tables == x.tables;
    } else {
      assert y.tables == Reshelved(x, eid, theirs).tables;
      TwinNames(x, y, eid, ours, theirs, name);
    }
  }

  lemma RebuildConfined(p: Platform, a: Db, b: Db, eid: string, ours: map<string, Row>, theirs: map<string, Row>,
                        oe: Entity, ne: Entity, ops: seq<Operation>)
    requires Twins(a, b, eid, ours, theirs) && ne.id != eid && Rebuild(p, a, oe, ne, ops).Ok?
    ensures var after := Rebuild(p, b, oe, ne, ops);
            after.Ok? && Twins(Rebuild(p, a, oe, ne, ops).value, after.value, eid, ours, theirs)
  {
    hide Twins, RunAll, IndexStmts, Columns, NamesAccepted, RebuiltRows, RowOk, LosesInformation, Selectable, HasEmptyRemap, FieldIds;
    TwinTables(a, b, eid, ours, theirs);
    TwinNamesAccepted(p, a, b, eid, ours, theirs, ne);
    var bare := Table(Columns(ne.fields), map[], RebuiltRows(p, oe.fields, ne.fields, ops, a.tables[ne.id].rows), {});
    TwinsElsewhere(a, b, eid, ours, theirs, ne.id, bare);
    IndexStmtsConfined(p, WithTable(a, ne.id, bare), WithTable(b, ne.id, bare), eid, ours, theirs, ne.id, ne.fields);
  }

  /** Rows a rebuild makes the same of are no different to it. */
  lemma RebuildForgets(p: Platform, a: Db, b: Db, ours: map<string, Row>, theirs: map<string, Row>, oe: Entity, ne: Entity, ops: seq<Operation>)
    requires Twins(a, b, ne.id, ours, theirs) && Rebuild(p, a, oe, ne, ops).Ok?
    requires RebuiltRows(p, oe.fields, ne.fields, ops, ours) == RebuiltRows(p, oe.fields, ne.fields, ops, theirs)
    requires !LosesInformation(p, b.tables[ne.id], oe.fields, ne.fields, ops)
    ensures Rebuild(p, b, oe, ne, ops) == Rebuild(p, a, oe, ne, ops)
  {
    hide Twins, RunAll, IndexStmts, Columns, NamesAccepted, RebuiltRows, RowOk, LosesInformation, Selectable, HasEmptyRemap, FieldIds;
    TwinTables(a, b, ne.id, ours, theirs);
    TwinNamesAccepted(p, a, b, ne.id, ours, theirs, ne);
    TwinsAreTwins(a, b, ne.id, ours, theirs);
    SetAgain(a, ne.id, theirs, Table(Columns(ne.fields), map[], RebuiltRows(p, oe.fields, ne.fields, ops, ours), {}));
  }

  lemma TwinsAreTwins(a: Db, b: Db, eid: string, ours: map<string, Row>, theirs: map<string, Row>)
    requires Twins(a, b, eid, ours, theirs)
    ensures eid in a.tables && a.tables[eid].rows == ours && b == Reshelved(a, eid, theirs)
  {
  }

  lemma SetAgain(a: Db, eid: string, rows: map<string, Row>, t: Table)
    requires eid in a.tables
    ensures WithTable(Reshelved(a, eid, rows), eid, t) == WithTable(a, eid, t)
  {
    var was := a.tables[eid].(rows := rows);
    assert a.tables[eid := was][eid := t] == a.tables[eid := t];
  }

  // ----- a whole changeset -----

  lemma {:induction false} CreateAddedConfined(p: Platform, a: Db, b: Db, eid: string, ours: map<string, Row>, theirs: map<string, Row>,
                                               news: seq<Entity>, ops: seq<Operation>)
    requires Twins(a, b, eid, ours, theirs) && !Adds(ops, eid) && CreateAdded(p, a, news, ops).Ok?
    ensures var after := CreateAdded(p, b, news, ops);
            after.Ok? && Twins(CreateAdded(p, a, news, ops).value, after.value, eid, ours, theirs)
  {
    hide Twins, CreateEntity, Adds;
    if news != [] {
      var rest, e := news[..|news| - 1], news[|news| - 1];
      CreateAddedConfined(p, a, b, eid, ours, theirs, rest, ops);
      if Adds(ops, e.id) {
        CreateEntityConfined(p, CreateAdded(p, a, rest, ops).value, CreateAdded(p, b, rest, ops).value, eid, ours, theirs, e);
      }
    }
  }

  lemma ChangeEntityConfined(p: Platform, a: Db, b: Db, eid: string, ours: map<string, Row>, theirs: map<string, Row>,
                             olds: seq<Entity>, e: Entity, ops: seq<Operation>)
    requires Twins(a, b, eid, ours, theirs) && e.id != eid && ChangeEntity(p, a, olds, e, ops).Ok?
    ensures var after := ChangeEntity(p, b, olds, e, ops);
            after.Ok? && Twins(ChangeEntity(p, a, olds, e, ops).value, after.value, eid, ours, theirs)
  {
    hide Twins, Rebuild, NativeOps, Adds, OpsOf, NeedsRebuild;
    var own, oe := OpsOf(ops, e.id), EntityById(olds, e.id);
    if !Adds(ops, e.id) && own != [] {
      if NeedsRebuild(own) {
        RebuildConfined(p, a, b, eid, ours, theirs, oe.value, e, own);
      } else {
        NativeOpsConfined(p, a, b, eid, ours, theirs, e.id, own);
      }
    }
  }

  lemma {:induction false} ChangeOthersConfined(p: Platform, a: Db, b: Db, eid: string, ours: map<string, Row>, theirs: map<string, Row>,
                                                olds: seq<Entity>, news: seq<Entity>, ops: seq<Operation>)
    requires Twins(a, b, eid, ours, theirs) && eid !in EntityIds(news) && ChangeEntities(p, a, olds, news, ops).Ok?
    ensures var after := ChangeEntities(p, b, olds, news, ops);
            after.Ok? && Twins(ChangeEntities(p, a, olds, news, ops).value, after.value, eid, ours, theirs)
  {
    hide Twins, ChangeEntity;
    if news != [] {
      var rest, e := news[..|news| - 1], news[|news| - 1];
      assert e in news && e.id in EntityIds(news) && EntityIds(rest) <= EntityIds(news);
      ChangeOthersConfined(p, a, b, eid, ours, theirs, olds, rest, ops);
      ChangeEntityConfined(p, ChangeEntities(p, a, olds, rest, ops).value, ChangeEntities(p, b, olds, rest, ops).value, eid, ours, theirs, olds, e, ops);
    }
  }

  /** The table's own rebuild makes the same of both rows. */
  ghost predicate Forgets(p: Platform, olds: seq<Entity>, ne: Entity, ops: seq<Operation>, ours: map<string, Row>, theirs: map<string, Row>) {
    var own := OpsOf(ops, ne.id);
    match EntityById(olds, ne.id)
    case None => false
    case Some(oe) =>
      && !Adds(ops, ne.id) && NeedsRebuild(own)
      && RebuiltRows(p, oe.fields, ne.fields, own, ours) == RebuiltRows(p, oe.fields, ne.fields, own, theirs)
      && forall nf | nf in ne.fields :: !MustNotLose(FieldById(oe.fields, nf.id), nf, WitnessOf(own, nf.id))
  }

  lemma ChangeEntityForgets(p: Platform, a: Db, b: Db, ours: map<string, Row>, theirs: map<string, Row>,
                            olds: seq<Entity>, ne: Entity, ops: seq<Operation>)
    requires Twins(a, b, ne.id, ours, theirs) && Forgets(p, olds, ne, ops, ours, theirs)
    requires ChangeEntity(p, a, olds, ne, ops).Ok?
    ensures ChangeEntity(p, b, olds, ne, ops) == ChangeEntity(p, a, olds, ne, ops)
  {
    hide Rebuild, RebuiltRows, NativeOps, Adds, OpsOf, NeedsRebuild, MustNotLose, LossyRows, WitnessOf;
    var oe := EntityById(olds, ne.id).value;
    assert OpsOf(ops, ne.id) != [] by { RebuiltIsSome(OpsOf(ops, ne.id)); }
    RebuildForgets(p, a, b, ours, theirs, oe, ne, OpsOf(ops, ne.id));
  }

  lemma RebuiltIsSome(ops: seq<Operation>)
    requires NeedsRebuild(ops)
    ensures ops != []
  {
  }

  lemma {:induction false} ChangeEntitiesForget(p: Platform, a: Db, b: Db, ours: map<string, Row>, theirs: map<string, Row>,
                                                olds: seq<Entity>, news: seq<Entity>, ne: Entity, ops: seq<Operation>)
    requires Twins(a, b, ne.id, ours, theirs) && Forgets(p, olds, ne, ops, ours, theirs)
    requires DistinctEntityIds(news) && ne in news && ChangeEntities(p, a, olds, news, ops).Ok?
    ensures ChangeEntities(p, b, olds, news, ops) == ChangeEntities(p, a, olds, news, ops)
  {
    hide Twins, ChangeEntity, Forgets;
    var rest, last := news[..|news| - 1], news[|news| - 1];
    if last == ne {
      forall e | e in rest ensures e.id != ne.id {
        var i :| 0 <= i < |rest| && rest[i] == e;
        assert news[i].id != news[|news| - 1].id;
      }
      ChangeOthersConfined(p, a, b, ne.id, ours, theirs, olds, rest, ops);
      ChangeEntityForgets(p, ChangeEntities(p, a, olds, rest, ops).value, ChangeEntities(p, b, olds, rest, ops).value, ours, theirs, olds, ne, ops);
    } else {
      assert ne in rest;
      ChangeEntitiesForget(p, a, b, ours, theirs, olds, rest, ne, ops);
    }
  }

  lemma ApplyForgets(p: Platform, a: Db, b: Db, ours: map<string, Row>, theirs: map<string, Row>,
                     olds: seq<Entity>, news: seq<Entity>, ne: Entity, ops: seq<Operation>)
    requires Twins(a, b, ne.id, ours, theirs) && Forgets(p, olds, ne, ops, ours, theirs)
    requires DistinctEntityIds(news) && ne in news && ApplyOps(p, a, olds, news, ops).Ok?
    ensures ApplyOps(p, b, olds, news, ops) == ApplyOps(p, a, olds, news, ops)
  {
    hide Twins, CreateAdded, ChangeEntities, DropRemoved, RebuiltRows, MustNotLose, NeedsRebuild, Adds, OpsOf, WitnessOf;
    CreateAddedConfined(p, a, b, ne.id, ours, theirs, news, ops);
    ChangeEntitiesForget(p, CreateAdded(p, a, news, ops).value, CreateAdded(p, b, news, ops).value, ours, theirs, olds, news, ne, ops);
  }

  /**
   * A whole migration cannot tell apart two databases that differ in rows of one table which that
   * table's rebuild makes the same of, whatever it does to the other tables.
   */
  lemma ExecuteForgets(p: Platform, a: Db, b: Db, ours: map<string, Row>, theirs: map<string, Row>,
                       oldApp: App, newApp: App, ne: Entity, ops: seq<Operation>, commits: bool)
    requires Twins(a, b, ne.id, ours, theirs) && Forgets(p, oldApp.entities, ne, ops, ours, theirs)
    requires DistinctEntityIds(newApp.entities) && ne in newApp.entities
    requires Executed(p, a, oldApp, newApp, ops, commits).Ok?
    ensures Executed(p, b, oldApp, newApp, ops, commits) == Executed(p, a, oldApp, newApp, ops, commits)
  {
    hide Twins, ApplyOps, Forgets, ForeignKeysHold, AllRenames;
    assert !AllRenames(ops) by { RebuildIsNoRename(p, oldApp.entities, ne, ops, ours, theirs); }
    ApplyForgets(p, a, b, ours, theirs, oldApp.entities, newApp.entities, ne, ops);
  }

  lemma RebuildIsNoRename(p: Platform, olds: seq<Entity>, ne: Entity, ops: seq<Operation>, ours: map<string, Row>, theirs: map<string, Row>)
    requires Forgets(p, olds, ne, ops, ours, theirs)
    ensures !AllRenames(ops)
  {
    hide RebuiltRows, MustNotLose, WitnessOf;
    OpsOfMembers(ops, ne.id);
  }
}

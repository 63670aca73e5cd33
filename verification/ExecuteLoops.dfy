/** The loops of engine/migrate/execute.go, over an open transaction, against what each step does. */
module ExecuteLoops {
  import opened Results
  import opened Schema
  import opened Sql
  import opened Materialize
  import opened Changesets
  import opened Witnesses
  import opened Fingerprints
  import opened Executor

  // ----- a prefix that fails fails the whole -----

  lemma {:induction false} NativeFails(p: Platform, db: Db, eid: string, ops: seq<Operation>, i: nat)
    requires i <= |ops| && NativeOps(p, db, eid, ops[..i]).Err?
    ensures NativeOps(p, db, eid, ops).Err?
    decreases |ops|
  {
    hide NativeOp;
    if i == |ops| {
      assert ops[..i] == ops;
    } else {
      assert ops[..|ops| - 1][..i] == ops[..i];
      NativeFails(p, db, eid, ops[..|ops| - 1], i);
    }
  }

  lemma {:induction false} CreateFails(p: Platform, db: Db, news: seq<Entity>, ops: seq<Operation>, i: nat)
    requires i <= |news| && CreateAdded(p, db, news[..i], ops).Err?
    ensures CreateAdded(p, db, news, ops).Err?
    decreases |news|
  {
    hide CreateEntity, Adds;
    if i == |news| {
      assert news[..i] == news;
    } else {
      assert news[..|news| - 1][..i] == news[..i];
      CreateFails(p, db, news[..|news| - 1], ops, i);
    }
  }

  lemma {:induction false} ChangeFails(p: Platform, db: Db, olds: seq<Entity>, news: seq<Entity>, ops: seq<Operation>, i: nat)
    requires i <= |news| && ChangeEntities(p, db, olds, news[..i], ops).Err?
    ensures ChangeEntities(p, db, olds, news, ops).Err?
    decreases |news|
  {
    hide ChangeEntity;
    if i == |news| {
      assert news[..i] == news;
    } else {
      assert news[..|news| - 1][..i] == news[..i];
      ChangeFails(p, db, olds, news[..|news| - 1], ops, i);
    }
  }

  lemma {:induction false} DropFails(p: Platform, db: Db, olds: seq<Entity>, ops: seq<Operation>, i: nat)
    requires i <= |olds| && DropRemoved(p, db, olds[..i], ops).Err?
    ensures DropRemoved(p, db, olds, ops).Err?
    decreases |olds|
  {
    hide Drops;
    if i == |olds| {
      assert olds[..i] == olds;
    } else {
      assert olds[..|olds| - 1][..i] == olds[..i];
      DropFails(p, db, olds[..|olds| - 1], ops, i);
    }
  }

  // ----- predicates over operations, as loops -----

  method AllNoSql(ops: seq<Operation>) returns (b: bool)
    ensures b == AllRenames(ops)
  {
    for i := 0 to |ops|
      invariant forall k | 0 <= k < i :: IsRename(ops[k])
    {
      if !ops[i].change.RenameEntity? && !ops[i].change.RenameField? {
        assert ops[i] in ops;
        return false;
      }
    }
    return true;
  }

  method NeedsRebuildLoop(ops: seq<Operation>) returns (b: bool)
    ensures b == NeedsRebuild(ops)
  {
    for i := 0 to |ops|
      invariant forall k | 0 <= k < i :: !RebuildOnly(ops[k].change)
    {
      if RebuildOnly(ops[i].change) {
        return true;
      }
    }
    return false;
  }

  // ----- one entity -----

  method CreateEntityIn(tx: Tx, e: Entity) returns (fault: Option<Fault>)
    requires DistinctFieldIds(e.fields)
    modifies tx
    ensures fault.None? <==> CreateEntity(tx.p, old(tx.db), e).Ok?
    ensures fault.None? ==> tx.db == CreateEntity(tx.p, old(tx.db), e).value
  {
    hide Columns, RunCreateTable;
    var create, indexes := TableDDL(e, e.id, true);
    fault := tx.Exec(create);
    if fault.None? {
      fault := tx.ExecAll(indexes);
    }
  }

  method ApplyNativeOps(tx: Tx, e: Entity, ops: seq<Operation>) returns (fault: Option<Fault>)
    modifies tx
    ensures fault.None? <==> NativeOps(tx.p, old(tx.db), e.id, ops).Ok?
    ensures fault.None? ==> tx.db == NativeOps(tx.p, old(tx.db), e.id, ops).value
  {
    hide NativeOp;
    for i := 0 to |ops|
      invariant NativeOps(tx.p, old(tx.db), e.id, ops[..i]) == Ok(tx.db)
    {
      assert ops[..i + 1][..i] == ops[..i];
      fault := ApplyNativeOp(tx, e.id, ops[i].change);
      if fault.Some? {
        NativeFails(tx.p, old(tx.db), e.id, ops, i + 1);
        return;
      }
    }
    assert ops[..|ops|] == ops;
    fault := None;
  }

  method ApplyNativeOp(tx: Tx, eid: string, change: Change) returns (fault: Option<Fault>)
    modifies tx
    ensures fault.None? <==> NativeOp(tx.p, old(tx.db), eid, change).Ok?
    ensures fault.None? ==> tx.db == NativeOp(tx.p, old(tx.db), eid, change).value
  {
    hide ColumnDef, RunAddColumn, RunDropColumn, RunCreateUniqueIndex, RunDropIndex, SqlLiteral;
    match change {
      case RenameEntity(_, _) =>
        fault := None;
      case RenameField(_, _) =>
        fault := None;
      case AddField(f) =>
        var dflt := if f.default.Some? then SqlLiteral(tx.p, f.default.value, f.typ) else NULL;
        fault := tx.Exec(AddColumn(eid, f.id, ColumnDef(f), dflt));
        if fault.None? && f.unique {
          fault := tx.Exec(CreateUniqueIndex(IndexName(eid, f.id), eid, f.id));
        }
      case DropField(f) =>
        fault := tx.Exec(DropColumn(eid, f.id));
      case ChangeUnique(_, f) =>
        if f.unique {
          fault := tx.Exec(CreateUniqueIndex(IndexName(eid, f.id), eid, f.id));
        } else {
          fault := tx.Exec(DropIndex(IndexName(eid, f.id)));
        }
      case _ =>
        fault := Some(NotANativeOp);
    }
  }

  /** enforceCoerceFail: counts the lossy rows of every field narrowed with coerce=fail. */
  method EnforceCoerceFail(tx: Tx, oe: Entity, ne: Entity, ops: seq<Operation>, witnesses: map<string, Witness>)
    returns (fault: Option<Fault>)
    requires forall id :: WitnessOf(ops, id) == if id in witnesses then Some(witnesses[id]) else None
    ensures fault.None? && ne.id in tx.db.tables ==>
              !LosesInformation(tx.p, tx.db.tables[ne.id], oe.fields, ne.fields, ops)
    ensures fault.Some? ==>
              || ne.id !in tx.db.tables
              || !(FieldIds(ne.fields) * FieldIds(oe.fields) <= tx.db.tables[ne.id].cols.Keys)
              || HasUnreadable(tx.p, oe.fields, ne.fields)
              || LosesInformation(tx.p, tx.db.tables[ne.id], oe.fields, ne.fields, ops)
  {
    for i := 0 to |ne.fields|
      invariant ne.id in tx.db.tables ==>
                  !LosesInformation(tx.p, tx.db.tables[ne.id], oe.fields, ne.fields[..i], ops)
    {
      assert ne.fields[..i + 1] == ne.fields[..i] + [ne.fields[i]];
      var nf := ne.fields[i];
      var of := FieldById(oe.fields, nf.id);
      var w := if nf.id in witnesses then Some(witnesses[nf.id]) else None;
      assert w == WitnessOf(ops, nf.id);
      if of.Some? && of.value.typ != nf.typ && HasKind(w, WitnessCoerce) && w.value.coerce == CoerceFail {
        if ne.id !in tx.db.tables {
          return Some(NoSuchTable);
        }
        if nf.id !in tx.db.tables[ne.id].cols {
          assert nf.id in FieldIds(ne.fields) * FieldIds(oe.fields);
          return Some(NoSuchColumn);
        }
        if nf.id in tx.p.unreadable {
          assert Unread(tx.p, oe.fields, nf) && nf in ne.fields;
          return Some(SyntaxError);
        }
        var n := |LossyRows(tx.p, tx.db.tables[ne.id], nf)|;
        if n > 0 {
          assert nf in ne.fields;
          return Some(LossyCoercion);
        }
      }
    }
    assert ne.fields[..|ne.fields|] == ne.fields;
    return None;
  }

  // ----- the rebuild -----

  /** The expressions built so far compute the declared value of their fields. */
  ghost predicate Computes(p: Platform, olds: seq<Field>, nf: Field, ops: seq<Operation>, e: Expr) {
    && Reads(e) == (if nf.id in FieldIds(olds) then {nf.id} else {})
    && (Parses(p, e) <==> !EmptyRemap(FieldById(olds, nf.id), nf, WitnessOf(ops, nf.id)) && !Unread(p, olds, nf))
    && forall cells ::
         Eval(p, e, cells) == Declared(p, FieldById(olds, nf.id), nf, WitnessOf(ops, nf.id), Seen(p, nf.id, Cell(cells, nf.id)))
  }

  ghost predicate ComputesAll(p: Platform, olds: seq<Field>, news: seq<Field>, ops: seq<Operation>, exprs: map<string, Expr>) {
    && exprs.Keys == FieldIds(news)
    && forall nf | nf in news :: Computes(p, olds, nf, ops, exprs[nf.id])
  }

  lemma CopiedCell(p: Platform, olds: seq<Field>, news: seq<Field>, ops: seq<Operation>, exprs: map<string, Expr>, row: Row, id: string)
    requires ComputesAll(p, olds, news, ops, exprs) && id in FieldIds(news)
    ensures CopiedRow(p, Columns(news), exprs, row).cells[id] == RebuiltRow(p, olds, news, ops, row).cells[id]
  {
    hide Declared, Eval, WitnessOf, ColumnDef, Stored, Cell, Seen;
    assert Computes(p, olds, FieldById(news, id).value, ops, exprs[id]);
  }

  lemma CopiedRowIsRebuilt(p: Platform, olds: seq<Field>, news: seq<Field>, ops: seq<Operation>, exprs: map<string, Expr>, row: Row)
    requires ComputesAll(p, olds, news, ops, exprs)
    ensures CopiedRow(p, Columns(news), exprs, row) == RebuiltRow(p, olds, news, ops, row)
  {
    hide CopiedRow, RebuiltRow, ComputesAll, Columns, FieldIds;
    var copied := CopiedRow(p, Columns(news), exprs, row);
    var rebuilt := RebuiltRow(p, olds, news, ops, row);
    RowOutlines(p, olds, news, ops, exprs, row);
    forall id | id in FieldIds(news) {
      CopiedCell(p, olds, news, ops, exprs, row, id);
    }
    assert copied.cells == rebuilt.cells;
  }

  lemma RowOutlines(p: Platform, olds: seq<Field>, news: seq<Field>, ops: seq<Operation>, exprs: map<string, Expr>, row: Row)
    ensures CopiedRow(p, Columns(news), exprs, row).cells.Keys == FieldIds(news)
    ensures RebuiltRow(p, olds, news, ops, row).cells.Keys == FieldIds(news)
    ensures CopiedRow(p, Columns(news), exprs, row).created == row.created == RebuiltRow(p, olds, news, ops, row).created
    ensures CopiedRow(p, Columns(news), exprs, row).updated == row.updated == RebuiltRow(p, olds, news, ops, row).updated
  {
    hide Declared, Eval, WitnessOf, ColumnDef, Stored, Cell;
  }

  lemma CopyIsRebuild(p: Platform, olds: seq<Field>, news: seq<Field>, ops: seq<Operation>, exprs: map<string, Expr>, rows: map<string, Row>)
    requires ComputesAll(p, olds, news, ops, exprs)
    ensures Copied(p, Columns(news), exprs, rows) == RebuiltRows(p, olds, news, ops, rows)
  {
    hide CopiedRow, RebuiltRow, ComputesAll, Columns;
    forall r | r in rows {
      CopiedRowIsRebuilt(p, olds, news, ops, exprs, rows[r]);
    }
  }

  lemma ReadsSurvivors(p: Platform, olds: seq<Field>, news: seq<Field>, ops: seq<Operation>, exprs: map<string, Expr>, cols: set<string>)
    requires ComputesAll(p, olds, news, ops, exprs)
    ensures (forall c | c in exprs :: Reads(exprs[c]) <= cols) <==> FieldIds(news) * FieldIds(olds) <= cols
  {
    hide Declared, Eval, WitnessOf, Cell;
    forall id | id in FieldIds(news) ensures Reads(exprs[id]) == if id in FieldIds(olds) then {id} else {} {
      assert Computes(p, olds, FieldById(news, id).value, ops, exprs[id]);
    }
  }

  lemma AllParse(p: Platform, olds: seq<Field>, news: seq<Field>, ops: seq<Operation>, exprs: map<string, Expr>)
    requires ComputesAll(p, olds, news, ops, exprs) && DistinctFieldIds(news)
    ensures (exists c | c in exprs :: !Parses(p, exprs[c])) <==> HasEmptyRemap(olds, news, ops) || HasUnreadable(p, olds, news)
  {
    hide Computes, Parses, EmptyRemap, Unread, Reads, WitnessOf;
    forall nf | nf in news
      ensures nf.id in exprs
      ensures Parses(p, exprs[nf.id]) <==> !EmptyRemap(FieldById(olds, nf.id), nf, WitnessOf(ops, nf.id)) && !Unread(p, olds, nf)
    {
      assert Computes(p, olds, nf, ops, exprs[nf.id]);
      ComputedParses(p, olds, nf, ops, exprs[nf.id]);
    }
  }

  lemma ComputedParses(p: Platform, olds: seq<Field>, nf: Field, ops: seq<Operation>, e: Expr)
    requires Computes(p, olds, nf, ops, e)
    ensures Parses(p, e) <==> !EmptyRemap(FieldById(olds, nf.id), nf, WitnessOf(ops, nf.id)) && !Unread(p, olds, nf)
  {
    hide Parses, EmptyRemap, Unread, Reads, WitnessOf, Eval, Declared, Seen;
  }

  lemma NamesDiffer(eid: string)
    ensures TempName(eid) != eid
  {
    assert |TempName(eid)| == |eid| + 4;
  }

  function WithTemp(db: Db, ne: Entity): Db {
    WithTable(db, TempName(ne.id), Table(Columns(ne.fields), map[], map[], {}))
  }

  /** Copying the rows into the temporary table succeeds exactly when the rebuilt rows satisfy it. */
  lemma InsertIsRebuild(p: Platform, db: Db, oe: Entity, ne: Entity, ops: seq<Operation>, exprs: map<string, Expr>)
    requires ComputesAll(p, oe.fields, ne.fields, ops, exprs) && TempName(ne.id) !in db.tables
    requires DistinctFieldIds(ne.fields)
    ensures var r := RunInsertSelect(p, WithTemp(db, ne), TempName(ne.id), exprs, ne.id);
            && (r.Ok? <==>
                  && !HasEmptyRemap(oe.fields, ne.fields, ops) && !HasUnreadable(p, oe.fields, ne.fields)
                  && ne.id in db.tables
                  && FieldIds(ne.fields) * FieldIds(oe.fields) <= db.tables[ne.id].cols.Keys
                  && forall i | i in db.tables[ne.id].rows ::
                       RowOk(p, Columns(ne.fields), RebuiltRows(p, oe.fields, ne.fields, ops, db.tables[ne.id].rows)[i]))
            && (r.Ok? ==> r.value == WithTable(WithTemp(db, ne), TempName(ne.id),
                  Table(Columns(ne.fields), map[], RebuiltRows(p, oe.fields, ne.fields, ops, db.tables[ne.id].rows), {})))
  {
    hide RowOk, ComputesAll, Copied, RebuiltRows, Columns, FieldIds, Reads, Parses, NoDuplicates, HasEmptyRemap, HasUnreadable;
    NamesDiffer(ne.id);
    AllParse(p, oe.fields, ne.fields, ops, exprs);
    ExprKeys(p, oe.fields, ne.fields, ops, exprs);
    if ne.id in db.tables {
      var from := db.tables[ne.id];
      CopyIsRebuild(p, oe.fields, ne.fields, ops, exprs, from.rows);
      ReadsSurvivors(p, oe.fields, ne.fields, ops, exprs, from.cols.Keys);
      RowIds(p, oe.fields, ne.fields, ops, from.rows);
      var copied := Copied(p, Columns(ne.fields), exprs, from.rows);
      assert map[] + copied == copied;
    }
  }

  lemma ExprKeys(p: Platform, olds: seq<Field>, news: seq<Field>, ops: seq<Operation>, exprs: map<string, Expr>)
    requires ComputesAll(p, olds, news, ops, exprs)
    ensures exprs.Keys == Columns(news).Keys
  {
  }

  lemma UnindexedHoldsNothing(db: Db, name: string, t: Table, index: string)
    requires name !in db.tables && t.indexes == map[]
    ensures IndexTaken(WithTable(db, name, t), index) <==> IndexTaken(db, index)
  {
    if IndexTaken(db, index) {
      var u: string, c: string :| u in db.tables && c in db.tables[u].indexes && Holds(db, u, c, index);
      assert Holds(WithTable(db, name, t), u, c, index);
    }
    if IndexTaken(WithTable(db, name, t), index) {
      var more := WithTable(db, name, t);
      var u: string, c: string :| u in more.tables && c in more.tables[u].indexes && Holds(more, u, c, index);
      assert Holds(db, u, c, index);
    }
  }

  /** Dropping the old table and renaming the temporary one swaps the table, if its name is accepted. */
  lemma SwapTables(p: Platform, db: Db, eid: string, bare: Table, full: Table)
    requires eid in db.tables && TempName(eid) !in db.tables && full.indexes == map[]
    ensures var copied := WithTable(WithTable(db, TempName(eid), bare), TempName(eid), full);
            && RunDropTable(copied, eid).Ok?
            && RunRenameTable(p, RunDropTable(copied, eid).value, TempName(eid), eid) ==
                 if !UsableName(p, eid) then Err(UnusableName)
                 else if IndexTaken(db.(tables := db.tables - {eid}), eid) then Err(NameTaken)
                 else Ok(WithTable(db, eid, full))
  {
    hide UsableName, IndexTaken, TempName;
    NamesDiffer(eid);
    var without := db.(tables := db.tables - {eid});
    DroppedBeside(db, eid, TempName(eid), bare, full);
    UnindexedHoldsNothing(without, TempName(eid), full, eid);
    RenamedBack(db, eid, TempName(eid), full);
  }

  lemma DroppedBeside(db: Db, eid: string, temp: string, bare: Table, full: Table)
    requires eid in db.tables && temp !in db.tables
    ensures var copied := WithTable(WithTable(db, temp, bare), temp, full);
            RunDropTable(copied, eid) == Ok(WithTable(db.(tables := db.tables - {eid}), temp, full))
  {
    var copied := WithTable(WithTable(db, temp, bare), temp, full);
    assert copied.tables - {eid} == (db.tables - {eid})[temp := full];
  }

  lemma RenamedBack(db: Db, eid: string, temp: string, full: Table)
    requires eid in db.tables && temp !in db.tables
    ensures var moved := WithTable(db.(tables := db.tables - {eid}), temp, full);
            WithTable(moved.(tables := moved.tables - {temp}), eid, full) == WithTable(db, eid, full)
  {
    var moved := WithTable(db.(tables := db.tables - {eid}), temp, full);
    assert moved.tables - {temp} == db.tables - {eid};
    assert (db.tables - {eid})[eid := full] == db.tables[eid := full];
  }

  /** The temporary table's own name is never a reserved word. */
  lemma TempNameUsable(p: Platform, eid: string)
    ensures UsableTable(p, TempName(eid))
  {
    assert TempName(eid)[3] == '_' && '_' in TempName(eid);
    assert TempName(eid)[0] == 'm' && "sqlite_"[0] == 's';
    if |TempName(eid)| >= 7 {
      assert TempName(eid)[..7][0] == TempName(eid)[0];
    }
  }

  lemma NothingToCompute(p: Platform, olds: seq<Field>, news: seq<Field>, ops: seq<Operation>)
    ensures ComputesAll(p, olds, news[..0], ops, map[])
  {
  }

  lemma ComputesMore(p: Platform, olds: seq<Field>, news: seq<Field>, ops: seq<Operation>, exprs: map<string, Expr>, i: nat, e: Expr)
    requires i < |news| && DistinctFieldIds(news) && ComputesAll(p, olds, news[..i], ops, exprs)
    requires Computes(p, olds, news[i], ops, e)
    ensures ComputesAll(p, olds, news[..i + 1], ops, exprs[news[i].id := e])
  {
    hide Computes;
    assert news[..i + 1] == news[..i] + [news[i]];
  }

  method SelectExprs(p: Platform, oe: Entity, ne: Entity, ghost ops: seq<Operation>, witnesses: map<string, Witness>)
    returns (r: Result<map<string, Expr>, Fault>)
    requires DistinctFieldIds(ne.fields)
    requires forall id :: WitnessOf(ops, id) == if id in witnesses then Some(witnesses[id]) else None
    ensures r.Ok? <==> Selectable(oe.fields, ne.fields, ops)
    ensures r.Ok? ==> ComputesAll(p, oe.fields, ne.fields, ops, r.value)
  {
    hide Declared, Eval, SelectFault, FieldById, WitnessOf, ComputesAll, FieldIds;
    var exprs: map<string, Expr> := map[];
    assert ComputesAll(p, oe.fields, ne.fields[..0], ops, exprs) by { NothingToCompute(p, oe.fields, ne.fields, ops); }
    for i := 0 to |ne.fields|
      invariant Selectable(oe.fields, ne.fields[..i], ops) && ComputesAll(p, oe.fields, ne.fields[..i], ops, exprs)
    {
      var nf := ne.fields[i];
      var w := if nf.id in witnesses then Some(witnesses[nf.id]) else None;
      assert w == WitnessOf(ops, nf.id);
      var e := SelectExpr(p, oe.fields, nf, w);
      assert nf in ne.fields;
      if e.Err? {
        return Err(e.error);
      }
      ComputesMore(p, oe.fields, ne.fields, ops, exprs, i, e.value);
      exprs := exprs[nf.id := e.value];
    }
    assert ne.fields[..|ne.fields|] == ne.fields;
    return Ok(exprs);
  }

  method RebuildEntity(tx: Tx, oe: Entity, ne: Entity, ops: seq<Operation>) returns (fault: Option<Fault>)
    requires DistinctFieldIds(ne.fields)
    modifies tx
    ensures fault.None? <==> Rebuild(tx.p, old(tx.db), oe, ne, ops).Ok?
    ensures fault.None? ==> tx.db == Rebuild(tx.p, old(tx.db), oe, ne, ops).value
  {
    hide Columns, RowOk, LosesInformation, Selectable, HasEmptyRemap, HasUnreadable, UsableTable, UsableName, UsableColumns, IndexTaken, ComputesAll, IndexStmts, RebuiltRows, WitnessOf, FieldIds, RunInsertSelect;
    ghost var db := tx.db;
    var witnesses := WitnessByField(ops);
    fault := EnforceCoerceFail(tx, oe, ne, ops, witnesses);
    if fault.Some? {
      return;
    }
    var tmp := TempName(ne.id);
    TempNameUsable(tx.p, ne.id);
    var create, _ := TableDDL(ne, tmp, false);
    fault := tx.Exec(create);
    if fault.Some? {
      return;
    }
    assert tx.db == WithTemp(db, ne);
    var exprs := SelectExprs(tx.p, oe, ne, ops, witnesses);
    if exprs.Err? {
      return Some(exprs.error);
    }
    InsertIsRebuild(tx.p, db, oe, ne, ops, exprs.value);
    fault := tx.Exec(InsertSelect(tmp, exprs.value, ne.id));
    if fault.Some? {
      RebuildNeeds(tx.p, db, oe, ne, ops);
      return;
    }
    ghost var rows := RebuiltRows(tx.p, oe.fields, ne.fields, ops, db.tables[ne.id].rows);
    SwapTables(tx.p, db, ne.id, Table(Columns(ne.fields), map[], map[], {}), Table(Columns(ne.fields), map[], rows, {}));
    fault := tx.Exec(DropTable(ne.id));
    fault := tx.Exec(RenameTable(tmp, ne.id));
    if fault.Some? {
      return;
    }
    var _, indexes := TableDDL(ne, ne.id, false);
    RowIds(tx.p, oe.fields, ne.fields, ops, db.tables[ne.id].rows);
    fault := tx.ExecAll(indexes);
  }

  lemma RowIds(p: Platform, olds: seq<Field>, news: seq<Field>, ops: seq<Operation>, rows: map<string, Row>)
    ensures RebuiltRows(p, olds, news, ops, rows).Keys == rows.Keys
  {
  }

  lemma RebuildNeeds(p: Platform, db: Db, oe: Entity, ne: Entity, ops: seq<Operation>)
    ensures Rebuild(p, db, oe, ne, ops).Ok? ==>
              && !HasEmptyRemap(oe.fields, ne.fields, ops) && !HasUnreadable(p, oe.fields, ne.fields)
              && ne.id in db.tables
              && FieldIds(ne.fields) * FieldIds(oe.fields) <= db.tables[ne.id].cols.Keys
              && forall i | i in db.tables[ne.id].rows ::
                   RowOk(p, Columns(ne.fields), RebuiltRows(p, oe.fields, ne.fields, ops, db.tables[ne.id].rows)[i])
  {
    hide Columns, RowOk, LosesInformation, Selectable, HasEmptyRemap, HasUnreadable, IndexStmts, RebuiltRow, FieldIds;
  }

  // ----- the changeset -----

  /** applyChangeset's three maps, filled in one pass over the operations. */
  method IndexOps(ops: seq<Operation>)
    returns (byEntity: map<string, seq<Operation>>, added: set<string>, dropped: set<string>)
    ensures forall id :: OpsOf(ops, id) == if id in byEntity then byEntity[id] else []
    ensures forall id :: id in added <==> Adds(ops, id)
    ensures forall id :: id in dropped <==> Drops(ops, id)
  {
    byEntity, added, dropped := map[], {}, {};
    for i := 0 to |ops|
      invariant forall id :: OpsOf(ops[..i], id) == if id in byEntity then byEntity[id] else []
      invariant forall id :: id in added <==> Adds(ops[..i], id)
      invariant forall id :: id in dropped <==> Drops(ops[..i], id)
    {
      assert ops[..i + 1][..i] == ops[..i];
      assert forall op :: op in ops[..i + 1] <==> op in ops[..i] || op == ops[i];
      var op := ops[i];
      var before := if op.entityId in byEntity then byEntity[op.entityId] else [];
      byEntity := byEntity[op.entityId := before + [op]];
      if op.change.AddEntity? {
        added := added + {op.entityId};
      } else if op.change.DropEntity? {
        dropped := dropped + {op.entityId};
      }
    }
    assert ops[..|ops|] == ops;
  }

  predicate DistinctFields(entities: seq<Entity>) {
    forall e | e in entities :: DistinctFieldIds(e.fields)
  }

  method CreateAddedEntities(tx: Tx, news: seq<Entity>, ghost ops: seq<Operation>, added: set<string>) returns (fault: Option<Fault>)
    requires DistinctFields(news) && forall id :: id in added <==> Adds(ops, id)
    modifies tx
    ensures fault.None? <==> CreateAdded(tx.p, old(tx.db), news, ops).Ok?
    ensures fault.None? ==> tx.db == CreateAdded(tx.p, old(tx.db), news, ops).value
  {
    hide CreateEntity, Adds;
    for i := 0 to |news|
      invariant CreateAdded(tx.p, old(tx.db), news[..i], ops) == Ok(tx.db)
    {
      assert news[..i + 1][..i] == news[..i];
      if news[i].id in added {
        fault := CreateEntityIn(tx, news[i]);
        if fault.Some? {
          CreateFails(tx.p, old(tx.db), news, ops, i + 1);
          return;
        }
      }
    }
    assert news[..|news|] == news;
    fault := None;
  }

  method ChangeSurvivingEntity(tx: Tx, olds: seq<Entity>, ne: Entity, own: seq<Operation>, isAdded: bool, ghost ops: seq<Operation>)
    returns (fault: Option<Fault>)
    requires DistinctFieldIds(ne.fields) && own == OpsOf(ops, ne.id) && isAdded == Adds(ops, ne.id)
    modifies tx
    ensures fault.None? <==> ChangeEntity(tx.p, old(tx.db), olds, ne, ops).Ok?
    ensures fault.None? ==> tx.db == ChangeEntity(tx.p, old(tx.db), olds, ne, ops).value
  {
    hide Adds, NeedsRebuild, Rebuild, NativeOps, OpsOf;
    if isAdded || own == [] {
      return None;
    }
    var oe := EntityById(olds, ne.id);
    var rebuild := NeedsRebuildLoop(own);
    if rebuild {
      if oe.None? {
        return Some(NoSuchTable);
      }
      fault := RebuildEntity(tx, oe.value, ne, own);
    } else {
      fault := ApplyNativeOps(tx, ne, own);
    }
  }

  method ChangeSurvivingEntities(tx: Tx, olds: seq<Entity>, news: seq<Entity>, ghost ops: seq<Operation>,
                                 byEntity: map<string, seq<Operation>>, added: set<string>) returns (fault: Option<Fault>)
    requires DistinctFields(news) && forall id :: id in added <==> Adds(ops, id)
    requires forall id :: OpsOf(ops, id) == if id in byEntity then byEntity[id] else []
    modifies tx
    ensures fault.None? <==> ChangeEntities(tx.p, old(tx.db), olds, news, ops).Ok?
    ensures fault.None? ==> tx.db == ChangeEntities(tx.p, old(tx.db), olds, news, ops).value
  {
    hide ChangeEntity, OpsOf, Adds;
    for i := 0 to |news|
      invariant ChangeEntities(tx.p, old(tx.db), olds, news[..i], ops) == Ok(tx.db)
    {
      assert news[..i + 1][..i] == news[..i];
      var own := if news[i].id in byEntity then byEntity[news[i].id] else [];
      fault := ChangeSurvivingEntity(tx, olds, news[i], own, news[i].id in added, ops);
      if fault.Some? {
        ChangeFails(tx.p, old(tx.db), olds, news, ops, i + 1);
        return;
      }
    }
    assert news[..|news|] == news;
    fault := None;
  }

  method DropRemovedEntities(tx: Tx, olds: seq<Entity>, ghost ops: seq<Operation>, dropped: set<string>) returns (fault: Option<Fault>)
    requires forall id :: id in dropped <==> Drops(ops, id)
    modifies tx
    ensures fault.None? <==> DropRemoved(tx.p, old(tx.db), olds, ops).Ok?
    ensures fault.None? ==> tx.db == DropRemoved(tx.p, old(tx.db), olds, ops).value
  {
    hide Drops;
    for i := 0 to |olds|
      invariant DropRemoved(tx.p, old(tx.db), olds[..i], ops) == Ok(tx.db)
    {
      assert olds[..i + 1][..i] == olds[..i];
      if olds[i].id in dropped {
        fault := tx.Exec(DropTable(olds[i].id));
        if fault.Some? {
          DropFails(tx.p, old(tx.db), olds, ops, i + 1);
          return;
        }
      }
    }
    assert olds[..|olds|] == olds;
    fault := None;
  }

  method ApplyChangeset(tx: Tx, olds: seq<Entity>, news: seq<Entity>, ops: seq<Operation>) returns (fault: Option<Fault>)
    requires DistinctFields(news)
    modifies tx
    ensures fault.None? <==> ApplyOps(tx.p, old(tx.db), olds, news, ops).Ok?
    ensures fault.None? ==> tx.db == ApplyOps(tx.p, old(tx.db), olds, news, ops).value
  {
    hide CreateAdded, ChangeEntities, DropRemoved, OpsOf, Adds, Drops;
    var byEntity, added, dropped := IndexOps(ops);
    fault := CreateAddedEntities(tx, news, ops, added);
    if fault.Some? {
      return;
    }
    fault := ChangeSurvivingEntities(tx, olds, news, ops, byEntity, added);
    if fault.Some? {
      return;
    }
    fault := DropRemovedEntities(tx, olds, ops, dropped);
  }

  /** An app's database file. */
  class Store {
    var db: Db
    const p: Platform

    constructor (p: Platform, db: Db)
      ensures this.p == p && this.db == db
    {
      this.p := p;
      this.db := db;
    }

    /**
     * Execute within RunMigration: the changeset and its fingerprint run in one transaction that
     * commits only if no foreign key dangles; on any fault the database is left as it was.
     */
    method Execute(oldApp: App, newApp: App, ops: seq<Operation>, commits: bool) returns (fault: Option<Fault>)
      requires DistinctFields(newApp.entities)
      modifies this
      ensures fault.None? <==> Executed(p, old(db), oldApp, newApp, ops, commits).Ok?
      ensures db == if fault.None? then Executed(p, old(db), oldApp, newApp, ops, commits).value else old(db)
    {
      hide ApplyOps, ForeignKeysHold, AllRenames, CanonicalText;
      var renamesOnly := AllNoSql(ops);
      if ops == [] || renamesOnly {
        assert AllRenames(ops) by {
          NoOpsAreRenames(ops);
        }
        return None;
      }
      var tx := new Tx(p, db);
      fault := ApplyChangeset(tx, oldApp.entities, newApp.entities, ops);
      if fault.Some? {
        return; // rolled back
      }
      var text := Fingerprint(p.num, newApp);
      fault := tx.Exec(RecordFingerprint(text));
      if !ForeignKeysHold(tx.db) {
        return Some(ForeignKeyFailed);
      }
      if !commits {
        return Some(TransactionFailed);
      }
      db := tx.db;
    }
  }

  lemma NoOpsAreRenames(ops: seq<Operation>)
    ensures ops == [] ==> AllRenames(ops)
  {
  }
}

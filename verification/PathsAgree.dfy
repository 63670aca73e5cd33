/** The two migration paths succeed together, but for columns SQLite will not drop. */
module PathsAgree {
  import opened Results
  import opened Schema
  import opened Sql
  import opened Materialize
  import opened Changesets
  import opened Witnesses
  import opened Diffs
  import opened Executor
  import opened Naming
  import opened ExecuteLoops
  import opened Views
  import opened NativePath
  import opened ChangesetShape
  import opened DiffMembers
  import opened Migration
  import opened WholeMigration
  import opened Reach
  import opened FastSlow
  import opened Findings

  // ----- what a successful rebuild shows about the new table -----

  lemma {:induction false} IndexStmtsKeepOk(p: Platform, db: Db, eid: string, fields: seq<Field>, pairs: set<(string, string)>)
    requires Ready(db, eid, pairs) && forall f | f in fields && f.unique :: (eid, f.id) in pairs
    requires TableOk(p, db.tables[eid]) && RunAll(p, IndexStmts(eid, eid, fields), db).Ok?
    ensures var after := RunAll(p, IndexStmts(eid, eid, fields), db).value;
            Ready(after, eid, pairs) && TableOk(p, after.tables[eid])
  {
    hide RunCreateUniqueIndex, TableOk, Shaped, Named, NamesDistinct;
    if fields != [] {
      var rest, f := fields[..|fields| - 1], fields[|fields| - 1];
      assert f in fields && forall g | g in rest :: g in fields;
      if f.unique {
        RunAllAppend(p, IndexStmts(eid, eid, rest), [CreateUniqueIndex(IndexName(eid, f.id), eid, f.id)], db);
        IndexStmtsKeepOk(p, db, eid, rest, pairs);
        var mid := RunAll(p, IndexStmts(eid, eid, rest), db).value;
        OneIndex(p, mid, eid, f.id);
        CreateIndexKeepsOk(p, mid, eid, f.id, pairs);
        CreateIndexExact(p, mid, eid, f.id, pairs);
      } else {
        IndexStmtsKeepOk(p, db, eid, rest, pairs);
      }
    }
  }

  /** A rebuilt table meets all its constraints. */
  lemma RebuiltIsOk(p: Platform, db: Db, oe: Entity, ne: Entity, ops: seq<Operation>, pairs: set<(string, string)>)
    requires Ready(db, ne.id, pairs) && UniquePairs([ne]) <= pairs && Rebuild(p, db, oe, ne, ops).Ok?
    ensures TableOk(p, RebuiltTable(p, oe, ne, ops, db.tables[ne.id]))
  {
    hide Columns, RebuiltRows, RowOk, NoDuplicates, Selectable, LosesInformation, HasEmptyRemap, Named, NamesDistinct, Shaped;
    RebuildOutcome(p, db, oe, ne, ops, pairs);
    var rows := RebuiltRows(p, oe.fields, ne.fields, ops, db.tables[ne.id].rows);
    var bare := Table(Columns(ne.fields), map[], rows, {});
    RebuiltShape(p, oe.fields, ne.fields, ops, db.tables[ne.id].rows);
    NewTableIsReady(db, ne.id, bare, pairs);
    PairsOfEntity(ne, pairs);
    IndexStmtsKeepOk(p, WithTable(db, ne.id, bare), ne.id, ne.fields, pairs);
  }

  // ----- running native operations in blocks -----

  lemma {:induction false} NativeOpsAppend(p: Platform, db: Db, eid: string, a: seq<Operation>, b: seq<Operation>)
    ensures NativeOps(p, db, eid, a + b) ==
            match NativeOps(p, db, eid, a) case Ok(mid) => NativeOps(p, mid, eid, b) case Err(x) => Err(x)
  {
    hide NativeOp;
    if b == [] {
      assert a + b == a;
    } else {
      assert (a + b)[..|a + b| - 1] == a + b[..|b| - 1];
      NativeOpsAppend(p, db, eid, a, b[..|b| - 1]);
    }
  }

  lemma OneNativeOp(p: Platform, db: Db, eid: string, op: Operation)
    ensures NativeOps(p, db, eid, [op]) == NativeOp(p, db, eid, op.change)
    ensures NativeOps(p, db, eid, []) == Ok(db)
  {
    hide NativeOp;
    assert [op][..|[op]| - 1] == [];
  }

  lemma AddingOp(p: Platform, db: Db, eid: string, ops: seq<Operation>, b: bool, op: Operation)
    requires NativeOps(p, db, eid, ops).Ok?
    ensures NativeOps(p, db, eid, Adding(ops, b, op)) ==
            if b then NativeOp(p, NativeOps(p, db, eid, ops).value, eid, op.change) else NativeOps(p, db, eid, ops)
  {
    hide NativeOp;
    if b {
      NativeOpsAppend(p, db, eid, ops, [op]);
      OneNativeOp(p, NativeOps(p, db, eid, ops).value, eid, op);
    }
  }

  // ----- one field -----

  lemma SameViewSameDuplicates(a: Table, b: Table, id: string)
    requires Shaped(a) && Shaped(b) && a.rows.Keys == b.rows.Keys && id in a.cols && id in b.cols
    requires CellsOf(a.rows, id) == CellsOf(b.rows, id) && NoDuplicates(b.rows, id)
    ensures NoDuplicates(a.rows, id)
  {
    forall r | r in a.rows ensures id in b.rows[r].cells && a.rows[r].cells[id] == b.rows[r].cells[id] {
      assert CellsOf(a.rows, id)[r] == CellsOf(b.rows, id)[r];
    }
    SameCellsSameDuplicates(b.rows, a.rows, id);
  }

  /** What the run so far must have left, for the operations on `id` to find what they expect. */
  ghost predicate Untouched(db: Db, eid: string, t: Table, id: string, names: set<string>, pairs: set<(string, string)>) {
    && Ready(db, eid, pairs) && SameRows(t.rows, db.tables[eid].rows)
    && ViewOf(db.tables[eid], id) == ViewOf(t, id)
    && db.tables.Keys == names
  }

  /** The rebuilt table, as the goal of the native path, but for the columns in which it holds the time. */
  ghost predicate Goal(p: Platform, eid: string, news: seq<Field>, t: Table, goal: Table) {
    && TableOk(p, goal) && Shaped(goal) && SameRows(t.rows, goal.rows)
    && (forall nf | nf in news && !(nf.id in t.cols && nf.id in p.clock) ::
          ViewOf(goal, nf.id) == AtRest(NativeView(p, eid, news, t, nf.id)))
  }

  lemma GoalUnique(p: Platform, eid: string, news: seq<Field>, t: Table, goal: Table, nf: Field)
    requires Goal(p, eid, news, t, goal) && DistinctFieldIds(news) && nf in news && nf.unique && Readable(p, nf.id)
    ensures nf.id in goal.cols && NoDuplicates(goal.rows, nf.id)
  {
    hide ColumnDef, Filled, CellsOf, RowOk, NoDuplicates;
    FieldByIdFinds(news, nf);
    assert ViewOf(goal, nf.id) == AtRest(NativeView(p, eid, news, t, nf.id));
  }

  lemma AddedColumnFits(p: Platform, eid: string, news: seq<Field>, t: Table, goal: Table, nf: Field)
    requires Goal(p, eid, news, t, goal) && DistinctFieldIds(news) && nf in news && nf.id !in t.cols
    ensures nf.id in goal.cols && CellsOf(goal.rows, nf.id) == Filled(p, nf, t.rows.Keys)
    ensures t.rows != map[] ==> Satisfies(p, nf.id, ColumnDef(nf), Stored(p, ColumnDef(nf).affinity, DefaultLiteral(p, nf)))
  {
    hide ColumnDef, DefaultLiteral, Stored, Satisfies, NoDuplicates;
    FieldByIdFinds(news, nf);
    assert ViewOf(goal, nf.id) == AtRest(NativeView(p, eid, news, t, nf.id));
    if t.rows != map[] {
      var r :| r in t.rows;
      assert RowOk(p, goal.cols, goal.rows[r]);
      assert CellsOf(goal.rows, nf.id)[r] == Filled(p, nf, t.rows.Keys)[r];
    }
  }

  lemma AddSucceeds(p: Platform, db: Db, eid: string, news: seq<Field>, t: Table, goal: Table, nf: Field, names: set<string>, pairs: set<(string, string)>)
    requires Untouched(db, eid, t, nf.id, names, pairs) && Goal(p, eid, news, t, goal) && DistinctFieldIds(news) && nf in news
    requires nf.id !in t.cols && !IsReserved(nf.id) && (nf.unique ==> (eid, nf.id) in pairs && IndexName(eid, nf.id) !in names && Readable(p, nf.id))
    requires UsableColumn(p, nf.id, ColumnDef(nf))
    ensures NativeOp(p, db, eid, AddField(nf)).Ok?
  {
    hide ColumnDef, DefaultLiteral, Stored, Satisfies, NoDuplicates, Widened, RunCreateUniqueIndex, TableOk, Named, NamesDistinct;
    AddedColumnFits(p, eid, news, t, goal, nf);
    assert RunAddColumn(p, db, eid, nf.id, ColumnDef(nf), DefaultLiteral(p, nf)).Ok?;
    if nf.unique {
      AddColumnTouches(p, db, eid, nf, pairs);
      var added := RunAddColumn(p, db, eid, nf.id, ColumnDef(nf), DefaultLiteral(p, nf)).value;
      GoalUnique(p, eid, news, t, goal, nf);
      SameViewSameDuplicates(added.tables[eid], goal, nf.id);
      CreateIndexSucceeds(p, added, eid, nf.id);
    }
  }

  lemma SurvivorGoal(p: Platform, eid: string, news: seq<Field>, t: Table, goal: Table, nf: Field)
    requires Goal(p, eid, news, t, goal) && DistinctFieldIds(news) && nf in news && nf.id in t.cols && Readable(p, nf.id)
    ensures nf.id in goal.cols && CellsOf(goal.rows, nf.id) == CellsOf(t.rows, nf.id)
  {
    hide ColumnDef, NoDuplicates, TableOk, Shaped, SameRows, CellsOf, Filled;
    FieldByIdFinds(news, nf);
    assert ViewOf(goal, nf.id) == AtRest(NativeView(p, eid, news, t, nf.id));
  }

  lemma UntouchedColumn(db: Db, eid: string, t: Table, id: string, names: set<string>, pairs: set<(string, string)>)
    requires Untouched(db, eid, t, id, names, pairs) && id in t.cols
    ensures id in db.tables[eid].cols && CellsOf(db.tables[eid].rows, id) == CellsOf(t.rows, id)
    ensures id in db.tables[eid].indexes <==> id in t.indexes
    ensures id in t.indexes ==> db.tables[eid].indexes[id] == t.indexes[id]
  {
    hide Ready, SameRows, CellsOf;
  }

  lemma ChangeUniqueSucceeds(p: Platform, db: Db, eid: string, olds: seq<Field>, news: seq<Field>, t: Table, goal: Table,
                             of: Field, nf: Field, names: set<string>, pairs: set<(string, string)>)
    requires Untouched(db, eid, t, nf.id, names, pairs) && Goal(p, eid, news, t, goal) && DistinctFieldIds(news) && nf in news
    requires Carries(t, eid, olds) && DistinctFieldIds(olds) && of in olds && of.id == nf.id && of.unique != nf.unique
    requires nf.unique ==> IndexName(eid, nf.id) !in names && Readable(p, nf.id)
    ensures NativeOp(p, db, eid, ChangeUnique(of, nf)).Ok?
  {
    hide ColumnDef, NoDuplicates, RunCreateUniqueIndex, TableOk, Named, NamesDistinct, CellsOf, Filled, ViewOf, Indexes, NativeView, IndexName;
    IdsOfFields(olds);
    UntouchedColumn(db, eid, t, nf.id, names, pairs);
    if nf.unique {
      SurvivorGoal(p, eid, news, t, goal, nf);
      GoalUnique(p, eid, news, t, goal, nf);
      SameViewSameDuplicates(db.tables[eid], goal, nf.id);
      CreateIndexSucceeds(p, db, eid, nf.id);
    } else {
      CarriedIndexDrops(db, eid, olds, t, of);
    }
  }

  lemma CarriedIndexDrops(db: Db, eid: string, olds: seq<Field>, t: Table, of: Field)
    requires Carries(t, eid, olds) && DistinctFieldIds(olds) && of in olds && of.unique && eid in db.tables
    requires of.id in t.indexes ==> of.id in db.tables[eid].indexes && db.tables[eid].indexes[of.id] == t.indexes[of.id]
    ensures RunDropIndex(db, IndexName(eid, of.id)).Ok?
  {
    hide ColumnDef, ViewOf, Indexes, IndexName, WithoutName;
    IndexOfField(eid, olds, of);
    IndexValues(eid, olds);
    assert Holds(db, eid, of.id, IndexName(eid, of.id));
  }

  /** Every operation on one field of the new manifest succeeds. */
  lemma FieldSucceeds(p: Platform, db: Db, eid: string, olds: seq<Field>, news: seq<Field>, t: Table, goal: Table,
                      nf: Field, names: set<string>, pairs: set<(string, string)>)
    requires Untouched(db, eid, t, nf.id, names, pairs) && Goal(p, eid, news, t, goal) && DistinctFieldIds(news) && nf in news
    requires Carries(t, eid, olds) && DistinctFieldIds(olds) && !IsReserved(nf.id)
    requires nf.unique ==> (eid, nf.id) in pairs && IndexName(eid, nf.id) !in names && Readable(p, nf.id)
    requires UsableColumn(p, nf.id, ColumnDef(nf))
    requires match FieldById(olds, nf.id) case None => true case Some(of) => KeepsDefinition(of, nf)
    ensures NativeOps(p, db, eid, FieldOps(eid, olds, nf)).Ok?
  {
    hide NativeOp, NativeOps, Untouched, Goal, EnumChanged, ReferenceChanged;
    match FieldById(olds, nf.id) {
      case None =>
        AddSucceeds(p, db, eid, news, t, goal, nf, names, pairs);
        OneNativeOp(p, db, eid, Op(eid, nf.id, AddField(nf)));
      case Some(of) =>
        var rename, unique := Op(eid, nf.id, RenameField(of, nf)), Op(eid, nf.id, ChangeUnique(of, nf));
        var named := Adding([], of.name != nf.name, rename);
        assert FieldChanges(eid, of, nf) == Adding(named, of.unique != nf.unique, unique);
        OneNativeOp(p, db, eid, rename);
        AddingOp(p, db, eid, [], of.name != nf.name, rename);
        RenameRunsNothing(p, db, eid, of, nf);
        AddingOp(p, db, eid, named, of.unique != nf.unique, unique);
        if of.unique != nf.unique {
          ChangeUniqueSucceeds(p, db, eid, olds, news, t, goal, of, nf, names, pairs);
        }
    }
  }

  lemma RenameRunsNothing(p: Platform, db: Db, eid: string, of: Field, nf: Field)
    ensures NativeOp(p, db, eid, RenameField(of, nf)) == Ok(db)
  {
  }

  // ----- all fields, then the drops -----

  /** SQLite accepts the names of the field's column and of its index. */
  predicate NamesAllow(p: Platform, db: Db, eid: string, nf: Field) {
    && !IsReserved(nf.id) && UsableColumn(p, nf.id, ColumnDef(nf))
    && (nf.unique ==> IndexName(eid, nf.id) !in db.tables && Readable(p, nf.id))
  }

  lemma FieldsElsewhere(p: Platform, eid: string, olds: seq<Field>, news: seq<Field>, id: string, v: ColumnView, rows: set<string>)
    requires DistinctFieldIds(news) && id !in FieldIds(news)
    ensures FoldView(p, eid, FieldsOps(eid, olds, news), id, v, rows) == v
  {
    hide FieldsOps, FoldView;
    FieldsOpsFold(p, eid, olds, news, id, v, rows);
  }

  /** After running some operations that do not touch `id`, its column is as it was. */
  lemma StillUntouched(p: Platform, db: Db, eid: string, ops: seq<Operation>, id: string, pairs: set<(string, string)>)
    requires Ready(db, eid, pairs) && AllCovered(eid, ops, pairs) && NativeOps(p, db, eid, ops).Ok?
    requires FoldView(p, eid, ops, id, ViewOf(db.tables[eid], id), db.tables[eid].rows.Keys) == ViewOf(db.tables[eid], id)
    ensures Untouched(NativeOps(p, db, eid, ops).value, eid, db.tables[eid], id, db.tables.Keys, pairs)
  {
    hide ViewOf, NativeOps, FoldView, AllCovered;
    NativeOpsFold(p, db, eid, ops, pairs);
  }

  lemma LastFieldIsNew(fields: seq<Field>)
    requires DistinctFieldIds(fields) && fields != []
    ensures fields[|fields| - 1].id !in FieldIds(fields[..|fields| - 1])
  {
  }

  lemma {:induction false} FieldsSucceed(p: Platform, db: Db, oe: Entity, ne: Entity, fields: seq<Field>, goal: Table, pairs: set<(string, string)>)
    requires oe.id == ne.id && DistinctFieldIds(oe.fields) && DistinctFieldIds(ne.fields) && DistinctFieldIds(fields)
    requires UniquePairs([oe]) <= pairs && UniquePairs([ne]) <= pairs
    requires Ready(db, ne.id, pairs) && Carries(db.tables[ne.id], ne.id, oe.fields)
    requires Goal(p, ne.id, ne.fields, db.tables[ne.id], goal)
    requires forall nf | nf in fields ::
               && nf in ne.fields && NamesAllow(p, db, ne.id, nf)
               && match FieldById(oe.fields, nf.id) case None => true case Some(of) => KeepsDefinition(of, nf)
    ensures NativeOps(p, db, ne.id, FieldsOps(ne.id, oe.fields, fields)).Ok?
  {
    hide FieldOps, Goal, KeepsDefinition, ViewOf, Untouched, Shaped, Named, NamesDistinct, UniquePairs, AllCovered, Carries, FieldById, FieldIds;
    var t := db.tables[ne.id];
    if fields == [] {
      OneNativeOp(p, db, ne.id, Op(ne.id, "", RenameEntity(oe, ne)));
    } else {
      var rest, nf := fields[..|fields| - 1], fields[|fields| - 1];
      assert nf in fields && forall f | f in rest :: f in fields;
      FieldsSucceed(p, db, oe, ne, rest, goal, pairs);
      LastFieldIsNew(fields);
      FieldsOpsCovered(oe, ne, rest, pairs);
      FieldsElsewhere(p, ne.id, oe.fields, rest, nf.id, ViewOf(t, nf.id), t.rows.Keys);
      StillUntouched(p, db, ne.id, FieldsOps(ne.id, oe.fields, rest), nf.id, pairs);
      UniqueCovered(ne, nf, pairs);
      NativeOpsAppend(p, db, ne.id, FieldsOps(ne.id, oe.fields, rest), FieldOps(ne.id, oe.fields, nf));
      FieldSucceeds(p, NativeOps(p, db, ne.id, FieldsOps(ne.id, oe.fields, rest)).value, ne.id, oe.fields, ne.fields, t, goal, nf, db.tables.Keys, pairs);
    }
  }

  lemma DropsCovered(eid: string, olds: seq<Field>, news: seq<Field>, pairs: set<(string, string)>)
    ensures AllCovered(eid, DropOps(eid, olds, news), pairs)
  {
    hide DropOps;
    DropOpsAreDrops(eid, olds, news);
  }

  lemma UntouchedDrops(db: Db, eid: string, t: Table, id: string, names: set<string>, pairs: set<(string, string)>)
    requires Untouched(db, eid, t, id, names, pairs) && id in t.cols && !InUse(t, id)
    ensures RunDropColumn(db, eid, id).Ok?
  {
    hide Narrowed, Shaped, Named, NamesDistinct;
  }

  lemma {:induction false} DropsSucceed(p: Platform, db: Db, eid: string, olds: seq<Field>, news: seq<Field>, pairs: set<(string, string)>)
    requires Ready(db, eid, pairs) && DistinctFieldIds(olds)
    requires forall of | of in olds && of.id !in FieldIds(news) :: of.id in db.tables[eid].cols && !InUse(db.tables[eid], of.id)
    ensures NativeOps(p, db, eid, DropOps(eid, olds, news)).Ok?
  {
    hide ViewOf, InUse, Untouched, Shaped, Named, NamesDistinct, AllCovered, FieldIds, RunDropColumn;
    if olds == [] {
      assert NativeOps(p, db, eid, []) == Ok(db);
    } else {
      var rest, of := olds[..|olds| - 1], olds[|olds| - 1];
      assert of in olds && forall f | f in rest :: f in olds;
      DropsSucceed(p, db, eid, rest, news, pairs);
      DropsCovered(eid, rest, news, pairs);
      LastFieldIsNew(olds);
      DropOpsFold(p, eid, rest, news, of.id, ViewOf(db.tables[eid], of.id), db.tables[eid].rows.Keys);
      StillUntouched(p, db, eid, DropOps(eid, rest, news), of.id, pairs);
      var mid := NativeOps(p, db, eid, DropOps(eid, rest, news)).value;
      NativeOpsAppend(p, db, eid, DropOps(eid, rest, news), When(of.id !in FieldIds(news), Op(eid, of.id, DropField(of))));
      OneNativeOp(p, mid, eid, Op(eid, of.id, DropField(of)));
      if of.id !in FieldIds(news) {
        UntouchedDrops(mid, eid, db.tables[eid], of.id, db.tables.Keys, pairs);
      }
    }
  }

  /** Dropped columns are, after the field operations, as they were. */
  lemma DropsAfterFields(p: Platform, db: Db, oe: Entity, ne: Entity, pairs: set<(string, string)>)
    requires oe.id == ne.id && DistinctFieldIds(oe.fields) && DistinctFieldIds(ne.fields)
    requires UniquePairs([oe]) <= pairs && UniquePairs([ne]) <= pairs && Ready(db, ne.id, pairs)
    requires NativeOps(p, db, ne.id, FieldsOps(ne.id, oe.fields, ne.fields)).Ok?
    requires forall of | of in oe.fields && of.id !in FieldIds(ne.fields) :: of.id in db.tables[ne.id].cols && !InUse(db.tables[ne.id], of.id)
    ensures var mid := NativeOps(p, db, ne.id, FieldsOps(ne.id, oe.fields, ne.fields)).value;
            && Ready(mid, ne.id, pairs)
            && NativeOps(p, mid, ne.id, DropOps(ne.id, oe.fields, ne.fields)).Ok?
  {
    hide ViewOf, InUse, Untouched, Shaped, Named, NamesDistinct, AllCovered, FieldIds, UniquePairs, NativeOps, FieldsOps;
    var ops := FieldsOps(ne.id, oe.fields, ne.fields);
    var mid := NativeOps(p, db, ne.id, ops).value;
    FieldsOpsCovered(oe, ne, ne.fields, pairs);
    NativeOpsFold(p, db, ne.id, ops, pairs);
    forall of | of in oe.fields && of.id !in FieldIds(ne.fields)
      ensures of.id in mid.tables[ne.id].cols && !InUse(mid.tables[ne.id], of.id)
    {
      FieldsElsewhere(p, ne.id, oe.fields, ne.fields, of.id, ViewOf(db.tables[ne.id], of.id), db.tables[ne.id].rows.Keys);
      SameViewSameUse(db.tables[ne.id], mid.tables[ne.id], of.id);
    }
    DropsSucceed(p, mid, ne.id, oe.fields, ne.fields, pairs);
  }

  lemma SameViewSameUse(a: Table, b: Table, id: string)
    requires ViewOf(a, id) == ViewOf(b, id) && id in a.cols && !InUse(a, id)
    ensures id in b.cols && !InUse(b, id)
  {
  }

  lemma NativeSucceeds(p: Platform, db: Db, oe: Entity, ne: Entity, goal: Table, pairs: set<(string, string)>)
    requires oe.id == ne.id && DistinctFieldIds(oe.fields) && DistinctFieldIds(ne.fields)
    requires UniquePairs([oe]) <= pairs && UniquePairs([ne]) <= pairs
    requires Ready(db, ne.id, pairs) && Carries(db.tables[ne.id], ne.id, oe.fields)
    requires Goal(p, ne.id, ne.fields, db.tables[ne.id], goal)
    requires forall nf | nf in ne.fields ::
               NamesAllow(p, db, ne.id, nf) && match FieldById(oe.fields, nf.id) case None => true case Some(of) => KeepsDefinition(of, nf)
    requires forall of | of in oe.fields && of.id !in FieldIds(ne.fields) :: of.id in db.tables[ne.id].cols && !InUse(db.tables[ne.id], of.id)
    ensures NativeOps(p, db, ne.id, EntityChanges(oe, ne)).Ok?
  {
    hide InUse, Goal, KeepsDefinition, Shaped, Named, NamesDistinct, FieldIds, UniquePairs, FieldsOps, DropOps, Carries, NamesAllow, FieldById;
    var rename := Op(ne.id, "", RenameEntity(oe, ne));
    var first, fields, drops := When(oe.name != ne.name, rename), FieldsOps(ne.id, oe.fields, ne.fields), DropOps(ne.id, oe.fields, ne.fields);
    OneNativeOp(p, db, ne.id, rename);
    assert NativeOps(p, db, ne.id, first) == Ok(db);
    FieldsSucceed(p, db, oe, ne, ne.fields, goal, pairs);
    DropsAfterFields(p, db, oe, ne, pairs);
    NativeOpsAppend(p, db, ne.id, first, fields);
    NativeOpsAppend(p, db, ne.id, first + fields, drops);
  }

  /** The entity drops no unique field, and no reference that its table declares. */
  predicate DropsNothingInUse(t: Table, oe: Entity, ne: Entity) {
    forall of | of in oe.fields && of.id !in FieldIds(ne.fields) :: !Undroppable(t, of)
  }

  lemma GoalReached(p: Platform, oe: Entity, ne: Entity, ops: seq<Operation>, t: Table)
    requires DistinctFieldIds(ne.fields) && TableOk(p, t) && t.cols.Keys == FieldIds(oe.fields)
    requires TableOk(p, RebuiltTable(p, oe, ne, ops, t)) && NoRemap(ne.fields, ops)
    requires forall nf | nf in ne.fields ::
               && (nf.id in t.cols ==> t.cols[nf.id] == ColumnDef(nf))
               && match FieldById(oe.fields, nf.id) case None => !NeedsBackfill(nf) case Some(of) => KeepsDefinition(of, nf)
    ensures Goal(p, ne.id, ne.fields, t, RebuiltTable(p, oe, ne, ops, t))
  {
    hide ColumnDef, ViewOf, NativeView, KeepsDefinition, NeedsBackfill, HasKind, RebuiltRows, TableOk, Columns, Indexes, WitnessOf;
    RebuiltShape(p, oe.fields, ne.fields, ops, t.rows);
    OkIsShaped(p, RebuiltTable(p, oe, ne, ops, t));
    forall nf | nf in ne.fields && !(nf.id in t.cols && nf.id in p.clock)
      ensures ViewOf(RebuiltTable(p, oe, ne, ops, t), nf.id) == AtRest(NativeView(p, ne.id, ne.fields, t, nf.id))
    {
      RebuiltView(p, oe, ne, ops, t, nf);
    }
  }

  lemma UnusedColumns(t: Table, oe: Entity, ne: Entity)
    requires MatchesButBounds(t, oe) && DistinctFieldIds(oe.fields) && DropsNothingInUse(t, oe, ne)
    ensures forall of | of in oe.fields && of.id !in FieldIds(ne.fields) :: of.id in t.cols && !InUse(t, of.id)
  {
    hide InUse, MatchesButBounds, FieldIds;
    forall of | of in oe.fields && of.id !in FieldIds(ne.fields) ensures of.id in t.cols && !InUse(t, of.id) {
      ForeignKeyOfColumn(t, oe, of);
      UndroppableIsInUse(t, oe, of);
    }
  }

  /** What a successful rebuild has accepted, native statements may use. */
  lemma RebuiltNames(p: Platform, db: Db, oe: Entity, ne: Entity, news: seq<Entity>, ops: seq<Operation>, pairs: set<(string, string)>)
    requires ValidEntity(news, ne) && Lawful(p, db) && Rebuild(p, db, oe, ne, ops).Ok?
    requires Ready(db, ne.id, pairs) && UniquePairs([ne]) <= pairs
    ensures forall nf | nf in ne.fields :: NamesAllow(p, db, ne.id, nf)
  {
    hide ColumnDef, Columns, RebuiltRows, RowOk, Selectable, LosesInformation, HasEmptyRemap, HasUnreadable, IndexTaken, UsableTable, UsableName, ValidField, FieldIds, IndexName, IndexStmts, Lawful, UsableColumns,
      Named, NamesDistinct, Shaped, UniquePairs;
    var bare := Table(Columns(ne.fields), map[], RebuiltRows(p, oe.fields, ne.fields, ops, db.tables[ne.id].rows), {});
    LawfulTable(p, db, ne.id);
    TableIsLawful(p, db, ne.id, bare);
    IndexStmtsLawful(p, WithTable(db, ne.id, bare), ne.id, ne.fields);
    RebuildOutcome(p, db, oe, ne, ops, pairs);
    RebuildLawful(p, db, oe, ne, ops);
    IndexedIsReadable(p, Rebuild(p, db, oe, ne, ops).value, ne);
    forall nf | nf in ne.fields ensures UsableColumn(p, nf.id, ColumnDef(nf)) {
      OneUsableColumn(p, ne.fields, nf);
    }
  }

  lemma IndexedIsReadable(p: Platform, db: Db, e: Entity)
    requires Lawful(p, db) && e.id in db.tables && db.tables[e.id].indexes == Indexes(e.id, e.fields)
    ensures forall f | f in e.fields && f.unique :: Readable(p, f.id)
  {
    hide UsableTable, UsableColumns, Readable;
    forall f | f in e.fields && f.unique ensures Readable(p, f.id) {
      assert f.id in db.tables[e.id].indexes;
    }
  }

  lemma OneUsableColumn(p: Platform, fields: seq<Field>, f: Field)
    requires DistinctFieldIds(fields) && f in fields && UsableColumns(p, Columns(fields))
    ensures UsableColumn(p, f.id, ColumnDef(f))
  {
    hide ColumnDef, Columns;
    ColumnOfField(fields, f);
  }

  /**
   * The two paths succeed on exactly the same databases, but for what SQLite will not drop: on a
   * difference that needs no rebuild and keeps the bounds of surviving fields, the native
   * statements succeed if and only if a rebuild would and no dropped field is unique or a reference that
   * the table declares. A surviving column that is no expression stops the rebuild alone.
   */
  lemma {:induction false} PathsSucceedTogether(p: Platform, db: Db, olds: seq<Entity>, news: seq<Entity>, ops: seq<Operation>, oe: Entity, ne: Entity, pairs: set<(string, string)>)
    requires WellFormed(olds) && WellFormed(news) && ne in news && EntityById(olds, ne.id) == Some(oe)
    requires ValidEntity(olds, oe) && ValidEntity(news, ne)
    requires SameChanges(ops, DiffOps(olds, news)) && NamesFit(db, olds, news, pairs) && Lawful(p, db)
    requires ne.id in db.tables && Matches(db.tables[ne.id], oe) && TableOk(p, db.tables[ne.id])
    requires TempName(ne.id) !in db.tables
    requires !NeedsRebuild(OpsOf(ops, ne.id)) && BoundsKept(oe, ne) && NoRemap(ne.fields, OpsOf(ops, ne.id))
    ensures NativeOps(p, db, ne.id, OpsOf(ops, ne.id)).Ok? && !HasUnreadable(p, oe.fields, ne.fields)
            <==> Rebuild(p, db, oe, ne, OpsOf(ops, ne.id)).Ok? && DropsNothingInUse(db.tables[ne.id], oe, ne)
  {
    hide DiffOps, EntityChanges, ColumnDef, KeepsDefinition, NeedsBackfill, ViewOf, NativeView, RebuiltRows, Columns, Indexes, Goal, NativeOps, Rebuild,
      NoRemap, Named, NamesDistinct, UniquePairs, TableOk, OpsOf, Shaped, FieldIds, RebuiltTable, ValidEntity, Matches, MatchesButBounds, BoundsKept, NeedsRebuild, DropsNothingInUse, InUse, Carries, NamesAllow, Lawful, HasUnreadable, Timeless;
    var own := OpsOf(ops, ne.id);
    var t := db.tables[ne.id];
    assert oe in olds;
    PairsOfMember(olds, oe, pairs);
    PairsOfMember(news, ne, pairs);
    AddedEntities(olds, news, ops, ne);
    OwnOps(olds, news, ops, ne);
    ExactMatches(t, oe);
    OkIsShaped(p, t);
    NativeOpsOfSameChanges(p, db, ne.id, own, EntityChanges(oe, ne));
    if NativeOps(p, db, ne.id, own).Ok? {
      NativeRefinesRebuild(p, db, olds, news, ops, oe, ne, pairs);
      DropsWereUnused(p, db, oe, ne, own, pairs);
    }
    if HasUnreadable(p, oe.fields, ne.fields) {
      UnreadableIsRefused(p, db, oe, ne, own);
    }
    if Rebuild(p, db, oe, ne, own).Ok? && DropsNothingInUse(t, oe, ne) {
      RebuiltIsOk(p, db, oe, ne, own, pairs);
      WithoutRebuildDefinitionsStay(olds, news, ops, oe, ne);
      KeptColumns(olds, news, oe, ne, t);
      CarriedByMatch(t, oe);
      CarriedKeys(t, oe);
      GoalReached(p, oe, ne, own, t);
      UnusedColumns(t, oe, ne);
      RebuiltNames(p, db, oe, ne, news, own, pairs);
      NativeSucceeds(p, db, oe, ne, RebuiltTable(p, oe, ne, own, t), pairs);
    }
  }

  lemma CarriedKeys(t: Table, e: Entity)
    requires Carries(t, e.id, e.fields)
    ensures t.cols.Keys == FieldIds(e.fields)
  {
  }

  lemma DropsWereUnused(p: Platform, db: Db, oe: Entity, ne: Entity, ops: seq<Operation>, pairs: set<(string, string)>)
    requires oe.id == ne.id && DistinctFieldIds(oe.fields) && DistinctFieldIds(ne.fields)
    requires Ready(db, ne.id, pairs) && MatchesButBounds(db.tables[ne.id], oe)
    requires UniquePairs([oe]) <= pairs && UniquePairs([ne]) <= pairs
    requires SameChanges(ops, EntityChanges(oe, ne)) && NativeOps(p, db, ne.id, ops).Ok?
    ensures DropsNothingInUse(db.tables[ne.id], oe, ne)
  {
    hide EntityChanges, NativeOps, MatchesButBounds, Shaped, Named, NamesDistinct, UniquePairs, FieldIds;
    forall of | of in oe.fields && of.id !in FieldIds(ne.fields) ensures !Undroppable(db.tables[ne.id], of) {
      if Undroppable(db.tables[ne.id], of) {
        UndroppableFieldNeverDrops(p, db, oe, ne, ops, of, pairs);
      }
    }
  }
}

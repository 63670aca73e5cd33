/** engine/migrate/execute.go: applying a changeset inside one migration transaction. */
module Executor {
  import opened Results
  import opened Schema
  import opened Sql
  import opened Materialize
  import opened Changesets
  import opened Witnesses
  import opened Fingerprints

  // ----- what each step does to the database -----

  predicate AllRenames(ops: seq<Operation>) {
    forall op | op in ops :: IsRename(op)
  }

  /** A change that alters a column's baked-in definition, which only a rebuild can do. */
  predicate RebuildOnly(change: Change) {
    match change
    case ChangeType(_, _) => true
    case ChangeRequired(_, _) => true
    case ChangeEnum(_, _) => true
    case ChangeReference(_, _) => true
    case AddField(f) => NeedsBackfill(f)
    case _ => false
  }

  predicate NeedsRebuild(ops: seq<Operation>) {
    exists op | op in ops :: RebuildOnly(op.change)
  }

  function DefaultLiteral(p: Platform, f: Field): Value {
    if f.default.Some? then SqlLiteral(p, f.default.value, f.typ) else NULL
  }

  /** One iteration of applyNativeOps. */
  function NativeOp(p: Platform, db: Db, eid: string, change: Change): Result<Db, Fault> {
    match change
    case RenameEntity(_, _) => Ok(db)
    case RenameField(_, _) => Ok(db)
    case AddField(f) =>
      var added :- RunAddColumn(p, db, eid, f.id, ColumnDef(f), DefaultLiteral(p, f));
      if f.unique then RunCreateUniqueIndex(p, added, IndexName(eid, f.id), eid, f.id) else Ok(added)
    case DropField(f) => RunDropColumn(db, eid, f.id)
    case ChangeUnique(_, f) =>
      if f.unique then RunCreateUniqueIndex(p, db, IndexName(eid, f.id), eid, f.id)
      else RunDropIndex(db, IndexName(eid, f.id))
    case _ => Err(NotANativeOp)
  }

  function NativeOps(p: Platform, db: Db, eid: string, ops: seq<Operation>): Result<Db, Fault> {
    if ops == [] then Ok(db)
    else
      var before :- NativeOps(p, db, eid, ops[..|ops| - 1]);
      NativeOp(p, before, eid, ops[|ops| - 1].change)
  }

  /** The row a rebuild makes of an old row: each field's declared value, in stored form. */
  function RebuiltRow(p: Platform, olds: seq<Field>, news: seq<Field>, ops: seq<Operation>, row: Row): Row {
    Row(row.created, row.updated,
        map id | id in FieldIds(news) ::
          var nf := FieldById(news, id).value;
          Stored(p, ColumnDef(nf).affinity,
                 Declared(p, FieldById(olds, id), nf, WitnessOf(ops, id), Seen(p, id, Cell(row.cells, id)))))
  }

  function RebuiltRows(p: Platform, olds: seq<Field>, news: seq<Field>, ops: seq<Operation>, rows: map<string, Row>)
    : map<string, Row>
  {
    map r | r in rows :: RebuiltRow(p, olds, news, ops, rows[r])
  }

  function LossyRows(p: Platform, t: Table, nf: Field): set<string>
    requires nf.id in t.cols
  {
    set r | r in t.rows && Lossy(p, t.cols[nf.id].affinity, nf.typ, Seen(p, nf.id, Cell(t.rows[r].cells, nf.id)))
  }

  predicate MustNotLose(of: Option<Field>, nf: Field, w: Option<Witness>) {
    of.Some? && of.value.typ != nf.typ && HasKind(w, WitnessCoerce) && w.value.coerce == CoerceFail
  }

  /** A field narrowed with coerce=fail has a row that would lose information. */
  predicate LosesInformation(p: Platform, t: Table, olds: seq<Field>, news: seq<Field>, ops: seq<Operation>) {
    exists nf | nf in news ::
      MustNotLose(FieldById(olds, nf.id), nf, WitnessOf(ops, nf.id)) && nf.id in t.cols && LossyRows(p, t, nf) != {}
  }

  predicate Selectable(olds: seq<Field>, news: seq<Field>, ops: seq<Operation>) {
    forall nf | nf in news :: SelectFault(FieldById(olds, nf.id), nf, WitnessOf(ops, nf.id)).None?
  }

  predicate HasEmptyRemap(olds: seq<Field>, news: seq<Field>, ops: seq<Operation>) {
    exists nf | nf in news :: EmptyRemap(FieldById(olds, nf.id), nf, WitnessOf(ops, nf.id))
  }

  /** A surviving column that the copying SELECT cannot name. */
  predicate HasUnreadable(p: Platform, olds: seq<Field>, news: seq<Field>) {
    exists nf | nf in news :: Unread(p, olds, nf)
  }

  function TempName(eid: string): string {
    "mig_" + eid
  }

  /** SQLite accepts the names a rebuild gives: the temporary table's, its columns', and the final one. */
  predicate NamesAccepted(p: Platform, db: Db, ne: Entity) {
    && TempName(ne.id) !in db.tables && !IndexTaken(db, TempName(ne.id))
    && UsableColumns(p, Columns(ne.fields)) && UsableName(p, ne.id)
    && !IndexTaken(db.(tables := db.tables - {ne.id}), ne.id)
  }

  /** rebuildEntity. */
  function Rebuild(p: Platform, db: Db, oe: Entity, ne: Entity, ops: seq<Operation>): Result<Db, Fault> {
    if ne.id !in db.tables then Err(NoSuchTable)
    else if !(FieldIds(ne.fields) * FieldIds(oe.fields) <= db.tables[ne.id].cols.Keys) then Err(NoSuchColumn)
    else if LosesInformation(p, db.tables[ne.id], oe.fields, ne.fields, ops) then Err(LossyCoercion)
    else if !NamesAccepted(p, db, ne) then Err(NameTaken)
    else if !Selectable(oe.fields, ne.fields, ops) then Err(MissingWitness)
    else if HasEmptyRemap(oe.fields, ne.fields, ops) || HasUnreadable(p, oe.fields, ne.fields) then Err(SyntaxError)
    else
      var cols := Columns(ne.fields);
      var rows := RebuiltRows(p, oe.fields, ne.fields, ops, db.tables[ne.id].rows);
      if !(forall r | r in rows :: RowOk(p, cols, rows[r])) then Err(NotNullOrCheckFailed)
      else RunAll(p, IndexStmts(ne.id, ne.id, ne.fields), WithTable(db, ne.id, Table(cols, map[], rows, {})))
  }

  function CreateEntity(p: Platform, db: Db, e: Entity): Result<Db, Fault> {
    var created :- RunCreateTable(p, db, e.id, Columns(e.fields), true);
    RunAll(p, IndexStmts(e.id, e.id, e.fields), created)
  }

  function OpsOf(ops: seq<Operation>, eid: string): seq<Operation> {
    if ops == [] then []
    else
      var rest, op := OpsOf(ops[..|ops| - 1], eid), ops[|ops| - 1];
      if op.entityId == eid then rest + [op] else rest
  }

  predicate Adds(ops: seq<Operation>, eid: string) {
    exists op | op in ops :: op.entityId == eid && op.change.AddEntity?
  }

  predicate Drops(ops: seq<Operation>, eid: string) {
    exists op | op in ops :: op.entityId == eid && op.change.DropEntity?
  }

  function CreateAdded(p: Platform, db: Db, news: seq<Entity>, ops: seq<Operation>): Result<Db, Fault> {
    if news == [] then Ok(db)
    else
      var before :- CreateAdded(p, db, news[..|news| - 1], ops);
      var e := news[|news| - 1];
      if Adds(ops, e.id) then CreateEntity(p, before, e) else Ok(before)
  }

  function ChangeEntity(p: Platform, db: Db, olds: seq<Entity>, e: Entity, ops: seq<Operation>): Result<Db, Fault> {
    var own := OpsOf(ops, e.id);
    var oe := EntityById(olds, e.id);
    if Adds(ops, e.id) || own == [] then Ok(db)
    else if NeedsRebuild(own) then if oe.None? then Err(NoSuchTable) else Rebuild(p, db, oe.value, e, own)
    else NativeOps(p, db, e.id, own)
  }

  function ChangeEntities(p: Platform, db: Db, olds: seq<Entity>, news: seq<Entity>, ops: seq<Operation>)
    : Result<Db, Fault>
  {
    if news == [] then Ok(db)
    else
      var before :- ChangeEntities(p, db, olds, news[..|news| - 1], ops);
      ChangeEntity(p, before, olds, news[|news| - 1], ops)
  }

  function DropRemoved(p: Platform, db: Db, olds: seq<Entity>, ops: seq<Operation>): Result<Db, Fault> {
    if olds == [] then Ok(db)
    else
      var before :- DropRemoved(p, db, olds[..|olds| - 1], ops);
      var e := olds[|olds| - 1];
      if Drops(ops, e.id) then RunDropTable(before, e.id) else Ok(before)
  }

  /** applyChangeset: create added entities, change surviving ones, drop removed ones. */
  function ApplyOps(p: Platform, db: Db, olds: seq<Entity>, news: seq<Entity>, ops: seq<Operation>): Result<Db, Fault> {
    var created :- CreateAdded(p, db, news, ops);
    var changed :- ChangeEntities(p, created, olds, news, ops);
    DropRemoved(p, changed, olds, ops)
  }

  /** Execute: zero SQL for renames; otherwise the changeset, its fingerprint and the foreign-key check, or nothing. */
  function Executed(p: Platform, db: Db, oldApp: App, newApp: App, ops: seq<Operation>, commits: bool): Result<Db, Fault> {
    if AllRenames(ops) then Ok(db)
    else
      var applied :- ApplyOps(p, db, oldApp.entities, newApp.entities, ops);
      var stamped := applied.(fingerprint := Some(CanonicalText(p.num, newApp)));
      if !ForeignKeysHold(stamped) then Err(ForeignKeyFailed)
      else if !commits then Err(TransactionFailed)
      else Ok(stamped)
  }

  // ----- the loops -----

  /** A database handle's open transaction; a failed statement leaves it as it was. */
  class Tx {
    var db: Db
    const p: Platform

    constructor (p: Platform, db: Db)
      ensures this.p == p && this.db == db
    {
      this.p := p;
      this.db := db;
    }

    method Exec(stmt: Stmt) returns (fault: Option<Fault>)
      modifies this
      ensures fault.None? <==> Run(p, stmt, old(db)).Ok?
      ensures db == if fault.None? then Run(p, stmt, old(db)).value else old(db)
    {
      var r := Run(p, stmt, db);
      match r {
        case Ok(after) =>
          db := after;
          fault := None;
        case Err(error) =>
          fault := Some(error);
      }
    }

    method ExecAll(stmts: seq<Stmt>) returns (fault: Option<Fault>)
      modifies this
      ensures fault.None? <==> RunAll(p, stmts, old(db)).Ok?
      ensures fault.None? ==> db == RunAll(p, stmts, old(db)).value
    {
      for i := 0 to |stmts|
        invariant RunAll(p, stmts[..i], old(db)) == Ok(db)
      {
        assert stmts[..i + 1][..i] == stmts[..i];
        fault := Exec(stmts[i]);
        if fault.Some? {
          FailsOn(p, stmts, i, old(db));
          return;
        }
      }
      assert stmts[..|stmts|] == stmts;
      fault := None;
    }
  }

  lemma {:induction false} FailsOn(p: Platform, stmts: seq<Stmt>, i: nat, db: Db)
    requires i < |stmts| && RunAll(p, stmts[..i + 1], db).Err?
    ensures RunAll(p, stmts, db).Err?
  {
    assert stmts == stmts[..i + 1] + stmts[i + 1..];
    RunAllAppend(p, stmts[..i + 1], stmts[i + 1..], db);
  }
}

/**
 * Safe changes with remaps attached, or with columns that read as the clock: when the old rows can
 * still be told from the new ones.
 */
module Remaps {
  import opened Results
  import opened Schema
  import opened Sql
  import opened Materialize
  import opened Changesets
  import opened Witnesses
  import opened Diffs
  import opened Executor
  import opened Naming
  import opened Views
  import opened NativePath
  import opened ChangesetShape
  import opened DiffMembers
  import opened Migration
  import opened WholeMigration
  import opened Reach
  import opened FastSlow
  import opened Lossless
  import opened Meaning
  import opened Confinement

  // ----- which remaps are applied, and what they merge -----

  predicate OnlyRemaps(ops: seq<Operation>) {
    forall op | op in ops :: op.witness_.Some? ==> op.witness_.value.kind == WitnessRemap
  }

  /** A remap, extended by the identity. */
  function MapsTo(remap: map<string, string>, x: string): string {
    if x in remap then remap[x] else x
  }

  /** The remap takes the old value `x` where it takes another old value, too. */
  predicate MergesValue(of: Field, remap: map<string, string>, x: string) {
    exists y | y in of.values :: y != x && MapsTo(remap, y) == MapsTo(remap, x)
  }

  predicate MergesCell(of: Field, nf: Field, w: Option<Witness>, v: Value) {
    IsRemapped(nf, w) && v.TEXT? && MergesValue(of, w.value.remap, v.s)
  }

  /** The rebuild writes the time over the value, or maps it to where it maps another. */
  predicate BlursCell(p: Platform, of: Field, nf: Field, w: Option<Witness>, v: Value) {
    nf.id in p.clock || MergesCell(of, nf, w, v)
  }

  /** A rebuild of the entity blurs a value that some row holds. */
  predicate BlursHeld(p: Platform, t: Table, oe: Entity, ne: Entity, own: seq<Operation>) {
    NeedsRebuild(own) &&
    exists nf, r | nf in ne.fields && r in t.rows && nf.id in FieldIds(oe.fields) ::
      BlursCell(p, FieldById(oe.fields, nf.id).value, nf, WitnessOf(own, nf.id), Cell(t.rows[r].cells, nf.id))
  }

  predicate BlursAny(p: Platform, db: Db, olds: seq<Entity>, news: seq<Entity>, ops: seq<Operation>) {
    exists ne | ne in news && ne.id in EntityIds(olds) && ne.id in db.tables ::
      BlursHeld(p, db.tables[ne.id], EntityById(olds, ne.id).value, ne, OpsOf(ops, ne.id))
  }

  lemma {:induction false} OnlyRemapFound(ops: seq<Operation>, id: string)
    requires OnlyRemaps(ops)
    ensures WitnessOf(ops, id).Some? ==> WitnessOf(ops, id).value.kind == WitnessRemap
  {
    if ops != [] {
      assert ops[|ops| - 1] in ops;
      OnlyRemapFound(ops[..|ops| - 1], id);
    }
  }

  lemma OwnRemap(ops: seq<Operation>, eid: string, id: string)
    requires OnlyRemaps(ops)
    ensures RemapOrNone(WitnessOf(OpsOf(ops, eid), id))
  {
    OpsOfMembers(ops, eid);
    OnlyRemapFound(OpsOf(ops, eid), id);
  }

  predicate RemapOrNone(w: Option<Witness>) {
    w.Some? ==> w.value.kind == WitnessRemap
  }

  // ----- one value -----

  predicate HeldBy(p: Platform, of: Field, v: Value) {
    Stored(p, ColumnDef(of).affinity, v) == v && Satisfies(p, of.id, ColumnDef(of), v)
  }

  function NewValue(p: Platform, of: Field, nf: Field, w: Option<Witness>, v: Value): Value {
    Stored(p, ColumnDef(nf).affinity, Declared(p, Some(of), nf, w, Seen(p, nf.id, v)))
  }

  predicate Survives(of: Field, nf: Field) {
    (of.typ == nf.typ || IsWidening(of.typ, nf.typ)) && !Tightens(of, nf)
  }

  lemma EnumValueMoves(p: Platform, of: Field, nf: Field, w: Option<Witness>, v: Value)
    requires Survives(of, nf) && IsRemapped(nf, w) && HeldBy(p, of, v) && of.id == nf.id && nf.id !in p.clock
    ensures v.NULL? || (v.TEXT? && v.s in of.values)
    ensures NewValue(p, of, nf, w, v) == if v.NULL? then NULL else TEXT(MapsTo(w.value.remap, v.s))
  {
  }

  lemma PlainValueMoves(p: Platform, of: Field, nf: Field, w: Option<Witness>, v: Value)
    requires Survives(of, nf) && !IsRemapped(nf, w) && nf.id !in p.clock
    ensures NewValue(p, of, nf, w, v) == Carried(p, nf, v)
  {
  }

  /** A value that is not blurred is told from every other value the column may hold. */
  lemma ApartUnlessBlurred(p: Platform, of: Field, nf: Field, w: Option<Witness>, v: Value, u: Value)
    requires Survives(of, nf) && HeldBy(p, of, v) && HeldBy(p, of, u) && of.id == nf.id && !BlursCell(p, of, nf, w, v)
    requires NewValue(p, of, nf, w, v) == NewValue(p, of, nf, w, u)
    ensures v == u
  {
    hide Survives, HeldBy, NewValue, Carried, MapsTo;
    if IsRemapped(nf, w) {
      EnumValueMoves(p, of, nf, w, v);
      EnumValueMoves(p, of, nf, w, u);
    } else {
      PlainValueMoves(p, of, nf, w, v);
      PlainValueMoves(p, of, nf, w, u);
      ApartWhenPlain(p, of, nf, v, u);
    }
  }

  lemma ApartWhenPlain(p: Platform, of: Field, nf: Field, v: Value, u: Value)
    requires Survives(of, nf) && HeldBy(p, of, v) && HeldBy(p, of, u) && Carried(p, nf, v) == Carried(p, nf, u)
    ensures v == u
  {
    hide ColumnDef, Stored, Satisfies, Carried;
    CarriedApart(p, of, nf, v, u);
  }

  /** A blurred value can be replaced in its column, and the rebuild will not notice. */
  lemma BlurredTwin(p: Platform, of: Field, nf: Field, w: Option<Witness>, v: Value) returns (u: Value)
    requires Survives(of, nf) && HeldBy(p, of, v) && of.id == nf.id && BlursCell(p, of, nf, w, v)
    ensures u != v && HeldBy(p, of, u) && NewValue(p, of, nf, w, u) == NewValue(p, of, nf, w, v)
    ensures nf.id !in p.clock ==> of.typ.Enum?
  {
    if nf.id in p.clock {
      u := TimedTwin(p, of, v);
    } else {
      u := MergedTwin(p, of, nf, w, v);
    }
  }

  lemma MergedTwin(p: Platform, of: Field, nf: Field, w: Option<Witness>, v: Value) returns (u: Value)
    requires Survives(of, nf) && HeldBy(p, of, v) && of.id == nf.id && nf.id !in p.clock && MergesCell(of, nf, w, v)
    ensures u != v && HeldBy(p, of, u) && of.typ.Enum? && NewValue(p, of, nf, w, u) == NewValue(p, of, nf, w, v)
  {
    var y :| y in of.values && y != v.s && MapsTo(w.value.remap, y) == MapsTo(w.value.remap, v.s);
    u := TEXT(y);
    EnumHolds(p, of, y);
    EnumValueMoves(p, of, nf, w, v);
    EnumValueMoves(p, of, nf, w, u);
  }

  /** The CHECKs of a column that reads as the clock test the clock, so it may hold any other value. */
  lemma TimedTwin(p: Platform, of: Field, v: Value) returns (u: Value)
    requires HeldBy(p, of, v) && of.id in p.clock
    ensures u != v && HeldBy(p, of, u)
  {
    match ColumnDef(of).affinity
    case TextAffinity => u := if v == TEXT("") then TEXT("x") else TEXT("");
    case IntegerAffinity => u := if v == INTEGER(0) then INTEGER(1) else INTEGER(0);
    case RealAffinity => u := if v == REAL(0.0) then REAL(1.0) else REAL(0.0);
  }

  lemma EnumHolds(p: Platform, of: Field, y: string)
    requires of.typ.Enum? && y in of.values && of.id !in p.clock
    ensures HeldBy(p, of, TEXT(y))
  {
  }

  // ----- rows that are told apart -----

  lemma SurvivorOf(news: seq<Field>, of: Field) returns (nf: Field)
    requires KeptOrWidened(of, news)
    ensures nf in news && nf.id == of.id && FieldById(news, of.id) == Some(nf) && Survives(of, nf)
  {
    nf := FieldById(news, of.id).value;
  }

  lemma OneCellTold(p: Platform, olds: seq<Entity>, oe: Entity, ne: Entity, own: seq<Operation>, t: Table, u: Table, of: Field, r: string)
    requires ValidEntity(olds, oe) && DistinctFieldIds(ne.fields) && Matches(t, oe) && TableOk(p, t) && Matches(u, oe) && TableOk(p, u)
    requires of in oe.fields && KeptOrWidened(of, ne.fields) && NeedsRebuild(own) && !BlursHeld(p, t, oe, ne, own)
    requires r in t.rows && r in u.rows
    requires RebuiltRow(p, oe.fields, ne.fields, own, t.rows[r]) == RebuiltRow(p, oe.fields, ne.fields, own, u.rows[r])
    ensures Cell(t.rows[r].cells, of.id) == Cell(u.rows[r].cells, of.id)
  {
    hide RebuiltRow, KeptOrWidened, Matches, TableOk, ValidField, IsReserved, BlursCell, WitnessOf, NeedsRebuild, ColumnDef, Stored, Satisfies, Declared, Survives, Cell, Seen;
    var nf := SurvivorOf(ne.fields, of);
    FieldByIdFinds(oe.fields, of);
    IdsOfFields(oe.fields);
    RebuiltRowCell(p, oe.fields, ne.fields, own, t.rows[r], nf);
    RebuiltRowCell(p, oe.fields, ne.fields, own, u.rows[r], nf);
    OldCell(p, olds, oe, t, of, r);
    OldCell(p, olds, oe, u, of, r);
    assert !BlursCell(p, of, nf, WitnessOf(own, nf.id), Cell(t.rows[r].cells, nf.id));
    ApartUnlessBlurred(p, of, nf, WitnessOf(own, nf.id), Cell(t.rows[r].cells, of.id), Cell(u.rows[r].cells, of.id));
  }

  lemma OneRowTold(p: Platform, olds: seq<Entity>, oe: Entity, ne: Entity, own: seq<Operation>, t: Table, u: Table, r: string)
    requires ValidEntity(olds, oe) && DistinctFieldIds(ne.fields) && Matches(t, oe) && TableOk(p, t) && Matches(u, oe) && TableOk(p, u)
    requires forall of | of in oe.fields :: KeptOrWidened(of, ne.fields)
    requires NeedsRebuild(own) && !BlursHeld(p, t, oe, ne, own) && r in t.rows && r in u.rows
    requires RebuiltRow(p, oe.fields, ne.fields, own, t.rows[r]) == RebuiltRow(p, oe.fields, ne.fields, own, u.rows[r])
    ensures t.rows[r] == u.rows[r]
  {
    hide KeptOrWidened, Matches, TableOk, ValidField, IsReserved, NeedsRebuild, BlursHeld, Cell, MatchesButBounds, Stored, Declared;
    ExactMatches(t, oe);
    ExactMatches(u, oe);
    RowKeys(p, oe, t, r);
    RowKeys(p, oe, u, r);
    forall id | id in FieldIds(oe.fields) ensures t.rows[r].cells[id] == u.rows[r].cells[id] {
      OneCellTold(p, olds, oe, ne, own, t, u, FieldById(oe.fields, id).value, r);
      CellOf(t.rows[r].cells, id);
      CellOf(u.rows[r].cells, id);
    }
    assert t.rows[r].cells == u.rows[r].cells;
  }

  /** Two tables that migrate to the same one held the same rows, if nothing the first held was blurred. */
  lemma TableTold(p: Platform, olds: seq<Entity>, news: seq<Entity>, ops: seq<Operation>, oe: Entity, ne: Entity, t: Table, u: Table, after: Table)
    requires WellFormed(olds) && WellFormed(news) && ne in news && EntityById(olds, ne.id) == Some(oe) && ValidEntity(olds, oe)
    requires SameChanges(ops, DiffOps(olds, news)) && AllSafe(ops)
    requires Matches(t, oe) && TableOk(p, t) && Matches(u, oe) && TableOk(p, u)
    requires Migrated(p, t, after, oe, ne, OpsOf(ops, ne.id)) && Migrated(p, u, after, oe, ne, OpsOf(ops, ne.id))
    requires !BlursHeld(p, t, oe, ne, OpsOf(ops, ne.id))
    ensures u.rows == t.rows
  {
    hide DiffOps, KeptOrWidened, FillsItself, Matches, MatchesButBounds, TableOk, OpsOf, AllSafe, BlursHeld, NeedsRebuild, ViewOf, NativeView, RebuiltRow,
      Selectable, LosesInformation, AllRowsOk, Columns, Indexes, CarriesRows, RecoveredRows, ValidField, IsReserved;
    ExactMatches(t, oe);
    ExactMatches(u, oe);
    var own := OpsOf(ops, ne.id);
    if NeedsRebuild(own) {
      SafeFields(olds, news, ops, oe, ne);
      assert RebuiltRows(p, oe.fields, ne.fields, own, t.rows) == RebuiltRows(p, oe.fields, ne.fields, own, u.rows);
      RebuiltTogether(p, oe.fields, ne.fields, own, t.rows, u.rows);
      forall r | r in t.rows ensures t.rows[r] == u.rows[r] {
        OneRowTold(p, olds, oe, ne, own, t, u, r);
      }
    } else {
      NativeSurvivorCarries(p, olds, news, ops, oe, ne, t, after);
      NativeSurvivorCarries(p, olds, news, ops, oe, ne, u, after);
    }
  }

  lemma RebuiltTogether(p: Platform, olds: seq<Field>, news: seq<Field>, ops: seq<Operation>, a: map<string, Row>, b: map<string, Row>)
    requires RebuiltRows(p, olds, news, ops, a) == RebuiltRows(p, olds, news, ops, b)
    ensures a.Keys == b.Keys
    ensures forall r | r in a :: RebuiltRow(p, olds, news, ops, a[r]) == RebuiltRow(p, olds, news, ops, b[r])
  {
    hide RebuiltRow;
    assert RebuiltRows(p, olds, news, ops, a).Keys == a.Keys;
    assert RebuiltRows(p, olds, news, ops, b).Keys == b.Keys;
    forall r | r in a ensures RebuiltRow(p, olds, news, ops, a[r]) == RebuiltRow(p, olds, news, ops, b[r]) {
      assert RebuiltRows(p, olds, news, ops, a)[r] == RebuiltRow(p, olds, news, ops, a[r]);
      assert RebuiltRows(p, olds, news, ops, b)[r] == RebuiltRow(p, olds, news, ops, b[r]);
    }
  }

  // ----- rows that are not -----

  function WithCell(rows: map<string, Row>, r: string, id: string, v: Value): map<string, Row>
    requires r in rows
  {
    rows[r := rows[r].(cells := rows[r].cells[id := v])]
  }

  lemma TwinRowOk(p: Platform, cols: map<string, Column>, row: Row, id: string, v: Value)
    requires RowOk(p, cols, row) && id in cols
    requires Stored(p, cols[id].affinity, v) == v && Satisfies(p, id, cols[id], v)
    ensures RowOk(p, cols, row.(cells := row.cells[id := v]))
  {
    hide Stored, Satisfies;
  }

  /** The twin table is as good as the one it is made of. */
  lemma TwinTableOk(p: Platform, olds: seq<Entity>, oe: Entity, t: Table, of: Field, r: string, v: Value)
    requires ValidEntity(olds, oe) && Matches(t, oe) && TableOk(p, t) && of in oe.fields && r in t.rows
    requires !of.unique && HeldBy(p, of, v)
    ensures TableOk(p, t.(rows := WithCell(t.rows, r, of.id, v)))
  {
    hide ColumnDef, Stored, Satisfies, ValidField, IsReserved, NoDuplicates, Columns, Indexes, RowOk;
    var u := t.(rows := WithCell(t.rows, r, of.id, v));
    ColumnsOfFields(oe.fields);
    IdsOfFields(oe.fields);
    TwinRowOk(p, t.cols, t.rows[r], of.id, v);
    IndexOfField(oe.id, oe.fields, of);
    forall c | c in u.indexes ensures c in u.cols && NoDuplicates(u.rows, c) {
      CellElsewhere(t.rows, r, of.id, v, c);
      SameCellsSameDuplicates(t.rows, u.rows, c);
    }
  }

  lemma CellElsewhere(rows: map<string, Row>, r: string, id: string, v: Value, c: string)
    requires r in rows && c != id
    ensures forall i | i in rows :: c in WithCell(rows, r, id, v)[i].cells ==>
              c in rows[i].cells && WithCell(rows, r, id, v)[i].cells[c] == rows[i].cells[c]
  {
  }

  lemma EnumNotUnique(olds: seq<Entity>, oe: Entity, of: Field)
    requires ValidEntity(olds, oe) && of in oe.fields && of.typ.Enum?
    ensures !of.unique
  {
    assert ValidField(olds, of);
  }

  lemma TwinRowRebuilt(p: Platform, oe: Entity, ne: Entity, own: seq<Operation>, row: Row, of: Field, nf: Field, v: Value)
    requires DistinctFieldIds(ne.fields) && nf in ne.fields && FieldById(oe.fields, nf.id) == Some(of)
    requires NewValue(p, of, nf, WitnessOf(own, nf.id), v) == NewValue(p, of, nf, WitnessOf(own, nf.id), Cell(row.cells, nf.id))
    ensures RebuiltRow(p, oe.fields, ne.fields, own, row.(cells := row.cells[nf.id := v])) == RebuiltRow(p, oe.fields, ne.fields, own, row)
  {
    hide Stored, Declared, WitnessOf, ColumnDef, RebuiltRow, FieldIds;
    var twin := row.(cells := row.cells[nf.id := v]);
    var a, b := RebuiltRow(p, oe.fields, ne.fields, own, twin), RebuiltRow(p, oe.fields, ne.fields, own, row);
    FieldByIdFinds(ne.fields, nf);
    RebuiltParts(p, oe.fields, ne.fields, own, twin);
    RebuiltParts(p, oe.fields, ne.fields, own, row);
    forall id | id in FieldIds(ne.fields) ensures a.cells[id] == b.cells[id] {
      var g := FieldById(ne.fields, id).value;
      RebuiltRowCell(p, oe.fields, ne.fields, own, twin, g);
      RebuiltRowCell(p, oe.fields, ne.fields, own, row, g);
    }
    assert a.cells == b.cells;
  }

  /** The rebuild makes the same of the twin rows. */
  lemma TwinRebuilt(p: Platform, oe: Entity, ne: Entity, own: seq<Operation>, rows: map<string, Row>, of: Field, nf: Field, r: string, v: Value)
    requires DistinctFieldIds(ne.fields) && nf in ne.fields && FieldById(oe.fields, nf.id) == Some(of) && r in rows
    requires NewValue(p, of, nf, WitnessOf(own, nf.id), v) == NewValue(p, of, nf, WitnessOf(own, nf.id), Cell(rows[r].cells, nf.id))
    ensures RebuiltRows(p, oe.fields, ne.fields, own, WithCell(rows, r, nf.id, v)) == RebuiltRows(p, oe.fields, ne.fields, own, rows)
  {
    hide RebuiltRow, NewValue, WitnessOf;
    TwinRowRebuilt(p, oe, ne, own, rows[r], of, nf, v);
  }

  // ----- the whole migration -----

  /** A database as the old manifest would have it. */
  ghost predicate OldDb(p: Platform, db: Db, app: App) {
    CatalogueIs(db, app) && DbOk(p, db) && Lawful(p, db)
  }

  predicate SameRowsEverywhere(a: Db, b: Db) {
    forall t | t in a.tables :: t in b.tables && b.tables[t].rows == a.tables[t].rows
  }

  /** The old rows follow from the new database: no other old database migrates to it. */
  ghost predicate Recoverable(p: Platform, db: Db, oldApp: App, newApp: App, ops: seq<Operation>, commits: bool) {
    forall other | OldDb(p, other, oldApp) && Executed(p, other, oldApp, newApp, ops, commits) == Executed(p, db, oldApp, newApp, ops, commits) ::
      SameRowsEverywhere(db, other)
  }

  lemma OldDbIsShaped(p: Platform, db: Db, app: App)
    requires OldDb(p, db, app) && ValidApp(app)
    ensures CatalogueButBounds(db, app) && WellShaped(db)
  {
    hide TableOk, ValidEntity, Matches, MatchesButBounds, Shaped;
    forall t | t in db.tables ensures Shaped(db.tables[t]) {
      OkIsShaped(p, db.tables[t]);
    }
    forall e | e in app.entities ensures e.id in db.tables && MatchesButBounds(db.tables[e.id], e) {
      assert e.id in EntityIds(app.entities);
      ExactMatches(db.tables[e.id], e);
    }
  }

  lemma OldTable(p: Platform, db: Db, app: App, e: Entity)
    requires OldDb(p, db, app) && e in app.entities
    ensures e.id in db.tables && Matches(db.tables[e.id], e) && TableOk(p, db.tables[e.id])
  {
    hide TableOk, Matches;
    assert e.id in EntityIds(app.entities);
  }

  lemma UnblurredIsRecoverable(p: Platform, db: Db, other: Db, oldApp: App, newApp: App, ops: seq<Operation>, commits: bool)
    requires ValidApp(oldApp) && ValidApp(newApp) && NoNameClash(oldApp.entities, newApp.entities)
    requires OldDb(p, db, oldApp) && OldDb(p, other, oldApp)
    requires SameChanges(ops, DiffOps(oldApp.entities, newApp.entities)) && AllSafe(ops)
    requires Executed(p, db, oldApp, newApp, ops, commits).Ok? && !BlursAny(p, db, oldApp.entities, newApp.entities, ops)
    requires Executed(p, other, oldApp, newApp, ops, commits) == Executed(p, db, oldApp, newApp, ops, commits)
    ensures SameRowsEverywhere(db, other)
  {
    hide DiffOps, Executed, Migrated, Matches, TableOk, AllSafe, NoNameClash, BlursHeld, OpsOf, ValidEntity, CatalogueButBounds, WellShaped, OldDb, CatalogueIs;
    var olds, news := oldApp.entities, newApp.entities;
    var after := Executed(p, db, oldApp, newApp, ops, commits).value;
    ValidIsWellFormed(oldApp);
    ValidIsWellFormed(newApp);
    OldDbIsShaped(p, db, oldApp);
    OldDbIsShaped(p, other, oldApp);
    ExecuteReaches(p, db, oldApp, newApp, ops, commits);
    ExecuteReaches(p, other, oldApp, newApp, ops, commits);
    forall oe | oe in olds
      ensures oe.id in db.tables && oe.id in other.tables && other.tables[oe.id].rows == db.tables[oe.id].rows
    {
      SafeEntitiesSurvive(olds, news, ops, oe);
      EntityByIdFinds(olds, oe);
      var ne := EntityById(news, oe.id).value;
      OldTable(p, db, oldApp, oe);
      OldTable(p, other, oldApp, oe);
      assert Survived(p, db, after, olds, ne, ops) && Survived(p, other, after, olds, ne, ops);
      TableTold(p, olds, news, ops, oe, ne, db.tables[oe.id], other.tables[oe.id], after.tables[oe.id]);
    }
    OnlyEntitiesHaveTables(p, db, oldApp);
  }

  lemma OnlyEntitiesHaveTables(p: Platform, db: Db, app: App)
    requires OldDb(p, db, app)
    ensures forall t | t in db.tables :: exists e | e in app.entities :: e.id == t
  {
    hide TableOk, Matches;
  }

  lemma NothingIsLossy(ops: seq<Operation>, eid: string, of: Option<Field>, nf: Field)
    requires OnlyRemaps(ops)
    ensures !MustNotLose(of, nf, WitnessOf(OpsOf(ops, eid), nf.id))
  {
    OwnRemap(ops, eid, nf.id);
  }

  lemma TwinIsOld(p: Platform, db: Db, app: App, e: Entity, of: Field, r: string, v: Value)
    requires ValidApp(app) && OldDb(p, db, app) && e in app.entities && of in e.fields && !of.unique && HeldBy(p, of, v)
    requires e.id in db.tables && r in db.tables[e.id].rows
    ensures OldDb(p, Reshelved(db, e.id, WithCell(db.tables[e.id].rows, r, of.id, v)), app)
  {
    hide HeldBy, WithCell, ValidField, IsReserved, TableOk, Columns, Indexes, Lawful;
    assert ValidEntity(app.entities, e);
    OldTable(p, db, app, e);
    TwinTableOk(p, app.entities, e, db.tables[e.id], of, r, v);
    ReshelvedLawful(p, db, e.id, WithCell(db.tables[e.id].rows, r, of.id, v));
  }

  lemma ReshelvedLawful(p: Platform, db: Db, eid: string, rows: map<string, Row>)
    requires Lawful(p, db) && eid in db.tables
    ensures Lawful(p, Reshelved(db, eid, rows))
  {
    hide UsableTable, UsableColumns, Readable;
    var after := Reshelved(db, eid, rows);
    forall t, c, i | Holds(after, t, c, i) ensures i !in after.tables {
      assert Holds(db, t, c, i);
    }
  }

  /** A column that is blurred is never unique: it reads as the clock, or is an enum. */
  lemma BlurredNotUnique(p: Platform, db: Db, app: App, e: Entity, of: Field)
    requires ValidApp(app) && OldDb(p, db, app) && e in app.entities && of in e.fields
    requires of.id in p.clock || of.typ.Enum?
    ensures !of.unique
  {
    hide UsableTable, UsableColumns, ValidField, IsReserved, TableOk, Columns;
    assert ValidEntity(app.entities, e);
    OldTable(p, db, app, e);
    IndexOfField(e.id, e.fields, of);
    if of.typ.Enum? {
      EnumNotUnique(app.entities, e, of);
    }
  }

  /** A table that holds a blurred value has twin rows, one cell apart, that its rebuild makes the same of. */
  lemma TwinOfBlurred(p: Platform, olds: seq<Entity>, news: seq<Entity>, ops: seq<Operation>, oe: Entity, ne: Entity, t: Table)
    returns (of: Field, r: string, v: Value)
    requires WellFormed(olds) && WellFormed(news) && ne in news && EntityById(olds, ne.id) == Some(oe) && ValidEntity(olds, oe)
    requires SameChanges(ops, DiffOps(olds, news)) && AllSafe(ops)
    requires Matches(t, oe) && TableOk(p, t) && BlursHeld(p, t, oe, ne, OpsOf(ops, ne.id))
    ensures of in oe.fields && (of.id in p.clock || of.typ.Enum?) && HeldBy(p, of, v) && r in t.rows && v != Cell(t.rows[r].cells, of.id)
    ensures RebuiltRows(p, oe.fields, ne.fields, OpsOf(ops, ne.id), WithCell(t.rows, r, of.id, v))
            == RebuiltRows(p, oe.fields, ne.fields, OpsOf(ops, ne.id), t.rows)
  {
    hide DiffOps, Matches, TableOk, AllSafe, OpsOf, ValidField, IsReserved, KeptOrWidened, FillsItself, BlursCell, NeedsRebuild, WitnessOf, RebuiltRows, NewValue, Survives, HeldBy, Stored, Satisfies, ColumnDef;
    var own := OpsOf(ops, ne.id);
    var nf :| nf in ne.fields && exists i | i in t.rows && nf.id in FieldIds(oe.fields) ::
      BlursCell(p, FieldById(oe.fields, nf.id).value, nf, WitnessOf(own, nf.id), Cell(t.rows[i].cells, nf.id));
    r :| r in t.rows && nf.id in FieldIds(oe.fields)
      && BlursCell(p, FieldById(oe.fields, nf.id).value, nf, WitnessOf(own, nf.id), Cell(t.rows[r].cells, nf.id));
    of := FieldById(oe.fields, nf.id).value;
    SafeFields(olds, news, ops, oe, ne);
    FieldByIdFinds(ne.fields, nf);
    var _ := SurvivorOf(ne.fields, of);
    OldCell(p, olds, oe, t, of, r);
    HeldIs(p, of, Cell(t.rows[r].cells, of.id));
    v := BlurredTwin(p, of, nf, WitnessOf(own, nf.id), Cell(t.rows[r].cells, of.id));
    TwinRebuilt(p, oe, ne, own, t.rows, of, nf, r, v);
  }

  /** A blurred value leaves a second old database that migrates alike. */
  lemma BlurredIsLost(p: Platform, db: Db, oldApp: App, newApp: App, ops: seq<Operation>, commits: bool, oe: Entity, ne: Entity)
    requires ValidApp(oldApp) && ValidApp(newApp) && OldDb(p, db, oldApp)
    requires SameChanges(ops, DiffOps(oldApp.entities, newApp.entities)) && AllSafe(ops) && OnlyRemaps(ops)
    requires Executed(p, db, oldApp, newApp, ops, commits).Ok?
    requires ne in newApp.entities && EntityById(oldApp.entities, ne.id) == Some(oe)
    requires ne.id in db.tables && BlursHeld(p, db.tables[ne.id], oe, ne, OpsOf(ops, ne.id))
    ensures !Recoverable(p, db, oldApp, newApp, ops, commits)
  {
    hide DiffOps, Executed, Matches, TableOk, AllSafe, OpsOf, ValidEntity, OldDb, HeldBy, NeedsRebuild, WitnessOf, RebuiltRows, MustNotLose, OnlyRemaps, Adds, BlursCell, WithCell;
    var olds, news, t := oldApp.entities, newApp.entities, db.tables[ne.id];
    ValidIsWellFormed(oldApp);
    ValidIsWellFormed(newApp);
    OldTable(p, db, oldApp, oe);
    var of, r, v := TwinOfBlurred(p, olds, news, ops, oe, ne, t);
    var rows := WithCell(t.rows, r, of.id, v);
    var other := Reshelved(db, ne.id, rows);
    BlurredNotUnique(p, db, oldApp, oe, of);
    TwinIsOld(p, db, oldApp, oe, of, r, v);
    AddedEntities(olds, news, ops, ne);
    forall g | g in ne.fields ensures !MustNotLose(FieldById(oe.fields, g.id), g, WitnessOf(OpsOf(ops, ne.id), g.id)) {
      NothingIsLossy(ops, ne.id, FieldById(oe.fields, g.id), g);
    }
    ExecuteForgets(p, db, other, t.rows, rows, oldApp, newApp, ne, ops, commits);
    TwinDiffers(t.rows, r, of.id, v);
    assert !SameRowsEverywhere(db, other);
  }

  lemma TwinDiffers(rows: map<string, Row>, r: string, id: string, v: Value)
    requires r in rows && v != Cell(rows[r].cells, id)
    ensures WithCell(rows, r, id, v) != rows
  {
    assert Cell(WithCell(rows, r, id, v)[r].cells, id) == v;
  }

  lemma HeldIs(p: Platform, of: Field, v: Value)
    requires Stored(p, ColumnDef(of).affinity, v) == v && Satisfies(p, of.id, ColumnDef(of), v)
    ensures HeldBy(p, of, v)
  {
  }

  /**
   * What `safe` promises, remaps or none. When every operation is classified safe, only remaps are
   * attached and the migration succeeds, the old rows can be told from the new database if and only
   * if no rebuild of a table with rows wrote the time over a column, or applied a remap that takes a
   * value some row holds where it takes another of the field's old values.
   */
  lemma RemapsOnSafeChanges(p: Platform, db: Db, oldApp: App, newApp: App, ops: seq<Operation>, commits: bool)
    requires ValidApp(oldApp) && ValidApp(newApp) && NoNameClash(oldApp.entities, newApp.entities)
    requires OldDb(p, db, oldApp)
    requires SameChanges(ops, DiffOps(oldApp.entities, newApp.entities)) && AllSafe(ops) && OnlyRemaps(ops)
    requires Executed(p, db, oldApp, newApp, ops, commits).Ok?
    ensures Recoverable(p, db, oldApp, newApp, ops, commits) <==> !BlursAny(p, db, oldApp.entities, newApp.entities, ops)
  {
    hide DiffOps, Executed, AllSafe, NoNameClash, BlursHeld, OpsOf, ValidApp, OldDb, OnlyRemaps, SameRowsEverywhere;
    var olds, news := oldApp.entities, newApp.entities;
    if BlursAny(p, db, olds, news, ops) {
      var ne :| ne in news && ne.id in EntityIds(olds) && ne.id in db.tables
        && BlursHeld(p, db.tables[ne.id], EntityById(olds, ne.id).value, ne, OpsOf(ops, ne.id));
      BlurredIsLost(p, db, oldApp, newApp, ops, commits, EntityById(olds, ne.id).value, ne);
    } else {
      forall other | OldDb(p, other, oldApp)
                     && Executed(p, other, oldApp, newApp, ops, commits) == Executed(p, db, oldApp, newApp, ops, commits)
        ensures SameRowsEverywhere(db, other)
      {
        UnblurredIsRecoverable(p, db, other, oldApp, newApp, ops, commits);
      }
    }
  }

  /** Each applied remap, extended by the identity, takes no two old values of its field to one. */
  predicate InjectiveRemaps(olds: seq<Entity>, news: seq<Entity>, ops: seq<Operation>) {
    forall ne, nf | ne in news && ne.id in EntityIds(olds) && NeedsRebuild(OpsOf(ops, ne.id)) && nf in ne.fields
                    && nf.id in FieldIds(EntityById(olds, ne.id).value.fields) && IsRemapped(nf, WitnessOf(OpsOf(ops, ne.id), nf.id)) ::
      Injective(FieldById(EntityById(olds, ne.id).value.fields, nf.id).value, WitnessOf(OpsOf(ops, ne.id), nf.id).value.remap)
  }

  predicate Injective(of: Field, remap: map<string, string>) {
    forall x, y | x in of.values && y in of.values && MapsTo(remap, x) == MapsTo(remap, y) :: x == y
  }

  /** Injective remaps lose nothing, whatever the old rows were, where no rebuild reads the clock. */
  lemma InjectiveRemapsAreRecoverable(p: Platform, db: Db, oldApp: App, newApp: App, ops: seq<Operation>, commits: bool)
    requires ValidApp(oldApp) && ValidApp(newApp) && NoNameClash(oldApp.entities, newApp.entities)
    requires OldDb(p, db, oldApp)
    requires SameChanges(ops, DiffOps(oldApp.entities, newApp.entities)) && AllSafe(ops) && OnlyRemaps(ops)
    requires InjectiveRemaps(oldApp.entities, newApp.entities, ops)
    requires forall ne | ne in newApp.entities && ne.id in EntityIds(oldApp.entities) ::
               ReadsNoClock(p, EntityById(oldApp.entities, ne.id).value, ne, ops)
    requires Executed(p, db, oldApp, newApp, ops, commits).Ok?
    ensures Recoverable(p, db, oldApp, newApp, ops, commits)
  {
    hide DiffOps, Executed, AllSafe, NoNameClash, OpsOf, OldDb, OnlyRemaps, Recoverable, WitnessOf, NeedsRebuild, ValidEntity, MapsTo, Matches, TableOk, KeptOrWidened, FillsItself;
    var olds, news := oldApp.entities, newApp.entities;
    ValidIsWellFormed(oldApp);
    ValidIsWellFormed(newApp);
    forall ne | ne in news && ne.id in EntityIds(olds) && ne.id in db.tables
      ensures !BlursHeld(p, db.tables[ne.id], EntityById(olds, ne.id).value, ne, OpsOf(ops, ne.id))
    {
      var oe, own := EntityById(olds, ne.id).value, OpsOf(ops, ne.id);
      SafeFields(olds, news, ops, oe, ne);
      OldTable(p, db, oldApp, oe);
      forall nf, r | nf in ne.fields && r in db.tables[ne.id].rows && nf.id in FieldIds(oe.fields) && NeedsRebuild(own)
        ensures !BlursCell(p, FieldById(oe.fields, nf.id).value, nf, WitnessOf(own, nf.id), Cell(db.tables[ne.id].rows[r].cells, nf.id))
      {
        assert !Timed(p, oe.fields, nf);
        InjectiveMergesNothing(p, db, oldApp, oe, ne, own, FieldById(oe.fields, nf.id).value, nf, r);
      }
    }
    RemapsOnSafeChanges(p, db, oldApp, newApp, ops, commits);
  }

  lemma InjectiveMergesNothing(p: Platform, db: Db, app: App, oe: Entity, ne: Entity, own: seq<Operation>, of: Field, nf: Field, r: string)
    requires ValidApp(app) && oe in app.entities && of in oe.fields && of.id == nf.id && DistinctFieldIds(ne.fields) && nf in ne.fields
    requires oe.id in db.tables && Matches(db.tables[oe.id], oe) && TableOk(p, db.tables[oe.id]) && r in db.tables[oe.id].rows
    requires KeptOrWidened(of, ne.fields) && nf.id !in p.clock
    requires IsRemapped(nf, WitnessOf(own, nf.id)) ==> Injective(of, WitnessOf(own, nf.id).value.remap)
    ensures !MergesCell(of, nf, WitnessOf(own, nf.id), Cell(db.tables[oe.id].rows[r].cells, nf.id))
  {
    hide WitnessOf, Matches, TableOk, MapsTo, ColumnDef, Stored, Satisfies, ValidField, IsReserved;
    FieldByIdFinds(ne.fields, nf);
    assert ValidEntity(app.entities, oe);
    OldCell(p, app.entities, oe, db.tables[oe.id], of, r);
    var v, w := Cell(db.tables[oe.id].rows[r].cells, of.id), WitnessOf(own, nf.id);
    HeldIs(p, of, v);
    if IsRemapped(nf, w) {
      EnumValueMoves(p, of, nf, w, v);
    }
  }

  /** A remap that takes a held value out of the new value set is refused by the column's CHECK. */
  lemma RemapOutsideIsRefused(p: Platform, db: Db, oldApp: App, newApp: App, ops: seq<Operation>, commits: bool,
                              oe: Entity, ne: Entity, of: Field, nf: Field, r: string, x: string)
    requires ValidApp(oldApp) && ValidApp(newApp) && NoNameClash(oldApp.entities, newApp.entities)
    requires OldDb(p, db, oldApp) && SameChanges(ops, DiffOps(oldApp.entities, newApp.entities))
    requires ne in newApp.entities && EntityById(oldApp.entities, ne.id) == Some(oe) && NeedsRebuild(OpsOf(ops, ne.id))
    requires nf in ne.fields && FieldById(oe.fields, nf.id) == Some(of) && of.typ == nf.typ && !Tightens(of, nf)
    requires IsRemapped(nf, WitnessOf(OpsOf(ops, ne.id), nf.id)) && nf.id !in p.clock
    requires ne.id in db.tables && r in db.tables[ne.id].rows && Cell(db.tables[ne.id].rows[r].cells, nf.id) == TEXT(x)
    requires MapsTo(WitnessOf(OpsOf(ops, ne.id), nf.id).value.remap, x) !in nf.values
    ensures Executed(p, db, oldApp, newApp, ops, commits).Err?
  {
    hide DiffOps, Executed, Migrated, Matches, TableOk, NoNameClash, OpsOf, ValidField, IsReserved, CatalogueButBounds, WellShaped, OldDb, NeedsRebuild, WitnessOf, MapsTo;
    var olds, news, own := oldApp.entities, newApp.entities, OpsOf(ops, ne.id);
    if Executed(p, db, oldApp, newApp, ops, commits).Ok? {
      var after := Executed(p, db, oldApp, newApp, ops, commits).value;
      OldDbIsShaped(p, db, oldApp);
      ExecuteReaches(p, db, oldApp, newApp, ops, commits);
      assert Survived(p, db, after, olds, ne, ops);
      assert ValidEntity(news, ne);
      RebuiltEnum(p, oe, ne, own, db.tables[ne.id], after.tables[ne.id], of, nf, r, x);
    }
  }

  lemma RebuiltEnum(p: Platform, oe: Entity, ne: Entity, own: seq<Operation>, t: Table, after: Table, of: Field, nf: Field, r: string, x: string)
    requires Migrated(p, t, after, oe, ne, own) && NeedsRebuild(own) && DistinctFieldIds(ne.fields)
    requires nf in ne.fields && FieldById(oe.fields, nf.id) == Some(of) && of.typ == nf.typ && !Tightens(of, nf)
    requires IsRemapped(nf, WitnessOf(own, nf.id)) && nf.id !in p.clock
    requires r in t.rows && Cell(t.rows[r].cells, nf.id) == TEXT(x)
    ensures MapsTo(WitnessOf(own, nf.id).value.remap, x) in nf.values
  {
    hide WitnessOf, RebuiltRow, Columns, Indexes, NeedsRebuild, Selectable, LosesInformation, FieldIds, RowOk, ColumnDef, Stored, Declared, MapsTo, ViewOf, NativeView;
    RebuiltRowCell(p, oe.fields, ne.fields, own, t.rows[r], nf);
    assert after.rows[r] == RebuiltRow(p, oe.fields, ne.fields, own, t.rows[r]);
    assert RowOk(p, after.cols, after.rows[r]);
    EnumCell(p, ne, of, nf, WitnessOf(own, nf.id), after.rows[r], x);
  }

  lemma EnumCell(p: Platform, ne: Entity, of: Field, nf: Field, w: Option<Witness>, row: Row, x: string)
    requires DistinctFieldIds(ne.fields) && nf in ne.fields && of.typ == nf.typ && !Tightens(of, nf) && IsRemapped(nf, w) && nf.id !in p.clock
    requires RowOk(p, Columns(ne.fields), row)
    requires nf.id in row.cells && row.cells[nf.id] == Stored(p, ColumnDef(nf).affinity, Declared(p, Some(of), nf, w, TEXT(x)))
    ensures MapsTo(w.value.remap, x) in nf.values
  {
    hide Columns, FieldIds;
    ColumnsOfFields(ne.fields);
    IdsOfFields(ne.fields);
  }

  /** A rebuild writes the time over a column that reads as the clock, whatever the rows held and whatever it was for. */
  lemma ClockColumnIsOverwritten(p: Platform, db: Db, oldApp: App, newApp: App, ops: seq<Operation>, commits: bool,
                                 oe: Entity, ne: Entity, of: Field, nf: Field, r: string)
    requires ValidApp(oldApp) && ValidApp(newApp) && NoNameClash(oldApp.entities, newApp.entities)
    requires CatalogueButBounds(db, oldApp) && WellShaped(db) && SameChanges(ops, DiffOps(oldApp.entities, newApp.entities))
    requires ne in newApp.entities && EntityById(oldApp.entities, ne.id) == Some(oe) && NeedsRebuild(OpsOf(ops, ne.id))
    requires nf in ne.fields && FieldById(oe.fields, nf.id) == Some(of) && of.typ == nf.typ && nf.id in p.clock
    requires !IsRemapped(nf, WitnessOf(OpsOf(ops, ne.id), nf.id))
    requires ne.id in db.tables && r in db.tables[ne.id].rows
    requires Executed(p, db, oldApp, newApp, ops, commits).Ok?
    ensures var after := Executed(p, db, oldApp, newApp, ops, commits).value;
            && ne.id in after.tables && r in after.tables[ne.id].rows
            && Cell(after.tables[ne.id].rows[r].cells, nf.id) == Stored(p, SqlAffinity(nf.typ), TEXT(p.clock[nf.id]))
  {
    hide DiffOps, Executed, Matches, NoNameClash, OpsOf, ValidField, IsReserved, CatalogueButBounds, WellShaped, NeedsRebuild, WitnessOf, RebuiltRow, Stored,
      Columns, Indexes, Selectable, LosesInformation, AllRowsOk, ViewOf, NativeView;
    var after := Executed(p, db, oldApp, newApp, ops, commits).value;
    ExecuteReaches(p, db, oldApp, newApp, ops, commits);
    assert Survived(p, db, after, oldApp.entities, ne, ops);
    assert ValidEntity(newApp.entities, ne);
    TimedFieldMeans(p, oe, ne, OpsOf(ops, ne.id), db.tables[ne.id], of, nf, r);
  }
}

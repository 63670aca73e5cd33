/** A changeset whose every operation is classified safe loses nothing. */
module Lossless {
  import opened Results
  import opened Schema
  import opened Sql
  import opened Materialize
  import opened Changesets
  import opened Witnesses
  import opened Diffs
  import opened Executor
  import opened Views
  import opened NativePath
  import opened ChangesetShape
  import opened DiffMembers
  import opened Migration
  import opened WholeMigration
  import opened Reach
  import opened FastSlow

  predicate AllSafe(ops: seq<Operation>) {
    forall op | op in ops :: Classify(op.change).Safe?
  }

  predicate NoWitness(ops: seq<Operation>) {
    forall op | op in ops :: op.witness_.None?
  }

  // ----- what safety says about the manifests -----

  /** The field survives, with its type or a wider one, and no new NOT NULL. */
  predicate KeptOrWidened(of: Field, news: seq<Field>) {
    match FieldById(news, of.id)
    case None => false
    case Some(nf) => (of.typ == nf.typ || IsWidening(of.typ, nf.typ)) && !Tightens(of, nf)
  }

  predicate FillsItself(olds: seq<Field>, nf: Field) {
    nf.id !in FieldIds(olds) ==> !NeedsBackfill(nf)
  }

  lemma SafeChanges(olds: seq<Entity>, news: seq<Entity>, ops: seq<Operation>, oe: Entity, ne: Entity)
    requires DistinctEntityIds(news) && ne in news && EntityById(olds, ne.id) == Some(oe)
    requires SameChanges(ops, DiffOps(olds, news)) && AllSafe(ops)
    ensures forall change | EntityChange(oe, ne, change) :: Classify(change).Safe?
  {
    hide DiffOps, EntityChange, Classify;
    OwnChanges(olds, news, ops, oe, ne);
    OpsOfMembers(ops, ne.id);
  }

  lemma SafeSurvivor(oe: Entity, ne: Entity, of: Field)
    requires DistinctFieldIds(oe.fields) && of in oe.fields
    requires forall change | EntityChange(oe, ne, change) :: Classify(change).Safe?
    ensures KeptOrWidened(of, ne.fields)
  {
    hide EnumChanged, ReferenceChanged;
    FieldByIdFinds(oe.fields, of);
    assert of.id !in FieldIds(ne.fields) ==> EntityChange(oe, ne, DropField(of));
    match FieldById(ne.fields, of.id) {
      case None =>
      case Some(nf) =>
        assert of.typ != nf.typ ==> NewFieldChange(oe.fields, nf, ChangeType(of, nf));
        assert of.typ != nf.typ ==> EntityChange(oe, ne, ChangeType(of, nf));
        assert of.required != nf.required ==> NewFieldChange(oe.fields, nf, ChangeRequired(of, nf));
        assert of.required != nf.required ==> EntityChange(oe, ne, ChangeRequired(of, nf));
    }
  }

  lemma SafeAddition(oe: Entity, ne: Entity, nf: Field)
    requires nf in ne.fields
    requires forall change | EntityChange(oe, ne, change) :: Classify(change).Safe?
    ensures FillsItself(oe.fields, nf)
  {
    hide EnumChanged, ReferenceChanged;
    if nf.id !in FieldIds(oe.fields) {
      assert NewFieldChange(oe.fields, nf, AddField(nf));
      assert EntityChange(oe, ne, AddField(nf));
    }
  }

  lemma SafeFields(olds: seq<Entity>, news: seq<Entity>, ops: seq<Operation>, oe: Entity, ne: Entity)
    requires WellFormed(olds) && WellFormed(news) && ne in news && EntityById(olds, ne.id) == Some(oe)
    requires SameChanges(ops, DiffOps(olds, news)) && AllSafe(ops)
    ensures forall of | of in oe.fields :: KeptOrWidened(of, ne.fields)
    ensures forall nf | nf in ne.fields :: FillsItself(oe.fields, nf)
  {
    hide DiffOps, EntityChange, KeptOrWidened, FillsItself, Classify, AllSafe;
    SafeChanges(olds, news, ops, oe, ne);
    assert oe in olds;
    forall of | of in oe.fields {
      SafeSurvivor(oe, ne, of);
    }
    forall nf | nf in ne.fields {
      SafeAddition(oe, ne, nf);
    }
  }

  lemma SafeEntitiesSurvive(olds: seq<Entity>, news: seq<Entity>, ops: seq<Operation>, oe: Entity)
    requires oe in olds && SameChanges(ops, DiffOps(olds, news)) && AllSafe(ops)
    ensures oe.id in EntityIds(news)
  {
    DroppedEntity(olds, news, ops, oe);
  }

  lemma {:induction false} NoWitnessFound(ops: seq<Operation>, id: string)
    requires NoWitness(ops)
    ensures WitnessOf(ops, id) == None
  {
    if ops != [] {
      assert ops[|ops| - 1] in ops;
      NoWitnessFound(ops[..|ops| - 1], id);
    }
  }

  lemma OwnWitnesses(ops: seq<Operation>, eid: string, id: string)
    requires NoWitness(ops)
    ensures WitnessOf(OpsOf(ops, eid), id) == None
  {
    OpsOfMembers(ops, eid);
    NoWitnessFound(OpsOf(ops, eid), id);
  }

  // ----- one cell -----

  /** The value a kept or widened column holds after the migration. */
  function Carried(p: Platform, nf: Field, v: Value): Value {
    Stored(p, ColumnDef(nf).affinity, v)
  }

  /** Writing the new value back under the old column's type gives the old value. */
  lemma CarriedIsRecoverable(p: Platform, of: Field, nf: Field, v: Value)
    requires of.typ == nf.typ || IsWidening(of.typ, nf.typ)
    requires Stored(p, ColumnDef(of).affinity, v) == v
    ensures Stored(p, ColumnDef(of).affinity, Carried(p, nf, v)) == v
    ensures of.typ == nf.typ ==> Carried(p, nf, v) == v
    ensures IsWidening(of.typ, nf.typ) && v.INTEGER? ==> Carried(p, nf, v) == REAL(v.i as real)
  {
  }

  /** Whatever a field's values are carried to, distinct ones stay distinct. */
  lemma CarriedApart(p: Platform, of: Field, nf: Field, v: Value, w: Value)
    requires of.typ == nf.typ || IsWidening(of.typ, nf.typ)
    requires Stored(p, ColumnDef(of).affinity, v) == v && Stored(p, ColumnDef(of).affinity, w) == w
    ensures Carried(p, nf, v) == Carried(p, nf, w) ==> v == w
  {
    hide ColumnDef, Stored, Carried;
    CarriedIsRecoverable(p, of, nf, v);
    CarriedIsRecoverable(p, of, nf, w);
  }

  lemma CarriedNull(p: Platform, f: Field, v: Value)
    ensures Carried(p, f, v).NULL? <==> v.NULL?
  {
  }

  // ----- one table -----

  lemma OldCell(p: Platform, olds: seq<Entity>, oe: Entity, t: Table, of: Field, r: string)
    requires ValidEntity(olds, oe) && Matches(t, oe) && TableOk(p, t) && of in oe.fields && r in t.rows
    ensures of.id in t.cols && of.id in t.rows[r].cells
    ensures Satisfies(p, of.id, ColumnDef(of), Cell(t.rows[r].cells, of.id))
    ensures Stored(p, ColumnDef(of).affinity, Cell(t.rows[r].cells, of.id)) == Cell(t.rows[r].cells, of.id)
  {
    hide ColumnDef, Stored, Satisfies, NoDuplicates, ValidField, Columns, Indexes;
    ColumnsOfFields(oe.fields);
    assert of.id in FieldIds(oe.fields);
    assert RowOk(p, t.cols, t.rows[r]);
  }

  function RecoveredRow(p: Platform, olds: seq<Field>, row: Row): Row {
    Row(row.created, row.updated,
        map id | id in FieldIds(olds) ::
          Stored(p, ColumnDef(FieldById(olds, id).value).affinity, Cell(row.cells, id)))
  }

  function RecoveredRows(p: Platform, olds: seq<Field>, rows: map<string, Row>): map<string, Row> {
    map r | r in rows :: RecoveredRow(p, olds, rows[r])
  }

  /** Old fields read carried values, and new fields their default or null, in every row. */
  predicate CarriesRows(p: Platform, olds: seq<Field>, news: seq<Field>, t: Table, after: Table) {
    && SameRows(t.rows, after.rows)
    && (forall nf, r | nf in news && r in t.rows ::
          Cell(after.rows[r].cells, nf.id) ==
          if nf.id in FieldIds(olds) then Carried(p, nf, Cell(t.rows[r].cells, nf.id))
          else Stored(p, ColumnDef(nf).affinity, DefaultLiteral(p, nf)))
  }

  lemma NativeCarries(p: Platform, oe: Entity, ne: Entity, t: Table, after: Table)
    requires DistinctFieldIds(ne.fields) && MatchesButBounds(t, oe) && DistinctFieldIds(oe.fields) && TableOk(p, t)
    requires forall of | of in oe.fields :: KeptOrWidened(of, ne.fields)
    requires forall nf | nf in ne.fields && nf.id in FieldIds(oe.fields) :: FieldById(oe.fields, nf.id).value.typ == nf.typ
    requires SameRows(t.rows, after.rows)
    requires forall id :: ViewOf(after, id) == NativeView(p, ne.id, ne.fields, t, id)
    ensures CarriesRows(p, oe.fields, ne.fields, t, after)
  {
    hide ColumnDef, Stored, DefaultLiteral, KeptOrWidened, ViewOf, TableOk, FieldIds, FieldById, WithoutBounds, Satisfies;
    MatchingColumns(t, oe);
    forall nf, r | nf in ne.fields && r in t.rows
      ensures Cell(after.rows[r].cells, nf.id) ==
              if nf.id in FieldIds(oe.fields) then Carried(p, nf, Cell(t.rows[r].cells, nf.id))
              else Stored(p, ColumnDef(nf).affinity, DefaultLiteral(p, nf))
    {
      FieldByIdFinds(ne.fields, nf);
      assert ViewOf(after, nf.id) == NativeView(p, ne.id, ne.fields, t, nf.id);
      PresentCells(after, nf.id);
      if nf.id in FieldIds(oe.fields) {
        StableCell(p, oe, t, FieldById(oe.fields, nf.id).value, nf, r);
        assert CellsOf(after.rows, nf.id)[r] == CellsOf(t.rows, nf.id)[r];
      } else {
        assert CellsOf(after.rows, nf.id)[r] == Filled(p, nf, t.rows.Keys)[r];
      }
    }
  }

  lemma PresentCells(t: Table, id: string)
    ensures ViewOf(t, id).Present? ==> ViewOf(t, id).cells == CellsOf(t.rows, id)
  {
  }

  lemma AffinityKept(oe: Entity, t: Table, of: Field)
    requires MatchesButBounds(t, oe) && DistinctFieldIds(oe.fields) && of in oe.fields
    ensures of.id in t.cols && t.cols[of.id].affinity == ColumnDef(of).affinity
  {
    hide ColumnDef, MatchesButBounds;
    MatchingColumns(t, oe);
    assert of.id in FieldIds(oe.fields);
    assert WithoutBounds(t.cols[of.id]).affinity == WithoutBounds(ColumnDef(of)).affinity;
  }

  lemma StoredCell(p: Platform, t: Table, r: string, id: string)
    requires TableOk(p, t) && r in t.rows && id in t.cols
    ensures Stored(p, t.cols[id].affinity, Cell(t.rows[r].cells, id)) == Cell(t.rows[r].cells, id)
  {
    hide Stored, Satisfies, NoDuplicates;
    assert RowOk(p, t.cols, t.rows[r]);
  }

  lemma SameTypeSameAffinity(of: Field, nf: Field)
    requires of.typ == nf.typ
    ensures ColumnDef(of).affinity == ColumnDef(nf).affinity
  {
  }

  /** A stored cell is stable under its own column's affinity. */
  lemma StableCell(p: Platform, oe: Entity, t: Table, of: Field, nf: Field, r: string)
    requires MatchesButBounds(t, oe) && DistinctFieldIds(oe.fields) && of in oe.fields && TableOk(p, t) && r in t.rows
    requires of.id == nf.id
    ensures Stored(p, ColumnDef(of).affinity, Cell(t.rows[r].cells, of.id)) == Cell(t.rows[r].cells, of.id)
    ensures of.typ == nf.typ ==> Carried(p, nf, Cell(t.rows[r].cells, of.id)) == Cell(t.rows[r].cells, of.id)
  {
    hide Stored, ColumnDef, MatchesButBounds, TableOk, Cell;
    AffinityKept(oe, t, of);
    StoredCell(p, t, r, of.id);
    if of.typ == nf.typ {
      SameTypeSameAffinity(of, nf);
    }
  }

  lemma RebuildCarries(p: Platform, oe: Entity, ne: Entity, own: seq<Operation>, t: Table)
    requires DistinctFieldIds(oe.fields) && DistinctFieldIds(ne.fields)
    requires forall of | of in oe.fields :: KeptOrWidened(of, ne.fields)
    requires forall nf | nf in ne.fields :: FillsItself(oe.fields, nf)
    requires (forall id :: WitnessOf(own, id) == None) && Timeless(p, oe.fields, ne.fields)
    ensures CarriesRows(p, oe.fields, ne.fields, t, RebuiltTable(p, oe, ne, own, t))
  {
    hide ColumnDef, Stored, Declared, DefaultLiteral, KeptOrWidened, FillsItself, FieldIds, Cell, Columns, Indexes, RebuiltRow, FieldById;
    var after := RebuiltTable(p, oe, ne, own, t);
    RebuiltShape(p, oe.fields, ne.fields, own, t.rows);
    forall nf, r | nf in ne.fields && r in t.rows
      ensures Cell(after.rows[r].cells, nf.id) ==
              if nf.id in FieldIds(oe.fields) then Carried(p, nf, Cell(t.rows[r].cells, nf.id))
              else Stored(p, ColumnDef(nf).affinity, DefaultLiteral(p, nf))
    {
      RebuiltRowCell(p, oe.fields, ne.fields, own, t.rows[r], nf);
      CellOf(after.rows[r].cells, nf.id);
      FieldByIdFinds(ne.fields, nf);
      SafeDeclared(p, oe.fields, ne.fields, nf, Seen(p, nf.id, Cell(t.rows[r].cells, nf.id)));
    }
  }

  lemma CellOf(cells: map<string, Value>, id: string)
    ensures id in cells ==> Cell(cells, id) == cells[id]
  {
  }

  lemma SafeDeclared(p: Platform, olds: seq<Field>, news: seq<Field>, nf: Field, v: Value)
    requires forall of | of in olds :: KeptOrWidened(of, news)
    requires FieldById(news, nf.id) == Some(nf) && FillsItself(olds, nf)
    ensures Declared(p, FieldById(olds, nf.id), nf, None, v) == if nf.id in FieldIds(olds) then v else DefaultLiteral(p, nf)
  {
    hide SqlLiteral;
    match FieldById(olds, nf.id) {
      case None =>
      case Some(of) =>
        assert KeptOrWidened(of, news);
    }
  }

  lemma RowRecovered(p: Platform, oe: Entity, ne: Entity, t: Table, after: Table, r: string)
    requires DistinctFieldIds(oe.fields) && MatchesButBounds(t, oe) && TableOk(p, t)
    requires forall of | of in oe.fields :: KeptOrWidened(of, ne.fields)
    requires CarriesRows(p, oe.fields, ne.fields, t, after) && r in t.rows
    ensures r in after.rows && RecoveredRow(p, oe.fields, after.rows[r]) == t.rows[r]
  {
    hide ColumnDef, Stored, Cell, CarriesRows, KeptOrWidened, MatchesButBounds, TableOk, FieldIds, FieldById;
    RowKeys(p, oe, t, r);
    CarriedSameRows(p, oe.fields, ne.fields, t, after);
    var back := RecoveredRow(p, oe.fields, after.rows[r]);
    forall id | id in FieldIds(oe.fields) ensures back.cells[id] == t.rows[r].cells[id] {
      OneCellRecovered(p, oe, ne, t, after, FieldById(oe.fields, id).value, r);
      CellOf(t.rows[r].cells, id);
    }
    assert back.cells == t.rows[r].cells;
  }

  lemma RowKeys(p: Platform, e: Entity, t: Table, r: string)
    requires DistinctFieldIds(e.fields) && MatchesButBounds(t, e) && TableOk(p, t) && r in t.rows
    ensures t.rows[r].cells.Keys == FieldIds(e.fields)
  {
    hide Satisfies, Stored;
    MatchingColumns(t, e);
    assert RowOk(p, t.cols, t.rows[r]);
  }

  lemma RowsRecovered(p: Platform, oe: Entity, ne: Entity, t: Table, after: Table)
    requires DistinctFieldIds(oe.fields) && MatchesButBounds(t, oe) && TableOk(p, t)
    requires forall of | of in oe.fields :: KeptOrWidened(of, ne.fields)
    requires CarriesRows(p, oe.fields, ne.fields, t, after)
    ensures RecoveredRows(p, oe.fields, after.rows) == t.rows
  {
    hide TableOk, CarriesRows, KeptOrWidened, MatchesButBounds, RecoveredRow;
    CarriedSameRows(p, oe.fields, ne.fields, t, after);
    forall r | r in t.rows {
      RowRecovered(p, oe, ne, t, after, r);
    }
  }

  lemma CarriedSameRows(p: Platform, olds: seq<Field>, news: seq<Field>, t: Table, after: Table)
    requires CarriesRows(p, olds, news, t, after)
    ensures SameRows(t.rows, after.rows)
  {
  }

  lemma OneCellRecovered(p: Platform, oe: Entity, ne: Entity, t: Table, after: Table, of: Field, r: string)
    requires DistinctFieldIds(oe.fields) && MatchesButBounds(t, oe) && TableOk(p, t)
    requires of in oe.fields && KeptOrWidened(of, ne.fields) && r in t.rows
    requires CarriesRows(p, oe.fields, ne.fields, t, after)
    ensures Stored(p, ColumnDef(of).affinity, Cell(after.rows[r].cells, of.id)) == Cell(t.rows[r].cells, of.id)
  {
    hide ColumnDef, Stored, Cell, MatchesButBounds, TableOk, DefaultLiteral;
    var nf := FieldById(ne.fields, of.id).value;
    StableCell(p, oe, t, of, nf, r);
    CarriedIsRecoverable(p, of, nf, Cell(t.rows[r].cells, of.id));
    assert of.id in FieldIds(oe.fields);
    assert nf in ne.fields;
  }

  // ----- the whole database -----

  /** The entity is not rebuilt through a column that reads as the clock. */
  predicate ReadsNoClock(p: Platform, oe: Entity, ne: Entity, ops: seq<Operation>) {
    NeedsRebuild(OpsOf(ops, ne.id)) ==> Timeless(p, oe.fields, ne.fields)
  }

  lemma NativeSurvivorCarries(p: Platform, olds: seq<Entity>, news: seq<Entity>, ops: seq<Operation>, oe: Entity, ne: Entity, t: Table, after: Table)
    requires WellFormed(olds) && WellFormed(news) && ne in news && EntityById(olds, ne.id) == Some(oe)
    requires SameChanges(ops, DiffOps(olds, news)) && AllSafe(ops) && !NeedsRebuild(OpsOf(ops, ne.id))
    requires MatchesButBounds(t, oe) && TableOk(p, t)
    requires Migrated(p, t, after, oe, ne, OpsOf(ops, ne.id))
    ensures CarriesRows(p, oe.fields, ne.fields, t, after)
    ensures RecoveredRows(p, oe.fields, after.rows) == t.rows
  {
    hide DiffOps, ColumnDef, KeptOrWidened, FillsItself, MatchesButBounds, TableOk, ViewOf, NativeView, RebuiltTable, CarriesRows, RecoveredRows, OpsOf, KeepsDefinition, AllSafe;
    assert oe in olds;
    SafeFields(olds, news, ops, oe, ne);
    WithoutRebuildDefinitionsStay(olds, news, ops, oe, ne);
    forall nf | nf in ne.fields && nf.id in FieldIds(oe.fields)
      ensures FieldById(oe.fields, nf.id).value.typ == nf.typ
    {
      SameTypeKept(FieldById(oe.fields, nf.id).value, nf);
    }
    NativeCarries(p, oe, ne, t, after);
    RowsRecovered(p, oe, ne, t, after);
  }

  lemma SurvivorCarries(p: Platform, olds: seq<Entity>, news: seq<Entity>, ops: seq<Operation>, oe: Entity, ne: Entity, t: Table, after: Table)
    requires WellFormed(olds) && WellFormed(news) && ne in news && EntityById(olds, ne.id) == Some(oe)
    requires SameChanges(ops, DiffOps(olds, news)) && AllSafe(ops) && NoWitness(ops)
    requires MatchesButBounds(t, oe) && TableOk(p, t) && ReadsNoClock(p, oe, ne, ops)
    requires Migrated(p, t, after, oe, ne, OpsOf(ops, ne.id))
    ensures CarriesRows(p, oe.fields, ne.fields, t, after)
    ensures RecoveredRows(p, oe.fields, after.rows) == t.rows
  {
    hide DiffOps, ColumnDef, KeptOrWidened, FillsItself, MatchesButBounds, TableOk, ViewOf, NativeView, RebuiltTable, CarriesRows, RecoveredRows, OpsOf,
      Selectable, LosesInformation, AllRowsOk, AllSafe, NoWitness, WitnessOf, Timeless;
    assert oe in olds;
    if NeedsRebuild(OpsOf(ops, ne.id)) {
      SafeFields(olds, news, ops, oe, ne);
      forall id {
        OwnWitnesses(ops, ne.id, id);
      }
      RebuildCarries(p, oe, ne, OpsOf(ops, ne.id), t);
      RowsRecovered(p, oe, ne, t, after);
    } else {
      NativeSurvivorCarries(p, olds, news, ops, oe, ne, t, after);
    }
  }

  lemma SameTypeKept(of: Field, nf: Field)
    requires KeepsDefinition(of, nf)
    ensures of.typ == nf.typ
  {
  }

  /**
   * Safe means lossless. If every operation is classified safe, no witness is attached and Execute
   * succeeds, then every old entity survives and its rows, timestamps and values can be computed
   * back from the new database alone, unless it was rebuilt through a column that reads as the clock;
   * every new column of an old row holds its default or null, and the tables of new entities are empty.
   */
  lemma SafeIsLossless(p: Platform, db: Db, oldApp: App, newApp: App, ops: seq<Operation>, commits: bool)
    requires ValidApp(oldApp) && ValidApp(newApp) && NoNameClash(oldApp.entities, newApp.entities)
    requires CatalogueButBounds(db, oldApp) && DbOk(p, db)
    requires SameChanges(ops, DiffOps(oldApp.entities, newApp.entities)) && AllSafe(ops) && NoWitness(ops)
    requires Executed(p, db, oldApp, newApp, ops, commits).Ok?
    ensures var after := Executed(p, db, oldApp, newApp, ops, commits).value;
            && (forall oe | oe in oldApp.entities ::
                  && oe.id in EntityIds(newApp.entities) && oe.id in db.tables && oe.id in after.tables
                  && (ReadsNoClock(p, oe, EntityById(newApp.entities, oe.id).value, ops) ==>
                        && RecoveredRows(p, oe.fields, after.tables[oe.id].rows) == db.tables[oe.id].rows
                        && CarriesRows(p, oe.fields, EntityById(newApp.entities, oe.id).value.fields,
                                       db.tables[oe.id], after.tables[oe.id])))
            && (forall ne | ne in newApp.entities && ne.id !in EntityIds(oldApp.entities) ::
                  ne.id in after.tables && after.tables[ne.id].rows == map[])
  {
    hide DiffOps, Executed, TableOk, MatchesButBounds, Migrated, RecoveredRows, CarriesRows, NoNameClash, AllSafe, NoWitness, ValidApp, OpsOf, CatalogueButBounds, ReadsNoClock;
    var olds, news := oldApp.entities, newApp.entities;
    var after := Executed(p, db, oldApp, newApp, ops, commits).value;
    forall t | t in db.tables ensures Shaped(db.tables[t]) {
      OkIsShaped(p, db.tables[t]);
    }
    ValidIsWellFormed(oldApp);
    ValidIsWellFormed(newApp);
    ExecuteReaches(p, db, oldApp, newApp, ops, commits);
    forall oe | oe in olds
      ensures oe.id in EntityIds(news) && oe.id in db.tables && oe.id in after.tables
      ensures ReadsNoClock(p, oe, EntityById(news, oe.id).value, ops) ==>
                && RecoveredRows(p, oe.fields, after.tables[oe.id].rows) == db.tables[oe.id].rows
                && CarriesRows(p, oe.fields, EntityById(news, oe.id).value.fields, db.tables[oe.id], after.tables[oe.id])
    {
      SafeEntitiesSurvive(olds, news, ops, oe);
      EntityByIdFinds(olds, oe);
      var ne := EntityById(news, oe.id).value;
      MemberMatches(db, oldApp, oe);
      if ReadsNoClock(p, oe, ne, ops) {
        SurvivorCarries(p, olds, news, ops, oe, ne, db.tables[oe.id], after.tables[oe.id]);
      }
    }
  }

  lemma MemberMatches(db: Db, app: App, e: Entity)
    requires CatalogueButBounds(db, app) && e in app.entities
    ensures e.id in db.tables && MatchesButBounds(db.tables[e.id], e)
  {
    assert e.id in EntityIds(app.entities);
  }
}

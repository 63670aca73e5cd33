/** A field widened and tightened by one migration: its backfill opens the gate and is never used. */
module Tightening {
  import opened Results
  import opened Schema
  import opened Sql
  import opened Materialize
  import opened Changesets
  import opened Witnesses
  import opened Diffs
  import opened Executor
  import opened Naming
  import opened Views
  import opened NativePath
  import opened ChangesetShape
  import opened DiffMembers
  import opened Migration
  import opened WholeMigration
  import opened Reach
  import opened FastSlow
  import opened Lossless
  import opened Gate

  /** The field goes from an optional integer to a required real, and keeps everything else. */
  predicate WidensAndTightens(of: Field, nf: Field) {
    of.typ.Integer? && nf.typ.Real? && Tightens(of, nf) && of.unique == nf.unique && SameBounds(of, nf)
  }

  /** Names apart, `nf` is all that differs between the two shapes of the entity. */
  predicate OnlyChange(oe: Entity, ne: Entity, of: Field, nf: Field) {
    && nf in ne.fields && FieldById(oe.fields, nf.id) == Some(of) && WidensAndTightens(of, nf)
    && FieldIds(oe.fields) == FieldIds(ne.fields)
    && forall g | g in ne.fields && g.id != nf.id :: Keeps(oe, g)
  }

  predicate Keeps(oe: Entity, g: Field) {
    match FieldById(oe.fields, g.id)
    case None => false
    case Some(og) => KeepsDefinition(og, g) && og.unique == g.unique && SameBounds(og, g)
  }

  // ----- the gate -----

  lemma KindsOfChange(oe: Entity, ne: Entity, of: Field, nf: Field, change: Change)
    requires OnlyChange(oe, ne, of, nf) && DistinctFieldIds(ne.fields) && EntityChange(oe, ne, change)
    ensures change == ChangeRequired(of, nf) || WitnessNeeded(change).None?
  {
    hide EnumChanged, ReferenceChanged, FieldIds;
    if g :| g in ne.fields && NewFieldChange(oe.fields, g, change) {
      if g.id == nf.id {
        FieldByIdFinds(ne.fields, g);
        FieldByIdFinds(ne.fields, nf);
      } else {
        assert Keeps(oe, g);
      }
    } else if og :| og in oe.fields && og.id !in FieldIds(ne.fields) && change == DropField(og) {
    }
  }

  lemma OwnAreUniform(ops: seq<Operation>, witnesses: map<string, Witness>, eid: string)
    requires Uniform(ops, witnesses)
    ensures Uniform(OpsOf(ops, eid), witnesses)
  {
    OpsOfMembers(ops, eid);
  }

  /** The operation that tightens the field is among the entity's, under the field's id. */
  lemma TighteningOp(olds: seq<Entity>, news: seq<Entity>, ops: seq<Operation>, oe: Entity, ne: Entity, of: Field, nf: Field) returns (op: Operation)
    requires DistinctEntityIds(news) && ne in news && EntityById(olds, ne.id) == Some(oe)
    requires SameChanges(ops, DiffOps(olds, news)) && OnlyChange(oe, ne, of, nf)
    ensures op in OpsOf(ops, ne.id) && op.fieldId == nf.id && op.change == ChangeRequired(of, nf)
  {
    hide DiffOps, EntityChanges, OpsOf, EnumChanged, ReferenceChanged, FieldIds, Keeps;
    var own, diff := OpsOf(ops, ne.id), EntityChanges(oe, ne);
    OwnOps(olds, news, ops, ne);
    FieldsOpsMembers(ne.id, oe.fields, ne.fields);
    var x := Op(ne.id, nf.id, ChangeRequired(of, nf));
    assert NewFieldChange(oe.fields, nf, x.change);
    assert x in FieldsOps(ne.id, oe.fields, ne.fields);
    InChanges(oe, ne, x);
    var i :| 0 <= i < |diff| && diff[i] == x;
    op := own[i];
  }

  /** With a backfill declared, nothing is missing, and the entity is rebuilt. */
  lemma GatePasses(olds: seq<Entity>, news: seq<Entity>, ops: seq<Operation>, witnesses: map<string, Witness>,
                   oe: Entity, ne: Entity, of: Field, nf: Field)
    requires WellFormed(news) && ne in news && EntityById(olds, ne.id) == Some(oe)
    requires SameChanges(ops, DiffOps(olds, news)) && Uniform(ops, witnesses) && OnlyChange(oe, ne, of, nf)
    requires nf.id != "" && nf.id in witnesses && witnesses[nf.id].kind == WitnessBackfill
    ensures var own := OpsOf(ops, ne.id);
            && GateOpen(own) && NeedsRebuild(own)
            && WitnessOf(own, nf.id) == Some(witnesses[nf.id])
  {
    hide DiffOps, OpsOf, WitnessOf, OnlyChange, EntityChange, Uniform;
    var own := OpsOf(ops, ne.id);
    OwnChanges(olds, news, ops, oe, ne);
    OwnAreUniform(ops, witnesses, ne.id);
    var tightening := TighteningOp(olds, news, ops, oe, ne, of, nf);
    UniformWitness(own, witnesses, tightening);
    assert tightening.witness_ == Some(witnesses[nf.id]) by { CarriesWitness(own, witnesses, tightening); }
    forall op | op in own ensures !LacksWitness(op) {
      KindsOfChange(oe, ne, of, nf, op.change);
      if op.change == ChangeRequired(of, nf) {
        FieldOfTightening(olds, news, ops, oe, ne, of, nf, op);
        CarriesWitness(own, witnesses, op);
      }
    }
  }

  lemma CarriesWitness(ops: seq<Operation>, witnesses: map<string, Witness>, op: Operation)
    requires Uniform(ops, witnesses) && op in ops && op.fieldId in witnesses
    ensures op.witness_ == Some(witnesses[op.fieldId])
  {
  }

  lemma FieldOfTightening(olds: seq<Entity>, news: seq<Entity>, ops: seq<Operation>, oe: Entity, ne: Entity, of: Field, nf: Field, op: Operation)
    requires DistinctEntityIds(news) && ne in news && EntityById(olds, ne.id) == Some(oe)
    requires SameChanges(ops, DiffOps(olds, news))
    requires op in OpsOf(ops, ne.id) && op.change == ChangeRequired(of, nf)
    ensures op.fieldId == nf.id
  {
    hide DiffOps, FieldsOps, DropOps, OpsOf, EnumChanged, ReferenceChanged;
    var own, diff := OpsOf(ops, ne.id), EntityChanges(oe, ne);
    OwnOps(olds, news, ops, ne);
    FieldsOpsMembers(ne.id, oe.fields, ne.fields);
    DropOpsMembers(ne.id, oe.fields, ne.fields);
    var i :| 0 <= i < |own| && own[i] == op;
    assert diff[i] in diff && diff[i].change == ChangeRequired(of, nf);
    TighteningField(oe, ne, diff[i], of, nf);
  }

  lemma TighteningField(oe: Entity, ne: Entity, op: Operation, of: Field, nf: Field)
    requires op in EntityChanges(oe, ne) && op.change == ChangeRequired(of, nf)
    ensures op.fieldId == nf.id
  {
    hide FieldsOps, DropOps, EnumChanged, ReferenceChanged;
    FieldsOpsMembers(ne.id, oe.fields, ne.fields);
    DropOpsMembers(ne.id, oe.fields, ne.fields);
  }

  // ----- the rebuilt cells -----

  /** A value of an integer column, as a real: it meets the same bounds, and stays apart from others. */
  lemma WidenedValue(p: Platform, of: Field, nf: Field, v: Value)
    requires WidensAndTightens(of, nf) && of.id == nf.id && nf.id !in p.clock
    requires Satisfies(p, of.id, ColumnDef(of), v) && Stored(p, ColumnDef(of).affinity, v) == v
    ensures var after := Carried(p, nf, v);
            && Stored(p, ColumnDef(nf).affinity, after) == after
            && (Satisfies(p, nf.id, ColumnDef(nf), after) <==> !v.NULL?)
  {
  }

  /** Where the column reads as the clock, its CHECKs test the clock, before and after. */
  lemma WidenedTime(p: Platform, of: Field, nf: Field, v: Value)
    requires WidensAndTightens(of, nf) && of.id == nf.id && nf.id in p.clock
    requires Satisfies(p, of.id, ColumnDef(of), v)
    ensures var after := Stored(p, ColumnDef(nf).affinity, TEXT(p.clock[nf.id]));
            Stored(p, ColumnDef(nf).affinity, after) == after && Satisfies(p, nf.id, ColumnDef(nf), after)
  {
  }

  function Rewritten(p: Platform, g: Field, v: Value): Value {
    if g.id in p.clock then Stored(p, ColumnDef(g).affinity, TEXT(p.clock[g.id])) else Carried(p, g, v)
  }

  lemma WidenedDeclared(p: Platform, of: Field, nf: Field, w: Option<Witness>, v: Value)
    requires WidensAndTightens(of, nf)
    ensures Declared(p, Some(of), nf, w, v) == v
  {
  }

  /** What the rebuild writes into a surviving field of the entity. */
  lemma CellWritten(p: Platform, oe: Entity, ne: Entity, ops: seq<Operation>, t: Table, of: Field, nf: Field, g: Field, r: string)
    requires OnlyChange(oe, ne, of, nf) && DistinctFieldIds(oe.fields) && DistinctFieldIds(ne.fields)
    requires Matches(t, oe) && TableOk(p, t) && NoRemap(ne.fields, ops) && r in t.rows && g in ne.fields
    ensures r in RebuiltRows(p, oe.fields, ne.fields, ops, t.rows)
    ensures Cell(RebuiltRows(p, oe.fields, ne.fields, ops, t.rows)[r].cells, g.id) == Rewritten(p, g, Cell(t.rows[r].cells, g.id))
  {
    hide ColumnDef, Stored, WitnessOf, KeepsDefinition, HasKind, RebuiltRow, Columns, Indexes, SameBounds, TableOk, FieldIds, WidensAndTightens, Declared;
    RebuiltRowCell(p, oe.fields, ne.fields, ops, t.rows[r], g);
    var w, v := WitnessOf(ops, g.id), Seen(p, g.id, Cell(t.rows[r].cells, g.id));
    if g.id == nf.id {
      FieldByIdFinds(ne.fields, g);
      FieldByIdFinds(ne.fields, nf);
      WidenedDeclared(p, of, nf, w, v);
    } else {
      assert Keeps(oe, g);
      RebuiltCell(p, FieldById(oe.fields, g.id), g, w, v);
    }
  }

  /** The cell fits its new column, unless it is the null of the tightened field. */
  lemma CellFits(p: Platform, olds: seq<Entity>, news: seq<Entity>, oe: Entity, ne: Entity, ops: seq<Operation>, t: Table, of: Field, nf: Field, g: Field, r: string)
    requires ValidEntity(olds, oe) && ValidEntity(news, ne) && OnlyChange(oe, ne, of, nf)
    requires Matches(t, oe) && TableOk(p, t) && NoRemap(ne.fields, ops) && r in t.rows && g in ne.fields
    ensures r in RebuiltRows(p, oe.fields, ne.fields, ops, t.rows)
    ensures var after := Cell(RebuiltRows(p, oe.fields, ne.fields, ops, t.rows)[r].cells, g.id);
            && Stored(p, ColumnDef(g).affinity, after) == after
            && (Satisfies(p, g.id, ColumnDef(g), after) <==>
                  (g.id == nf.id && nf.id !in p.clock ==> !Cell(t.rows[r].cells, nf.id).NULL?))
  {
    hide ColumnDef, Stored, Satisfies, RebuiltRows, Matches, TableOk, ValidField, Cell, NoRemap, FieldIds, IsReserved, KeepsDefinition, WidensAndTightens;
    var v := Cell(t.rows[r].cells, g.id);
    CellWritten(p, oe, ne, ops, t, of, nf, g, r);
    if g.id == nf.id {
      FieldByIdFinds(ne.fields, g);
      FieldByIdFinds(ne.fields, nf);
      OldCell(p, olds, oe, t, of, r);
      if nf.id in p.clock {
        WidenedTime(p, of, nf, v);
      } else {
        WidenedValue(p, of, nf, v);
      }
    } else {
      assert Keeps(oe, g);
      var og := FieldById(oe.fields, g.id).value;
      OldCell(p, olds, oe, t, og, r);
      DefinitionsEqual(olds, news, og, g);
      if g.id in p.clock {
        TimeFits(p, g, v);
      }
    }
  }

  lemma SurvivorIn(oe: Entity, ne: Entity, of: Field, nf: Field, g: Field) returns (og: Field)
    requires OnlyChange(oe, ne, of, nf) && DistinctFieldIds(ne.fields) && g in ne.fields
    ensures og in oe.fields && og.id == g.id && og.unique == g.unique && (og.typ == g.typ || IsWidening(og.typ, g.typ))
    ensures FieldById(oe.fields, g.id) == Some(og) && ((KeepsDefinition(og, g) && SameBounds(og, g)) || WidensAndTightens(og, g))
  {
    hide EnumChanged, ReferenceChanged, FieldIds;
    if g.id == nf.id {
      FieldByIdFinds(ne.fields, g);
      FieldByIdFinds(ne.fields, nf);
      og := of;
    } else {
      assert Keeps(oe, g);
      og := FieldById(oe.fields, g.id).value;
    }
  }

  lemma UniqueStaysUnique(p: Platform, olds: seq<Entity>, oe: Entity, ne: Entity, ops: seq<Operation>, t: Table, of: Field, nf: Field, g: Field)
    requires ValidEntity(olds, oe) && DistinctFieldIds(ne.fields) && OnlyChange(oe, ne, of, nf)
    requires Matches(t, oe) && TableOk(p, t) && NoRemap(ne.fields, ops) && g in ne.fields && g.unique && Readable(p, g.id)
    ensures NoDuplicates(RebuiltRows(p, oe.fields, ne.fields, ops, t.rows), g.id)
  {
    hide ColumnDef, Stored, RebuiltRow, OnlyChange, ValidField, NoRemap, FieldIds, IsReserved, Columns, Carried, RowOk, Indexes;
    var after := RebuiltRows(p, oe.fields, ne.fields, ops, t.rows);
    var og := SurvivorIn(oe, ne, of, nf, g);
    IndexOfField(oe.id, oe.fields, og);
    assert NoDuplicates(t.rows, g.id);
    forall i, j | i in after && j in after && i != j && g.id in after[i].cells && g.id in after[j].cells
                  && after[i].cells[g.id] == after[j].cells[g.id]
      ensures after[i].cells[g.id].NULL?
    {
      CellWritten(p, oe, ne, ops, t, of, nf, g, i);
      CellWritten(p, oe, ne, ops, t, of, nf, g, j);
      OldCell(p, olds, oe, t, og, i);
      OldCell(p, olds, oe, t, og, j);
      CarriedApart(p, og, g, Cell(t.rows[i].cells, g.id), Cell(t.rows[j].cells, g.id));
      CarriedNull(p, g, Cell(t.rows[i].cells, g.id));
    }
  }

  predicate NoNulls(t: Table, col: string) {
    forall r | r in t.rows :: !Cell(t.rows[r].cells, col).NULL?
  }

  lemma RebuiltTableOk(p: Platform, olds: seq<Entity>, news: seq<Entity>, oe: Entity, ne: Entity, ops: seq<Operation>, t: Table, of: Field, nf: Field)
    requires ValidEntity(olds, oe) && ValidEntity(news, ne) && OnlyChange(oe, ne, of, nf)
    requires Matches(t, oe) && TableOk(p, t) && NoRemap(ne.fields, ops) && (nf.id in p.clock || NoNulls(t, nf.id))
    requires forall g | g in ne.fields && g.unique :: Readable(p, g.id)
    ensures TableOk(p, RebuiltTable(p, oe, ne, ops, t))
  {
    hide ColumnDef, Stored, Satisfies, RebuiltRow, Matches, ValidField, NoRemap, IsReserved, OnlyChange, NoDuplicates, Columns, TableOk;
    var rows := RebuiltRows(p, oe.fields, ne.fields, ops, t.rows);
    ColumnsOfFields(ne.fields);
    forall r | r in rows ensures RowOk(p, Columns(ne.fields), rows[r]) {
      RebuiltKeys(p, oe.fields, ne.fields, ops, t.rows, r);
      forall g | g in ne.fields
        ensures Stored(p, ColumnDef(g).affinity, rows[r].cells[g.id]) == rows[r].cells[g.id]
        ensures Satisfies(p, g.id, ColumnDef(g), rows[r].cells[g.id])
      {
        CellFits(p, olds, news, oe, ne, ops, t, of, nf, g, r);
      }
    }
    forall c | c in Indexes(ne.id, ne.fields) ensures c in Columns(ne.fields) && NoDuplicates(rows, c) {
      var g :| g in ne.fields && g.unique && g.id == c;
      UniqueStaysUnique(p, olds, oe, ne, ops, t, of, nf, g);
    }
    OkIfRowsAre(p, RebuiltTable(p, oe, ne, ops, t));
  }

  lemma RebuiltKeys(p: Platform, olds: seq<Field>, news: seq<Field>, ops: seq<Operation>, rows: map<string, Row>, r: string)
    requires r in RebuiltRows(p, olds, news, ops, rows)
    ensures r in rows && RebuiltRows(p, olds, news, ops, rows)[r].cells.Keys == FieldIds(news)
  {
    hide Stored, Declared, ColumnDef, WitnessOf;
  }

  // ----- the rebuild -----

  lemma NotRefused(oe: Entity, ne: Entity, ops: seq<Operation>, t: Table, of: Field, nf: Field, p: Platform)
    requires OnlyChange(oe, ne, of, nf) && DistinctFieldIds(ne.fields) && NoRemap(ne.fields, ops)
    requires HasKind(WitnessOf(ops, nf.id), WitnessBackfill)
    ensures Selectable(oe.fields, ne.fields, ops) && !HasEmptyRemap(oe.fields, ne.fields, ops)
    ensures !LosesInformation(p, t, oe.fields, ne.fields, ops)
  {
    hide WitnessOf, EnumChanged, ReferenceChanged, FieldIds, LossyRows;
    forall g | g in ne.fields
      ensures SelectFault(FieldById(oe.fields, g.id), g, WitnessOf(ops, g.id)).None?
      ensures !MustNotLose(FieldById(oe.fields, g.id), g, WitnessOf(ops, g.id))
      ensures !EmptyRemap(FieldById(oe.fields, g.id), g, WitnessOf(ops, g.id))
    {
      if g.id == nf.id {
        FieldByIdFinds(ne.fields, g);
        FieldByIdFinds(ne.fields, nf);
      } else {
        assert Keeps(oe, g);
      }
    }
  }

  lemma SameForeignKey(of: Field, nf: Field)
    requires (KeepsDefinition(of, nf) && SameBounds(of, nf)) || WidensAndTightens(of, nf)
    ensures ColumnDef(of).fk == ColumnDef(nf).fk && (HasCheck(ColumnDef(of)) <==> HasCheck(ColumnDef(nf)))
  {
    hide EnumChanged;
  }

  lemma SameNames(p: Platform, oe: Entity, ne: Entity, of: Field, nf: Field)
    requires DistinctFieldIds(oe.fields) && DistinctFieldIds(ne.fields) && OnlyChange(oe, ne, of, nf)
    requires UsableColumns(p, Columns(oe.fields))
    ensures UsableColumns(p, Columns(ne.fields))
  {
    hide ColumnDef, Columns, OnlyChange, KeepsDefinition, WidensAndTightens, SameBounds, HasCheck;
    ColumnsOfFields(oe.fields);
    ColumnsOfFields(ne.fields);
    forall c | c in Columns(ne.fields) ensures UsableColumn(p, c, Columns(ne.fields)[c]) {
      var g := FieldById(ne.fields, c).value;
      var og := SurvivorIn(oe, ne, of, nf, g);
      assert Columns(oe.fields)[c] == ColumnDef(og);
      SameForeignKey(og, g);
    }
  }

  lemma IndexNamesFree(p: Platform, db: Db, oe: Entity, ne: Entity, of: Field, nf: Field)
    requires Lawful(p, db) && ne.id in db.tables && Matches(db.tables[ne.id], oe) && oe.id == ne.id
    requires DistinctFieldIds(oe.fields) && DistinctFieldIds(ne.fields) && OnlyChange(oe, ne, of, nf)
    ensures forall g | g in ne.fields && g.unique :: IndexName(ne.id, g.id) !in db.tables && Readable(p, g.id)
  {
    hide OnlyChange, IndexName, Columns, UsableTable, UsableColumns, Readable;
    forall g | g in ne.fields && g.unique ensures IndexName(ne.id, g.id) !in db.tables && Readable(p, g.id) {
      var og := SurvivorIn(oe, ne, of, nf, g);
      IndexOfField(oe.id, oe.fields, og);
      assert Holds(db, ne.id, g.id, IndexName(ne.id, g.id));
    }
  }

  lemma NullIsRefused(p: Platform, db: Db, oe: Entity, ne: Entity, ops: seq<Operation>, of: Field, nf: Field, pairs: set<(string, string)>, r: string)
    requires OnlyChange(oe, ne, of, nf) && DistinctFieldIds(oe.fields) && DistinctFieldIds(ne.fields)
    requires Ready(db, ne.id, pairs) && UniquePairs([ne]) <= pairs && Rebuild(p, db, oe, ne, ops).Ok?
    requires Matches(db.tables[ne.id], oe) && TableOk(p, db.tables[ne.id]) && NoRemap(ne.fields, ops)
    requires r in db.tables[ne.id].rows && nf.id !in p.clock
    ensures !Cell(db.tables[ne.id].rows[r].cells, nf.id).NULL?
  {
    hide Columns, RebuiltRows, Rebuild, Matches, TableOk, OnlyChange, NoRemap, Shaped, Named, NamesDistinct, UniquePairs, Selectable, LosesInformation, Carried, RowOk, ColumnDef;
    var t := db.tables[ne.id];
    RebuildOutcome(p, db, oe, ne, ops, pairs);
    assert nf in ne.fields by { NewFieldIn(oe, ne, of, nf); }
    CellWritten(p, oe, ne, ops, t, of, nf, nf, r);
    CarriedNull(p, nf, Cell(t.rows[r].cells, nf.id));
    ColumnsOfFields(ne.fields);
    RequiredCell(p, oe, ne, of, nf, RebuiltRows(p, oe.fields, ne.fields, ops, t.rows)[r]);
  }

  lemma NewFieldIn(oe: Entity, ne: Entity, of: Field, nf: Field)
    requires OnlyChange(oe, ne, of, nf)
    ensures nf in ne.fields
  {
  }

  lemma RequiredCell(p: Platform, oe: Entity, ne: Entity, of: Field, nf: Field, row: Row)
    requires OnlyChange(oe, ne, of, nf) && DistinctFieldIds(ne.fields) && RowOk(p, Columns(ne.fields), row)
    ensures !Cell(row.cells, nf.id).NULL?
  {
    hide Columns, FieldIds, Stored;
    ColumnsOfFields(ne.fields);
    assert nf.id in FieldIds(ne.fields) by { IdsOfFields(ne.fields); }
  }

  /**
   * When all that changes in an entity is that an optional integer becomes a required real, a
   * declared backfill lets the changeset through the gate, and the rebuild it leads to succeeds, if
   * every surviving column is an expression, if and only if no row holds null in the field: the
   * backfill is never used. (Where the field reads as the clock, the time takes the place of a null.)
   */
  lemma WidenedAndTightenedNeedsNoNulls(p: Platform, db: Db, olds: seq<Entity>, news: seq<Entity>, witnesses: map<string, Witness>,
                                        oe: Entity, ne: Entity, of: Field, nf: Field, pairs: set<(string, string)>)
    requires WellFormed(olds) && WellFormed(news) && ne in news && EntityById(olds, ne.id) == Some(oe)
    requires ValidEntity(olds, oe) && ValidEntity(news, ne) && OnlyChange(oe, ne, of, nf)
    requires nf.id in witnesses && witnesses[nf.id].kind == WitnessBackfill
    requires NamesFit(db, olds, news, pairs) && Lawful(p, db) && TempName(ne.id) !in db.tables
    requires ne.id in db.tables && Matches(db.tables[ne.id], oe) && TableOk(p, db.tables[ne.id])
    requires NoRemap(ne.fields, OpsOf(Prepared(olds, news, witnesses), ne.id))
    ensures var own := OpsOf(Prepared(olds, news, witnesses), ne.id);
            && GateOpen(own) && NeedsRebuild(own)
            && (Rebuild(p, db, oe, ne, own).Ok? <==>
                  !HasUnreadable(p, oe.fields, ne.fields) && (nf.id in p.clock || NoNulls(db.tables[ne.id], nf.id)))
  {
    hide Prepared, OpsOf, OnlyChange, DiffOps, Rebuild, RebuiltTable, Matches, TableOk, NoRemap, Named, NamesDistinct, UniquePairs, WitnessOf, Selectable,
      HasEmptyRemap, HasUnreadable, LosesInformation, NamesAccepted, GateOpen, NeedsRebuild, Shaped, Lawful, IndexName, ValidField, IsReserved, Uniform;
    var ops := Prepared(olds, news, witnesses);
    var own := OpsOf(ops, ne.id);
    var t := db.tables[ne.id];
    PreparedIsDiff(olds, news, witnesses);
    PreparedIsUniform(olds, news, witnesses);
    assert nf in ne.fields by { NewFieldIn(oe, ne, of, nf); }
    assert nf.id != "" by { IdNotEmpty(news, nf); }
    GatePasses(olds, news, ops, witnesses, oe, ne, of, nf);
    PairsOfMember(news, ne, pairs);
    OkIsShaped(p, t);
    if HasUnreadable(p, oe.fields, ne.fields) {
      UnreadableIsRefused(p, db, oe, ne, own);
    } else if nf.id in p.clock || NoNulls(t, nf.id) {
      NotRefused(oe, ne, own, t, of, nf, p);
      AcceptedNames(p, db, oe, ne, of, nf, pairs);
      RebuiltTableOk(p, olds, news, oe, ne, own, t, of, nf);
      RebuildSucceeds(p, db, oe, ne, own, RebuiltTable(p, oe, ne, own, t), pairs);
    }
    if Rebuild(p, db, oe, ne, own).Ok? && nf.id !in p.clock {
      forall r | r in t.rows ensures !Cell(t.rows[r].cells, nf.id).NULL? {
        NullIsRefused(p, db, oe, ne, own, of, nf, pairs, r);
      }
    }
  }

  lemma IdNotEmpty(entities: seq<Entity>, f: Field)
    requires ValidField(entities, f)
    ensures f.id != ""
  {
  }

  lemma AcceptedNames(p: Platform, db: Db, oe: Entity, ne: Entity, of: Field, nf: Field, pairs: set<(string, string)>)
    requires oe.id == ne.id && DistinctFieldIds(oe.fields) && DistinctFieldIds(ne.fields) && OnlyChange(oe, ne, of, nf)
    requires Named(db, pairs) && Lawful(p, db) && TempName(ne.id) !in db.tables
    requires ne.id in db.tables && Matches(db.tables[ne.id], oe)
    ensures NamesAccepted(p, db, ne) && db.tables[ne.id].cols.Keys == FieldIds(oe.fields)
    ensures forall f | f in ne.fields && f.unique :: IndexName(ne.id, f.id) !in db.tables && Readable(p, f.id)
  {
    hide OnlyChange, Named, UsableName, UsableColumns, NamesAccepted, IndexName;
    ColumnsOfFields(oe.fields);
    SameNames(p, oe, ne, of, nf);
    RebuildNames(p, db, ne, pairs);
    IndexNamesFree(p, db, oe, ne, of, nf);
  }
}

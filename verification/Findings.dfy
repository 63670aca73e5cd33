/** Where the migration engine does less than its documentation says, with the exact condition. */
module Findings {
  import opened Results
  import opened Schema
  import opened Sql
  import opened Materialize
  import opened Changesets
  import opened Witnesses
  import opened Diffs
  import opened Executor
  import opened ExecuteLoops
  import opened Views
  import opened NativePath
  import opened ChangesetShape
  import opened DiffMembers

  // ----- dropping a column that is in use -----

  lemma {:induction false} UntargetedFold(p: Platform, eid: string, ops: seq<Operation>, id: string, v: ColumnView, rows: set<string>)
    requires forall op | op in ops :: Target(op.change) != Some(id)
    ensures FoldView(p, eid, ops, id, v, rows) == v
  {
    hide StepView;
    if ops != [] {
      assert ops[|ops| - 1] in ops;
      UntargetedFold(p, eid, ops[..|ops| - 1], id, v, rows);
    }
  }

  lemma PrefixCovered(eid: string, ops: seq<Operation>, pairs: set<(string, string)>, i: nat)
    requires i <= |ops| && AllCovered(eid, ops, pairs)
    ensures AllCovered(eid, ops[..i], pairs)
  {
    hide IndexesCovered;
  }

  lemma StillInUse(before: Table, after: Table, id: string)
    requires ViewOf(after, id) == ViewOf(before, id) && InUse(before, id)
    ensures InUse(after, id)
  {
  }

  /** Dropping an in-use column natively fails, whatever ran before on other columns. */
  lemma DropInUseFails(p: Platform, db: Db, eid: string, ops: seq<Operation>, pairs: set<(string, string)>, id: string, i: nat)
    requires Ready(db, eid, pairs) && AllCovered(eid, ops, pairs) && InUse(db.tables[eid], id)
    requires i < |ops| && ops[i].change.DropField? && ops[i].change.before.id == id
    requires forall op | op in ops[..i] :: Target(op.change) != Some(id)
    ensures NativeOps(p, db, eid, ops).Err?
  {
    hide ViewOf, InUse, StepView, IndexesCovered;
    var prefix := ops[..i];
    if NativeOps(p, db, eid, prefix).Ok? {
      PrefixCovered(eid, ops, pairs, i);
      NativeOpsFold(p, db, eid, prefix, pairs);
      var mid := NativeOps(p, db, eid, prefix).value;
      UntargetedFold(p, eid, prefix, id, ViewOf(db.tables[eid], id), db.tables[eid].rows.Keys);
      StillInUse(db.tables[eid], mid.tables[eid], id);
      InUseRefused(mid, eid, id);
      assert ops[..i + 1][..i] == prefix;
      NativeFails(p, db, eid, ops, i + 1);
    } else {
      NativeFails(p, db, eid, ops, i);
    }
  }

  lemma InUseRefused(db: Db, eid: string, id: string)
    requires eid in db.tables && InUse(db.tables[eid], id)
    ensures RunDropColumn(db, eid, id) == Err(ColumnInUse)
  {
  }

  function FirstDrop(ops: seq<Operation>, id: string): (i: nat)
    requires exists op | op in ops :: Target(op.change) == Some(id)
    ensures i < |ops| && Target(ops[i].change) == Some(id)
    ensures forall op | op in ops[..i] :: Target(op.change) != Some(id)
  {
    if Target(ops[0].change) == Some(id) then 0
    else
      var i := FirstDrop(ops[1..], id);
      assert ops[..i + 1] == [ops[0]] + ops[1..][..i];
      i + 1
  }

  lemma DropsAreTheOnlyOps(oe: Entity, ne: Entity, of: Field, change: Change)
    requires EntityChange(oe, ne, change) && of.id !in FieldIds(ne.fields)
    requires Target(change) == Some(of.id)
    ensures change.DropField? && change.before.id == of.id
  {
    hide EnumChanged, ReferenceChanged;
    if nf :| nf in ne.fields && NewFieldChange(oe.fields, nf, change) {
      assert nf.id in FieldIds(ne.fields);
    }
  }

  lemma ForeignKeyOfColumn(t: Table, oe: Entity, of: Field)
    requires MatchesButBounds(t, oe) && DistinctFieldIds(oe.fields) && of in oe.fields
    ensures of.id in t.cols && (t.cols[of.id].fk.Some? <==> of.typ.Reference?)
  {
    hide Columns, Indexes;
    ColumnOfField(oe.fields, of);
  }

  /**
   * SQLite will not drop the field's column: it is unique, or a reference whose foreign key the
   * table declares, as boot and rebuilds do; a reference added natively carries its own.
   */
  predicate Undroppable(t: Table, f: Field) {
    f.unique || (f.typ.Reference? && f.id !in t.inline)
  }

  lemma UndroppableIsInUse(t: Table, oe: Entity, of: Field)
    requires MatchesButBounds(t, oe) && DistinctFieldIds(oe.fields) && of in oe.fields
    ensures InUse(t, of.id) <==> Undroppable(t, of)
  {
    hide ColumnDef, Columns, SameButBounds, Indexes;
    ForeignKeyOfColumn(t, oe, of);
    IndexOfField(oe.id, oe.fields, of);
  }

  /** A single native drop succeeds if and only if the field is neither unique nor a reference the table declares. */
  lemma DropSucceedsUnlessInUse(p: Platform, db: Db, oe: Entity, of: Field)
    requires oe.id in db.tables && MatchesButBounds(db.tables[oe.id], oe)
    requires DistinctFieldIds(oe.fields) && of in oe.fields
    ensures NativeOp(p, db, oe.id, DropField(of)).Ok? <==> !Undroppable(db.tables[oe.id], of)
  {
    hide MatchesButBounds;
    ForeignKeyOfColumn(db.tables[oe.id], oe, of);
    UndroppableIsInUse(db.tables[oe.id], oe, of);
  }

  /** A field that is not unique, a reference included, can be added natively and dropped again: nothing is left of it. */
  lemma AddedFieldDrops(p: Platform, db: Db, eid: string, f: Field)
    requires eid in db.tables && Shaped(db.tables[eid]) && !f.unique
    requires NativeOp(p, db, eid, AddField(f)).Ok?
    ensures NativeOp(p, NativeOp(p, db, eid, AddField(f)).value, eid, DropField(f)) == Ok(db)
  {
    hide ColumnDef, DefaultLiteral, Stored, Satisfies, Widened, Narrowed, UsableColumns, IsReserved;
    var t := db.tables[eid];
    var w := Widened(p, t, f.id, ColumnDef(f), DefaultLiteral(p, f));
    NarrowedAgain(p, t, f.id, ColumnDef(f), DefaultLiteral(p, f));
    assert db.tables[eid := w][eid := t] == db.tables;
  }

  lemma NarrowedAgain(p: Platform, t: Table, col: string, def: Column, dflt: Value)
    requires Shaped(t) && col !in t.cols
    ensures var w := Widened(p, t, col, def, dflt); !InUse(w, col) && col in w.cols && Narrowed(w, col) == t
  {
    hide Stored;
    var w := Widened(p, t, col, def, dflt);
    assert w.cols - {col} == t.cols;
    assert w.inline - {col} == t.inline;
    NarrowedRows(t.rows, col, Stored(p, def.affinity, dflt));
  }

  lemma NarrowedRows(rows: map<string, Row>, col: string, v: Value)
    requires forall r | r in rows :: col !in rows[r].cells
    ensures var wide := map r | r in rows :: rows[r].(cells := rows[r].cells[col := v]);
            (map r | r in wide :: wide[r].(cells := wide[r].cells - {col})) == rows
  {
    forall r | r in rows ensures rows[r].cells[col := v] - {col} == rows[r].cells {
    }
  }

  /**
   * The documentation says drops use native DROP COLUMN. For a unique field, or a reference the table
   * declares, of an entity that nothing else forces to be rebuilt, that statement is refused, so the
   * migration can never run: not with a confirmation, and not with any witness.
   */
  lemma {:induction false} UndroppableFieldNeverDrops(p: Platform, db: Db, oe: Entity, ne: Entity, ops: seq<Operation>, of: Field, pairs: set<(string, string)>)
    requires oe.id == ne.id && DistinctFieldIds(oe.fields) && DistinctFieldIds(ne.fields)
    requires Ready(db, ne.id, pairs) && MatchesButBounds(db.tables[ne.id], oe)
    requires UniquePairs([oe]) <= pairs && UniquePairs([ne]) <= pairs
    requires SameChanges(ops, EntityChanges(oe, ne))
    requires of in oe.fields && of.id !in FieldIds(ne.fields) && Undroppable(db.tables[ne.id], of)
    ensures NativeOps(p, db, ne.id, ops).Err?
  {
    hide EntityChanges, NativeOps, EntityChange, FieldIds, InUse, MatchesButBounds, IndexesCovered, Shaped, Named, NamesDistinct, UniquePairs;
    var own := EntityChanges(oe, ne);
    NativeOpsOfSameChanges(p, db, ne.id, ops, own);
    ChangesCovered(oe, ne, pairs);
    EntityChangesMembers(oe, ne);
    DropIsAChange(oe, ne, of);
    var drop :| drop in own && drop.change == DropField(of);
    assert Target(drop.change) == Some(of.id);
    var i := FirstDrop(own, of.id);
    assert own[i] in own;
    DropsAreTheOnlyOps(oe, ne, of, own[i].change);
    UndroppableIsInUse(db.tables[ne.id], oe, of);
    DropInUseFails(p, db, ne.id, own, pairs, of.id, i);
  }

  lemma DropIsAChange(oe: Entity, ne: Entity, of: Field)
    requires of in oe.fields && of.id !in FieldIds(ne.fields)
    ensures EntityChange(oe, ne, DropField(of))
  {
  }

  // ----- rebuilds that can never run -----

  /**
   * An enum change needs no witness, so a remap without pairs passes the gate; its CASE expression
   * is not SQL, so the rebuild it asks for always fails.
   */
  lemma EmptyRemapNeverRuns(p: Platform, db: Db, oe: Entity, ne: Entity, ops: seq<Operation>, op: Operation, of: Field, nf: Field)
    requires nf in ne.fields && FieldById(oe.fields, nf.id) == Some(of) && of.typ.Enum? && nf.typ.Enum?
    requires HasKind(WitnessOf(ops, nf.id), WitnessRemap) && WitnessOf(ops, nf.id).value.remap == map[]
    requires op.change == ChangeEnum(of, nf)
    ensures !LacksWitness(op)
    ensures Rebuild(p, db, oe, ne, ops).Err?
  {
    hide Columns, RebuiltRows, RowOk, LosesInformation, Selectable, IndexStmts;
    assert EmptyRemap(FieldById(oe.fields, nf.id), nf, WitnessOf(ops, nf.id));
  }

  /**
   * The temporary table of a rebuild is named after its entity. A manifest may declare an entity of
   * just that name, and then the other one can never be rebuilt.
   */
  lemma TakenTempNameBlocksRebuild(p: Platform, db: Db, app: App, oe: Entity, ne: Entity, ops: seq<Operation>, other: Entity)
    requires CatalogueButBounds(db, app) && other in app.entities && other.id == TempName(ne.id)
    ensures Rebuild(p, db, oe, ne, ops).Err?
    ensures IsIdentifier(ne.id) ==> IsIdentifier(other.id)
  {
    hide Columns, RebuiltRows, RowOk, LosesInformation, Selectable, IndexStmts, MatchesButBounds, HasEmptyRemap;
    assert other.id in EntityIds(app.entities);
    if IsIdentifier(ne.id) {
      assert forall c | c in "mig_" :: IsIdentifierChar(c);
      assert forall c | c in other.id :: c in "mig_" || c in ne.id;
    }
  }
}

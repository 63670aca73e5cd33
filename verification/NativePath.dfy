/** The fast path of a migration (ADD COLUMN, DROP COLUMN, indexes), from an entity's difference. */
module NativePath {
  import opened Results
  import opened Schema
  import opened Sql
  import opened Materialize
  import opened Changesets
  import opened Diffs
  import opened Executor
  import opened Views

  // ----- labels and witnesses do not matter to the native path -----

  /** The same operations, whatever class and witness each carries. */
  predicate SameChanges(a: seq<Operation>, b: seq<Operation>) {
    && |a| == |b|
    && forall i | 0 <= i < |a| ::
         a[i].change == b[i].change && a[i].entityId == b[i].entityId && a[i].fieldId == b[i].fieldId
  }

  lemma {:induction false} NativeOpsOfSameChanges(p: Platform, db: Db, eid: string, a: seq<Operation>, b: seq<Operation>)
    requires SameChanges(a, b)
    ensures NativeOps(p, db, eid, a) == NativeOps(p, db, eid, b)
  {
    hide NativeOp;
    if a != [] {
      NativeOpsOfSameChanges(p, db, eid, a[..|a| - 1], b[..|b| - 1]);
    }
  }

  lemma NeedsRebuildOfSameChanges(a: seq<Operation>, b: seq<Operation>)
    requires SameChanges(a, b)
    ensures NeedsRebuild(a) == NeedsRebuild(b) && AllRenames(a) == AllRenames(b)
  {
    forall op | op in a ensures exists other | other in b :: other.change == op.change {
      var i :| 0 <= i < |a| && a[i] == op;
      assert b[i].change == op.change;
    }
    forall op | op in b ensures exists other | other in a :: other.change == op.change {
      var i :| 0 <= i < |b| && b[i] == op;
      assert a[i].change == op.change;
    }
  }

  // ----- folding an entity's difference over one column -----

  lemma {:induction false} FoldAppend(p: Platform, eid: string, a: seq<Operation>, b: seq<Operation>, id: string, v: ColumnView, rows: set<string>)
    ensures FoldView(p, eid, a + b, id, v, rows) == FoldView(p, eid, b, id, FoldView(p, eid, a, id, v, rows), rows)
  {
    hide StepView;
    if b == [] {
      assert a + b == a;
    } else {
      assert (a + b)[..|a + b| - 1] == a + b[..|b| - 1];
      FoldAppend(p, eid, a, b[..|b| - 1], id, v, rows);
    }
  }

  lemma FoldAdding(p: Platform, eid: string, ops: seq<Operation>, b: bool, op: Operation, id: string, v: ColumnView, rows: set<string>)
    ensures FoldView(p, eid, Adding(ops, b, op), id, v, rows) ==
            var before := FoldView(p, eid, ops, id, v, rows);
            if b && Target(op.change) == Some(id) then StepView(p, eid, op.change, before, rows) else before
  {
    hide StepView;
    assert (ops + [op])[..|ops|] == ops;
  }

  /** Of a surviving field's changes, only its uniqueness shows in the catalogue. */
  lemma FieldChangesFold(p: Platform, eid: string, of: Field, nf: Field, id: string, v: ColumnView, rows: set<string>)
    ensures FoldView(p, eid, FieldChanges(eid, of, nf), id, v, rows) ==
            if id == nf.id && of.unique != nf.unique then StepView(p, eid, ChangeUnique(of, nf), v, rows) else v
  {
    hide StepView, Adding, EnumChanged, ReferenceChanged;
    var named := Adding([], of.name != nf.name, Op(eid, nf.id, RenameField(of, nf)));
    var typed := Adding(named, of.typ != nf.typ, Op(eid, nf.id, ChangeType(of, nf)));
    var required := Adding(typed, of.required != nf.required, Op(eid, nf.id, ChangeRequired(of, nf)));
    var unique := Adding(required, of.unique != nf.unique, Op(eid, nf.id, ChangeUnique(of, nf)));
    var enumerated := Adding(unique, EnumChanged(of, nf), Op(eid, nf.id, ChangeEnum(of, nf)));
    FoldAdding(p, eid, [], of.name != nf.name, Op(eid, nf.id, RenameField(of, nf)), id, v, rows);
    FoldAdding(p, eid, named, of.typ != nf.typ, Op(eid, nf.id, ChangeType(of, nf)), id, v, rows);
    FoldAdding(p, eid, typed, of.required != nf.required, Op(eid, nf.id, ChangeRequired(of, nf)), id, v, rows);
    FoldAdding(p, eid, required, of.unique != nf.unique, Op(eid, nf.id, ChangeUnique(of, nf)), id, v, rows);
    FoldAdding(p, eid, unique, EnumChanged(of, nf), Op(eid, nf.id, ChangeEnum(of, nf)), id, v, rows);
    FoldAdding(p, eid, enumerated, ReferenceChanged(of, nf), Op(eid, nf.id, ChangeReference(of, nf)), id, v, rows);
    OtherStepsKeepView(p, eid, of, nf, v, rows);
    assert FoldView(p, eid, [], id, v, rows) == v;
  }

  lemma OtherStepsKeepView(p: Platform, eid: string, of: Field, nf: Field, v: ColumnView, rows: set<string>)
    ensures forall w: ColumnView ::
              && StepView(p, eid, RenameField(of, nf), w, rows) == w
              && StepView(p, eid, ChangeType(of, nf), w, rows) == w
              && StepView(p, eid, ChangeRequired(of, nf), w, rows) == w
              && StepView(p, eid, ChangeEnum(of, nf), w, rows) == w
              && StepView(p, eid, ChangeReference(of, nf), w, rows) == w
  {
  }

  lemma FieldOpsElsewhere(p: Platform, eid: string, olds: seq<Field>, nf: Field, id: string, v: ColumnView, rows: set<string>)
    requires id != nf.id
    ensures FoldView(p, eid, FieldOps(eid, olds, nf), id, v, rows) == v
  {
    hide FieldChanges, StepView;
    var of := FieldById(olds, nf.id);
    if of.Some? {
      FieldChangesFold(p, eid, of.value, nf, id, v, rows);
    } else {
      assert FoldView(p, eid, [], id, v, rows) == v;
    }
  }

  lemma LastFieldById(fields: seq<Field>, id: string)
    requires DistinctFieldIds(fields) && fields != []
    ensures var rest, f := fields[..|fields| - 1], fields[|fields| - 1];
            FieldById(fields, id) == if id == f.id then Some(f) else FieldById(rest, id)
  {
    var rest, f := fields[..|fields| - 1], fields[|fields| - 1];
    if FieldById(fields, id).Some? {
      var g := FieldById(fields, id).value;
      if g == f {
        FieldByIdFinds(fields, f);
      } else {
        assert g in rest;
        FieldByIdFinds(rest, g);
      }
    }
    if FieldById(rest, id).Some? {
      FieldByIdFinds(fields, FieldById(rest, id).value);
    }
    FieldByIdFinds(fields, f);
  }

  lemma {:induction false} FieldsOpsFold(p: Platform, eid: string, olds: seq<Field>, news: seq<Field>, id: string, v: ColumnView, rows: set<string>)
    requires DistinctFieldIds(news)
    ensures FoldView(p, eid, FieldsOps(eid, olds, news), id, v, rows) ==
            match FieldById(news, id)
            case None => v
            case Some(nf) => FoldView(p, eid, FieldOps(eid, olds, nf), id, v, rows)
  {
    hide FieldOps, FieldById;
    if news == [] {
      assert FieldById(news, id).None?;
    } else {
      var rest, nf := news[..|news| - 1], news[|news| - 1];
      FieldsOpsFold(p, eid, olds, rest, id, v, rows);
      FoldAppend(p, eid, FieldsOps(eid, olds, rest), FieldOps(eid, olds, nf), id, v, rows);
      LastFieldById(news, id);
      if id != nf.id {
        FieldOpsElsewhere(p, eid, olds, nf, id, FoldView(p, eid, FieldsOps(eid, olds, rest), id, v, rows), rows);
      }
    }
  }

  lemma NothingFolds(p: Platform, eid: string, id: string, v: ColumnView, rows: set<string>)
    ensures FoldView(p, eid, [], id, v, rows) == v
  {
  }

  lemma DropFold(p: Platform, eid: string, of: Field, b: bool, id: string, v: ColumnView, rows: set<string>)
    ensures FoldView(p, eid, When(b, Op(eid, of.id, DropField(of))), id, v, rows)
            == if b && id == of.id then Absent else v
  {
    NothingFolds(p, eid, id, v, rows);
  }

  lemma {:induction false} DropOpsFold(p: Platform, eid: string, olds: seq<Field>, news: seq<Field>, id: string, v: ColumnView, rows: set<string>)
    ensures FoldView(p, eid, DropOps(eid, olds, news), id, v, rows)
            == if id in FieldIds(olds) && id !in FieldIds(news) then Absent else v
  {
    hide FieldIds, When, FoldView;
    if olds == [] {
      NothingFolds(p, eid, id, v, rows);
      assert FieldIds(olds) == {} by {
        NoFieldIds();
      }
    } else {
      var rest, of := olds[..|olds| - 1], olds[|olds| - 1];
      DropOpsFold(p, eid, rest, news, id, v, rows);
      FieldIdsOfLast(olds);
      FoldAppend(p, eid, DropOps(eid, rest, news), When(of.id !in FieldIds(news), Op(eid, of.id, DropField(of))), id, v, rows);
      DropFold(p, eid, of, of.id !in FieldIds(news), id, FoldView(p, eid, DropOps(eid, rest, news), id, v, rows), rows);
    }
  }

  lemma NoFieldIds()
    ensures FieldIds([]) == {}
  {
  }

  lemma FieldIdsOfLast(fields: seq<Field>)
    requires fields != []
    ensures FieldIds(fields) == FieldIds(fields[..|fields| - 1]) + {fields[|fields| - 1].id}
  {
    assert fields == fields[..|fields| - 1] + [fields[|fields| - 1]];
  }

  // ----- the outcome of the native path -----

  /** Each column of the table the native path leaves. */
  function NativeView(p: Platform, eid: string, news: seq<Field>, t: Table, id: string): ColumnView {
    match FieldById(news, id)
    case None => Absent
    case Some(nf) =>
      if id in t.cols then Present(t.cols[id], IndexFor(eid, nf), id in t.inline, CellsOf(t.rows, id))
      else Present(ColumnDef(nf), IndexFor(eid, nf), ColumnDef(nf).fk.Some?, Filled(p, nf, t.rows.Keys))
  }

  /** The table has the columns and indexes of the entity, whatever its column definitions. */
  predicate Carries(t: Table, eid: string, fields: seq<Field>) {
    t.cols.Keys == FieldIds(fields) && t.indexes == Indexes(eid, fields) && Shaped(t)
  }

  lemma IndexOfField(eid: string, fields: seq<Field>, f: Field)
    requires DistinctFieldIds(fields) && f in fields
    ensures f.id in Indexes(eid, fields) <==> f.unique
  {
    if f.id in Indexes(eid, fields) {
      var g :| g in fields && g.unique && g.id == f.id;
      FieldByIdFinds(fields, f);
      FieldByIdFinds(fields, g);
    }
  }

  lemma CarriedView(t: Table, eid: string, fields: seq<Field>, f: Field)
    requires Carries(t, eid, fields) && DistinctFieldIds(fields) && f in fields
    ensures ViewOf(t, f.id) == Present(t.cols[f.id], IndexFor(eid, f), f.id in t.inline, CellsOf(t.rows, f.id))
  {
    IndexOfField(eid, fields, f);
    assert f.id in FieldIds(fields);
  }

  lemma EntityChangesFold(p: Platform, oe: Entity, ne: Entity, t: Table, id: string)
    requires oe.id == ne.id && DistinctFieldIds(oe.fields) && DistinctFieldIds(ne.fields)
    requires Carries(t, ne.id, oe.fields)
    ensures FoldView(p, ne.id, EntityChanges(oe, ne), id, ViewOf(t, id), t.rows.Keys) == NativeView(p, ne.id, ne.fields, t, id)
  {
    hide FieldsOps, DropOps, FieldChanges, ViewOf, Filled;
    var eid, v, rows := ne.id, ViewOf(t, id), t.rows.Keys;
    var renamed := When(oe.name != ne.name, Op(eid, "", RenameEntity(oe, ne)));
    var changed := FieldsOps(eid, oe.fields, ne.fields);
    FoldAppend(p, eid, renamed + changed, DropOps(eid, oe.fields, ne.fields), id, v, rows);
    FoldAppend(p, eid, renamed, changed, id, v, rows);
    RenameFold(p, eid, oe, ne, id, v, rows);
    FieldsOpsFold(p, eid, oe.fields, ne.fields, id, v, rows);
    var mid := FoldView(p, eid, changed, id, v, rows);
    DropOpsFold(p, eid, oe.fields, ne.fields, id, mid, rows);
    if FieldById(ne.fields, id).Some? {
      SurvivorFold(p, oe, ne, t, FieldById(ne.fields, id).value);
    } else if id !in t.cols {
      assert ViewOf(t, id) == Absent by {
        AbsentView(t, id);
      }
    }
  }

  lemma AbsentView(t: Table, id: string)
    ensures ViewOf(t, id) == Absent <==> id !in t.cols
  {
  }

  lemma RenameFold(p: Platform, eid: string, oe: Entity, ne: Entity, id: string, v: ColumnView, rows: set<string>)
    ensures FoldView(p, eid, When(oe.name != ne.name, Op(eid, "", RenameEntity(oe, ne))), id, v, rows) == v
  {
    assert FoldView(p, eid, [], id, v, rows) == v;
  }

  lemma SurvivorFold(p: Platform, oe: Entity, ne: Entity, t: Table, nf: Field)
    requires oe.id == ne.id && DistinctFieldIds(oe.fields) && DistinctFieldIds(ne.fields)
    requires Carries(t, ne.id, oe.fields) && nf in ne.fields
    ensures FoldView(p, ne.id, FieldOps(ne.id, oe.fields, nf), nf.id, ViewOf(t, nf.id), t.rows.Keys)
            == NativeView(p, ne.id, ne.fields, t, nf.id)
  {
    hide FieldChanges, ViewOf, Filled;
    FieldByIdFinds(ne.fields, nf);
    var v := ViewOf(t, nf.id);
    match FieldById(oe.fields, nf.id) {
      case Some(of) =>
        CarriedView(t, ne.id, oe.fields, of);
        FieldChangesFold(p, ne.id, of, nf, nf.id, v, t.rows.Keys);
      case None =>
        assert FoldView(p, ne.id, [], nf.id, v, t.rows.Keys) == v;
    }
  }

  /** Every index a surviving entity's changes touch is a unique field of the old or new entity. */
  lemma ChangesCovered(oe: Entity, ne: Entity, pairs: set<(string, string)>)
    requires oe.id == ne.id && UniquePairs([oe]) <= pairs && UniquePairs([ne]) <= pairs
    ensures AllCovered(ne.id, EntityChanges(oe, ne), pairs)
  {
    forall op | op in EntityChanges(oe, ne) ensures IndexesCovered(ne.id, op.change, pairs) {
      if op in FieldsOps(ne.id, oe.fields, ne.fields) {
        FieldsOpsCovered(oe, ne, ne.fields, pairs);
      } else if op in DropOps(ne.id, oe.fields, ne.fields) {
        DropOpsAreDrops(ne.id, oe.fields, ne.fields);
      }
    }
  }

  lemma {:induction false} DropOpsAreDrops(eid: string, olds: seq<Field>, news: seq<Field>)
    ensures forall op | op in DropOps(eid, olds, news) :: op.change.DropField? && op.entityId == eid
  {
    if olds != [] {
      DropOpsAreDrops(eid, olds[..|olds| - 1], news);
    }
  }

  lemma {:induction false} FieldsOpsCovered(oe: Entity, ne: Entity, news: seq<Field>, pairs: set<(string, string)>)
    requires oe.id == ne.id && UniquePairs([oe]) <= pairs && UniquePairs([ne]) <= pairs
    requires forall f | f in news :: f in ne.fields
    ensures AllCovered(ne.id, FieldsOps(ne.id, oe.fields, news), pairs)
  {
    if news != [] {
      var nf := news[|news| - 1];
      FieldsOpsCovered(oe, ne, news[..|news| - 1], pairs);
      FieldOpsCovered(oe, ne, nf, pairs);
    }
  }

  lemma AddingCovered(eid: string, ops: seq<Operation>, b: bool, op: Operation, pairs: set<(string, string)>)
    requires AllCovered(eid, ops, pairs) && (b ==> IndexesCovered(eid, op.change, pairs))
    ensures AllCovered(eid, Adding(ops, b, op), pairs)
  {
  }

  lemma FieldOpsCovered(oe: Entity, ne: Entity, nf: Field, pairs: set<(string, string)>)
    requires oe.id == ne.id && UniquePairs([oe]) <= pairs && UniquePairs([ne]) <= pairs
    requires nf in ne.fields
    ensures AllCovered(ne.id, FieldOps(ne.id, oe.fields, nf), pairs)
  {
    hide Adding, AllCovered, EnumChanged, ReferenceChanged, UniquePairs;
    var eid := ne.id;
    UniqueCovered(ne, nf, pairs);
    match FieldById(oe.fields, nf.id) {
      case None =>
        AddingCovered(eid, [], true, Op(eid, nf.id, AddField(nf)), pairs) by {
          NothingCovered(eid, pairs);
        }
        assert Adding([], true, Op(eid, nf.id, AddField(nf))) == FieldOps(eid, oe.fields, nf) by {
          AddingToNothing(Op(eid, nf.id, AddField(nf)));
        }
      case Some(of) =>
        UniqueCovered(oe, of, pairs);
        NothingCovered(eid, pairs);
        var named := Adding([], of.name != nf.name, Op(eid, nf.id, RenameField(of, nf)));
        AddingCovered(eid, [], of.name != nf.name, Op(eid, nf.id, RenameField(of, nf)), pairs);
        var typed := Adding(named, of.typ != nf.typ, Op(eid, nf.id, ChangeType(of, nf)));
        AddingCovered(eid, named, of.typ != nf.typ, Op(eid, nf.id, ChangeType(of, nf)), pairs);
        var required := Adding(typed, of.required != nf.required, Op(eid, nf.id, ChangeRequired(of, nf)));
        AddingCovered(eid, typed, of.required != nf.required, Op(eid, nf.id, ChangeRequired(of, nf)), pairs);
        var unique := Adding(required, of.unique != nf.unique, Op(eid, nf.id, ChangeUnique(of, nf)));
        AddingCovered(eid, required, of.unique != nf.unique, Op(eid, nf.id, ChangeUnique(of, nf)), pairs);
        var enumerated := Adding(unique, EnumChanged(of, nf), Op(eid, nf.id, ChangeEnum(of, nf)));
        AddingCovered(eid, unique, EnumChanged(of, nf), Op(eid, nf.id, ChangeEnum(of, nf)), pairs);
        AddingCovered(eid, enumerated, ReferenceChanged(of, nf), Op(eid, nf.id, ChangeReference(of, nf)), pairs);
    }
  }

  lemma NothingCovered(eid: string, pairs: set<(string, string)>)
    ensures AllCovered(eid, [], pairs)
  {
  }

  lemma AddingToNothing(op: Operation)
    ensures Adding([], true, op) == [op]
  {
  }

  lemma UniqueCovered(e: Entity, f: Field, pairs: set<(string, string)>)
    requires UniquePairs([e]) <= pairs && f in e.fields
    ensures f.unique ==> (e.id, f.id) in pairs
  {
    assert e in [e];
    assert f.unique ==> (e.id, f.id) in UniquePairs([e]);
  }

  /**
   * The native path, on any entity difference it accepts: rows keep their ids and timestamps,
   * surviving columns keep their definition and every value, added columns hold their default,
   * and the unique indexes become those of the new entity. Nothing outside the table changes.
   */
  lemma NativeOutcome(p: Platform, db: Db, oe: Entity, ne: Entity, ops: seq<Operation>, pairs: set<(string, string)>)
    requires oe.id == ne.id && DistinctFieldIds(oe.fields) && DistinctFieldIds(ne.fields)
    requires Ready(db, ne.id, pairs) && Carries(db.tables[ne.id], ne.id, oe.fields)
    requires UniquePairs([oe]) <= pairs && UniquePairs([ne]) <= pairs
    requires SameChanges(ops, EntityChanges(oe, ne)) && NativeOps(p, db, ne.id, ops).Ok?
    ensures var after := NativeOps(p, db, ne.id, ops).value;
            && Ready(after, ne.id, pairs) && SameElsewhere(db, after, ne.id)
            && SameRows(db.tables[ne.id].rows, after.tables[ne.id].rows)
            && forall id :: ViewOf(after.tables[ne.id], id) == NativeView(p, ne.id, ne.fields, db.tables[ne.id], id)
  {
    hide EntityChanges, ViewOf, NativeView;
    NativeOpsOfSameChanges(p, db, ne.id, ops, EntityChanges(oe, ne));
    ChangesCovered(oe, ne, pairs);
    NativeOpsFold(p, db, ne.id, EntityChanges(oe, ne), pairs);
    forall id {
      EntityChangesFold(p, oe, ne, db.tables[ne.id], id);
    }
  }
}

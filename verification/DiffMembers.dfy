/** Which operations a difference contains, read off the two manifests. */
module DiffMembers {
  import opened Results
  import opened Schema
  import opened Changesets
  import opened Witnesses
  import opened Diffs
  import opened Executor
  import opened NativePath
  import opened ChangesetShape

  // ----- membership -----

  lemma AddingMembers(ops: seq<Operation>, b: bool, x: Operation)
    ensures forall op :: op in Adding(ops, b, x) <==> op in ops || (b && op == x)
  {
  }

  /** A change of `of` to `nf` along one dimension. */
  predicate FieldChange(of: Field, nf: Field, change: Change) {
    || (of.name != nf.name && change == RenameField(of, nf))
    || (of.typ != nf.typ && change == ChangeType(of, nf))
    || (of.required != nf.required && change == ChangeRequired(of, nf))
    || (of.unique != nf.unique && change == ChangeUnique(of, nf))
    || (EnumChanged(of, nf) && change == ChangeEnum(of, nf))
    || (ReferenceChanged(of, nf) && change == ChangeReference(of, nf))
  }

  lemma FieldChangesMembers(eid: string, of: Field, nf: Field)
    ensures forall op :: op in FieldChanges(eid, of, nf) <==>
              FieldChange(of, nf, op.change) && op == Op(eid, nf.id, op.change)
  {
    hide Adding, EnumChanged, ReferenceChanged;
    var named := Adding([], of.name != nf.name, Op(eid, nf.id, RenameField(of, nf)));
    AddingMembers([], of.name != nf.name, Op(eid, nf.id, RenameField(of, nf)));
    var typed := Adding(named, of.typ != nf.typ, Op(eid, nf.id, ChangeType(of, nf)));
    AddingMembers(named, of.typ != nf.typ, Op(eid, nf.id, ChangeType(of, nf)));
    var required := Adding(typed, of.required != nf.required, Op(eid, nf.id, ChangeRequired(of, nf)));
    AddingMembers(typed, of.required != nf.required, Op(eid, nf.id, ChangeRequired(of, nf)));
    var unique := Adding(required, of.unique != nf.unique, Op(eid, nf.id, ChangeUnique(of, nf)));
    AddingMembers(required, of.unique != nf.unique, Op(eid, nf.id, ChangeUnique(of, nf)));
    var enumerated := Adding(unique, EnumChanged(of, nf), Op(eid, nf.id, ChangeEnum(of, nf)));
    AddingMembers(unique, EnumChanged(of, nf), Op(eid, nf.id, ChangeEnum(of, nf)));
    AddingMembers(enumerated, ReferenceChanged(of, nf), Op(eid, nf.id, ChangeReference(of, nf)));
  }

  /** A change the difference makes of field `nf` of the new manifest. */
  predicate NewFieldChange(olds: seq<Field>, nf: Field, change: Change) {
    match FieldById(olds, nf.id)
    case None => change == AddField(nf)
    case Some(of) => FieldChange(of, nf, change)
  }

  lemma FieldOpsMembers(eid: string, olds: seq<Field>, nf: Field)
    ensures forall op :: op in FieldOps(eid, olds, nf) <==>
              NewFieldChange(olds, nf, op.change) && op == Op(eid, nf.id, op.change)
  {
    hide FieldChanges, FieldChange;
    match FieldById(olds, nf.id) {
      case None =>
      case Some(of) => FieldChangesMembers(eid, of, nf);
    }
  }

  lemma {:induction false} FieldsOpsMembers(eid: string, olds: seq<Field>, news: seq<Field>)
    ensures forall op :: op in FieldsOps(eid, olds, news) <==>
              exists nf | nf in news :: NewFieldChange(olds, nf, op.change) && op == Op(eid, nf.id, op.change)
  {
    hide FieldOps, NewFieldChange;
    if news != [] {
      FieldsOpsMembers(eid, olds, news[..|news| - 1]);
      FieldOpsMembers(eid, olds, news[|news| - 1]);
      assert forall nf | nf in news :: nf in news[..|news| - 1] || nf == news[|news| - 1];
    }
  }

  lemma {:induction false} DropOpsMembers(eid: string, olds: seq<Field>, news: seq<Field>)
    ensures forall op :: op in DropOps(eid, olds, news) <==>
              exists of | of in olds :: of.id !in FieldIds(news) && op == Op(eid, of.id, DropField(of))
  {
    hide FieldIds;
    if olds != [] {
      DropOpsMembers(eid, olds[..|olds| - 1], news);
      assert forall of | of in olds :: of in olds[..|olds| - 1] || of == olds[|olds| - 1];
    }
  }

  /** Every operation of the difference of two manifests, stated without the order. */
  predicate EntityChange(oe: Entity, ne: Entity, change: Change) {
    || (oe.name != ne.name && change == RenameEntity(oe, ne))
    || (exists nf | nf in ne.fields :: NewFieldChange(oe.fields, nf, change))
    || (exists of | of in oe.fields :: of.id !in FieldIds(ne.fields) && change == DropField(of))
  }

  lemma EntityChangesMembers(oe: Entity, ne: Entity)
    ensures forall op | op in EntityChanges(oe, ne) :: EntityChange(oe, ne, op.change)
    ensures forall change | EntityChange(oe, ne, change) ::
              exists op | op in EntityChanges(oe, ne) :: op.change == change
  {
    hide FieldsOps, DropOps, NewFieldChange, FieldIds;
    FieldsOpsMembers(ne.id, oe.fields, ne.fields);
    DropOpsMembers(ne.id, oe.fields, ne.fields);
    forall change | EntityChange(oe, ne, change)
      ensures exists op | op in EntityChanges(oe, ne) :: op.change == change
    {
      if oe.name != ne.name && change == RenameEntity(oe, ne) {
        assert Op(ne.id, "", change) in EntityChanges(oe, ne);
      } else if exists nf | nf in ne.fields :: NewFieldChange(oe.fields, nf, change) {
        var nf :| nf in ne.fields && NewFieldChange(oe.fields, nf, change);
        var op := Op(ne.id, nf.id, change);
        assert op in FieldsOps(ne.id, oe.fields, ne.fields);
        assert op in EntityChanges(oe, ne);
      } else {
        var of :| of in oe.fields && of.id !in FieldIds(ne.fields) && change == DropField(of);
        var op := Op(ne.id, of.id, change);
        assert op in DropOps(ne.id, oe.fields, ne.fields);
        assert op in EntityChanges(oe, ne);
      }
    }
  }

  /** Whatever the difference says of a surviving entity is among its operations. */
  lemma OwnChanges(olds: seq<Entity>, news: seq<Entity>, ops: seq<Operation>, oe: Entity, ne: Entity)
    requires DistinctEntityIds(news) && ne in news && EntityById(olds, ne.id) == Some(oe)
    requires SameChanges(ops, DiffOps(olds, news))
    ensures forall op | op in OpsOf(ops, ne.id) :: EntityChange(oe, ne, op.change)
    ensures forall change | EntityChange(oe, ne, change) ::
              exists op | op in OpsOf(ops, ne.id) :: op.change == change
  {
    hide EntityChanges, EntityChange, DiffOps;
    OwnOps(olds, news, ops, ne);
    EntityChangesMembers(oe, ne);
    var own, diff := OpsOf(ops, ne.id), EntityChanges(oe, ne);
    forall op | op in own ensures EntityChange(oe, ne, op.change) {
      var i :| 0 <= i < |own| && own[i] == op;
      assert diff[i] in diff;
    }
    forall change | EntityChange(oe, ne, change) ensures exists op | op in own :: op.change == change {
      var x :| x in diff && x.change == change;
      var i :| 0 <= i < |diff| && diff[i] == x;
      assert own[i] in own;
    }
  }

  // ----- when a rebuild is needed -----

  /** A surviving field keeps everything a rebuild would be needed for. */
  predicate KeepsDefinition(of: Field, nf: Field) {
    of.typ == nf.typ && of.required == nf.required && !EnumChanged(of, nf) && !ReferenceChanged(of, nf)
  }

  lemma WithoutRebuildDefinitionsStay(olds: seq<Entity>, news: seq<Entity>, ops: seq<Operation>, oe: Entity, ne: Entity)
    requires DistinctEntityIds(news) && ne in news && EntityById(olds, ne.id) == Some(oe)
    requires SameChanges(ops, DiffOps(olds, news)) && !NeedsRebuild(OpsOf(ops, ne.id))
    ensures forall nf | nf in ne.fields ::
              match FieldById(oe.fields, nf.id)
              case None => !NeedsBackfill(nf)
              case Some(of) => KeepsDefinition(of, nf)
  {
    hide EnumChanged, ReferenceChanged, DiffOps;
    OwnChanges(olds, news, ops, oe, ne);
    forall nf, change | nf in ne.fields && NewFieldChange(oe.fields, nf, change) ensures !RebuildOnly(change) {
      assert EntityChange(oe, ne, change);
    }
    forall nf | nf in ne.fields
      ensures match FieldById(oe.fields, nf.id)
              case None => !NeedsBackfill(nf)
              case Some(of) => KeepsDefinition(of, nf)
    {
      match FieldById(oe.fields, nf.id) {
        case None =>
          assert NewFieldChange(oe.fields, nf, AddField(nf));
        case Some(of) =>
          assert of.typ != nf.typ ==> NewFieldChange(oe.fields, nf, ChangeType(of, nf));
          assert of.required != nf.required ==> NewFieldChange(oe.fields, nf, ChangeRequired(of, nf));
          assert EnumChanged(of, nf) ==> NewFieldChange(oe.fields, nf, ChangeEnum(of, nf));
          assert ReferenceChanged(of, nf) ==> NewFieldChange(oe.fields, nf, ChangeReference(of, nf));
      }
    }
  }
}

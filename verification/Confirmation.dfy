/** What the gates of apply ask for, read off the two manifests. */
module Confirmation {
  import opened Results
  import opened Schema
  import opened Validation
  import opened Sql
  import opened Changesets
  import opened Witnesses
  import opened Diffs
  import opened Executor
  import opened NativePath
  import opened ChangesetShape
  import opened DiffMembers
  import opened Gate
  import opened Reach
  import opened Hosts
  import opened Runs

  // ----- what a difference takes away -----

  predicate HasEntity(entities: seq<Entity>, id: string) {
    exists e | e in entities :: e.id == id
  }

  predicate HasField(fields: seq<Field>, id: string) {
    exists f | f in fields :: f.id == id
  }

  /** The surviving field admits less than it did, or refers elsewhere. */
  predicate FieldShrinks(of: Field, nf: Field) {
    || (of.typ != nf.typ && !(of.typ.Integer? && nf.typ.Real?))
    || (!of.required && nf.required)
    || (!of.unique && nf.unique)
    || (of.typ.Enum? && nf.typ.Enum? && exists v | v in of.values :: v !in nf.values)
    || (of.typ.Reference? && nf.typ.Reference? && (of.target != nf.target || of.onDelete != nf.onDelete))
  }

  predicate EntityShrinks(oe: Entity, ne: Entity) {
    || (exists of | of in oe.fields :: !HasField(ne.fields, of.id))
    || (exists nf | nf in ne.fields :: !HasField(oe.fields, nf.id) && nf.required && nf.default.None?)
    || (exists of, nf | of in oe.fields && nf in ne.fields :: of.id == nf.id && FieldShrinks(of, nf))
  }

  /**
   * The new manifest takes something away: an entity or a field, or some of what a field may hold;
   * or it asks of old rows what they do not have.
   */
  predicate Destroys(olds: seq<Entity>, news: seq<Entity>) {
    || (exists oe | oe in olds :: !HasEntity(news, oe.id))
    || (exists oe, ne | oe in olds && ne in news :: oe.id == ne.id && EntityShrinks(oe, ne))
  }

  // ----- the operations of a difference -----

  lemma IdsAreFields(fields: seq<Field>, id: string)
    ensures id in FieldIds(fields) <==> HasField(fields, id)
  {
  }

  lemma IdsAreEntities(entities: seq<Entity>, id: string)
    ensures id in EntityIds(entities) <==> HasEntity(entities, id)
  {
  }

  lemma {:induction false} EntitiesOpsMembers(olds: seq<Entity>, news: seq<Entity>)
    ensures forall op :: op in EntitiesOps(olds, news) <==> exists ne | ne in news :: op in EntityOps(olds, ne)
  {
    hide EntityOps;
    if news != [] {
      EntitiesOpsMembers(olds, news[..|news| - 1]);
      assert forall ne | ne in news :: ne in news[..|news| - 1] || ne == news[|news| - 1];
    }
  }

  predicate Destructive(change: Change) {
    Classify(change).Destructive?
  }

  /** Of a surviving field's changes, some is destructive exactly when the field shrinks. */
  lemma FieldChangesShrink(of: Field, nf: Field)
    ensures (exists change :: FieldChange(of, nf, change) && Destructive(change)) <==> FieldShrinks(of, nf)
  {
    if of.typ != nf.typ && !(of.typ.Integer? && nf.typ.Real?) {
      assert FieldChange(of, nf, ChangeType(of, nf)) && Destructive(ChangeType(of, nf));
    }
    if !of.required && nf.required {
      assert FieldChange(of, nf, ChangeRequired(of, nf)) && Destructive(ChangeRequired(of, nf));
    }
    if !of.unique && nf.unique {
      assert FieldChange(of, nf, ChangeUnique(of, nf)) && Destructive(ChangeUnique(of, nf));
    }
    if v :| of.typ.Enum? && nf.typ.Enum? && v in of.values && v !in nf.values {
      assert v in multiset(of.values) && v !in multiset(nf.values);
      assert FieldChange(of, nf, ChangeEnum(of, nf)) && Destructive(ChangeEnum(of, nf));
    }
    if of.typ.Reference? && nf.typ.Reference? && (of.target != nf.target || of.onDelete != nf.onDelete) {
      assert FieldChange(of, nf, ChangeReference(of, nf)) && Destructive(ChangeReference(of, nf));
    }
  }

  lemma DestructiveNewField(olds: seq<Field>, nf: Field, change: Change)
    requires NewFieldChange(olds, nf, change) && Destructive(change)
    ensures HasField(olds, nf.id) ==> exists of | of in olds :: of.id == nf.id && FieldShrinks(of, nf)
    ensures !HasField(olds, nf.id) ==> nf.required && nf.default.None?
  {
    hide FieldChange, Destructive, FieldShrinks, FieldIds, HasField;
    IdsAreFields(olds, nf.id);
    match FieldById(olds, nf.id) {
      case None =>
        assert change == AddField(nf);
        assert Destructive(AddField(nf)) <==> nf.required && nf.default.None? by { NewFieldKind(nf); }
      case Some(of) =>
        FieldChangesShrink(of, nf);
    }
  }

  lemma NewFieldKind(nf: Field)
    ensures Destructive(AddField(nf)) <==> nf.required && nf.default.None?
  {
  }

  lemma DestructiveShrinks(oe: Entity, ne: Entity, change: Change)
    requires EntityChange(oe, ne, change) && Destructive(change)
    ensures EntityShrinks(oe, ne)
  {
    hide NewFieldChange, Destructive, FieldShrinks, FieldIds, HasField;
    if oe.name != ne.name && change == RenameEntity(oe, ne) {
      RenameIsSafe(oe, ne);
    } else if nf :| nf in ne.fields && NewFieldChange(oe.fields, nf, change) {
      DestructiveNewField(oe.fields, nf, change);
    } else {
      var of :| of in oe.fields && of.id !in FieldIds(ne.fields) && change == DropField(of);
      IdsAreFields(ne.fields, of.id);
    }
  }

  lemma RenameIsSafe(oe: Entity, ne: Entity)
    ensures !Destructive(RenameEntity(oe, ne))
  {
  }

  lemma ShrinkingIsDestructive(oe: Entity, ne: Entity)
    requires DistinctFieldIds(oe.fields) && EntityShrinks(oe, ne)
    ensures exists change :: EntityChange(oe, ne, change) && Destructive(change)
  {
    hide FieldChange, Destructive, FieldShrinks, FieldIds, HasField;
    if of :| of in oe.fields && !HasField(ne.fields, of.id) {
      IdsAreFields(ne.fields, of.id);
      assert Destructive(DropField(of)) by { DropIsDestructive(of); }
      assert EntityChange(oe, ne, DropField(of));
    } else if nf :| nf in ne.fields && !HasField(oe.fields, nf.id) && nf.required && nf.default.None? {
      IdsAreFields(oe.fields, nf.id);
      NewFieldKind(nf);
      assert NewFieldChange(oe.fields, nf, AddField(nf));
      assert EntityChange(oe, ne, AddField(nf));
    } else {
      var of, nf :| of in oe.fields && nf in ne.fields && of.id == nf.id && FieldShrinks(of, nf);
      FieldByIdFinds(oe.fields, of);
      FieldChangesShrink(of, nf);
      var change :| FieldChange(of, nf, change) && Destructive(change);
      assert NewFieldChange(oe.fields, nf, change);
      assert EntityChange(oe, ne, change);
    }
  }

  lemma DropIsDestructive(of: Field)
    ensures Destructive(DropField(of))
  {
  }

  // ----- the whole difference -----

  /** Where an operation of the difference comes from: an added entity, a surviving one, or a dropped one. */
  lemma OperationOfDiff(olds: seq<Entity>, news: seq<Entity>, op: Operation)
    requires op in DiffOps(olds, news)
    ensures || (exists ne | ne in news :: ne.id !in EntityIds(olds) && op == Op(ne.id, "", AddEntity(ne)))
            || (exists ne | ne in news :: ne.id in EntityIds(olds) && op in EntityChanges(EntityById(olds, ne.id).value, ne))
            || (op.change.DropEntity? && exists oe | oe in olds :: oe.id == op.entityId && oe.id !in EntityIds(news))
  {
    hide EntityChanges, EntitiesOps, EntityDropOps, EntityIds;
    EntitiesOpsMembers(olds, news);
    EntityDropOpsMembers(olds, news);
    if op in EntitiesOps(olds, news) {
      var ne :| ne in news && op in EntityOps(olds, ne);
      assert EntityById(olds, ne.id).None? <==> ne.id !in EntityIds(olds);
    } else {
      IdsAreEntities(olds, op.entityId);
    }
  }

  lemma ChangeIsInDiff(olds: seq<Entity>, news: seq<Entity>, oe: Entity, ne: Entity, op: Operation)
    requires ne in news && EntityById(olds, ne.id) == Some(oe) && op in EntityChanges(oe, ne)
    ensures op in DiffOps(olds, news)
  {
    hide EntityChanges, EntitiesOps, EntityDropOps;
    EntitiesOpsMembers(olds, news);
    assert op in EntityOps(olds, ne);
  }

  /** A changeset holds a destructive operation if and only if the new manifest takes something away. */
  lemma DestructiveIsDestroying(olds: seq<Entity>, news: seq<Entity>)
    requires WellFormed(olds) && WellFormed(news)
    ensures HasDestructive(DiffOps(olds, news)) <==> Destroys(olds, news)
  {
    hide DiffOps, EntityChanges, EntityChange, EntityShrinks, EntityIds, HasEntity, Classify;
    if HasDestructive(DiffOps(olds, news)) {
      var op :| op in DiffOps(olds, news) && Classify(op.change).Destructive?;
      OperationOfDiff(olds, news, op);
      DestructiveOperation(olds, news, op);
    }
    if oe :| oe in olds && !HasEntity(news, oe.id) {
      IdsAreEntities(news, oe.id);
      DroppedIsDestructive(olds, news, oe);
    }
    if oe, ne :| oe in olds && ne in news && oe.id == ne.id && EntityShrinks(oe, ne) {
      EntityByIdFinds(olds, oe);
      ShrinkingIsDestructive(oe, ne);
      var change :| EntityChange(oe, ne, change) && Destructive(change);
      EntityChangesMembers(oe, ne);
      var op :| op in EntityChanges(oe, ne) && op.change == change;
      ChangeIsInDiff(olds, news, oe, ne, op);
    }
  }

  lemma DestructiveOperation(olds: seq<Entity>, news: seq<Entity>, op: Operation)
    requires WellFormed(olds) && op in DiffOps(olds, news) && Destructive(op.change)
    ensures Destroys(olds, news)
  {
    hide DiffOps, EntityChanges, EntityChange, EntityShrinks, EntityIds, HasEntity;
    OperationOfDiff(olds, news, op);
    if ne :| ne in news && ne.id in EntityIds(olds) && op in EntityChanges(EntityById(olds, ne.id).value, ne) {
      var oe := EntityById(olds, ne.id).value;
      EntityChangesMembers(oe, ne);
      DestructiveShrinks(oe, ne, op.change);
    } else if oe :| oe in olds && oe.id == op.entityId && oe.id !in EntityIds(news) {
      IdsAreEntities(news, oe.id);
    }
  }

  lemma DroppedIsDestructive(olds: seq<Entity>, news: seq<Entity>, oe: Entity)
    requires oe in olds && oe.id !in EntityIds(news)
    ensures HasDestructive(DiffOps(olds, news))
  {
    hide EntitiesOps, EntityDropOps;
    EntityDropOpsMembers(olds, news);
    assert Op(oe.id, "", DropEntity(oe)) in DiffOps(olds, news);
  }

  // ----- the witnesses a difference needs -----

  predicate IsDeclared(witnesses: map<string, Witness>, id: string, kind: WitnessKind) {
    id in witnesses && witnesses[id].kind == kind
  }

  /** The field needs a witness that is not declared: for a value old rows lack, or for a type they do not fit. */
  predicate FieldUnwitnessed(of: Field, nf: Field, witnesses: map<string, Witness>) {
    || (of.typ != nf.typ && !(of.typ.Integer? && nf.typ.Real?) && !IsDeclared(witnesses, nf.id, WitnessCoerce))
    || (!of.required && nf.required && !IsDeclared(witnesses, nf.id, WitnessBackfill))
  }

  predicate EntityUnwitnessed(oe: Entity, ne: Entity, witnesses: map<string, Witness>) {
    || (exists nf | nf in ne.fields ::
          !HasField(oe.fields, nf.id) && nf.required && nf.default.None? && !IsDeclared(witnesses, nf.id, WitnessBackfill))
    || (exists of, nf | of in oe.fields && nf in ne.fields :: of.id == nf.id && FieldUnwitnessed(of, nf, witnesses))
  }

  predicate Unwitnessed(olds: seq<Entity>, news: seq<Entity>, witnesses: map<string, Witness>) {
    exists oe, ne | oe in olds && ne in news :: oe.id == ne.id && EntityUnwitnessed(oe, ne, witnesses)
  }

  /** The operation needs a witness that is not declared for its field. */
  predicate Wanting(op: Operation, witnesses: map<string, Witness>) {
    WitnessNeeded(op.change).Some? && !IsDeclared(witnesses, op.fieldId, WitnessNeeded(op.change).value)
  }

  lemma GateOfDiff(olds: seq<Entity>, news: seq<Entity>, witnesses: map<string, Witness>)
    ensures GateOpen(Prepared(olds, news, witnesses)) <==> forall op | op in DiffOps(olds, news) :: !Wanting(op, witnesses)
  {
    hide DiffOps, WitnessNeeded;
    var diff, ops := DiffOps(olds, news), Prepared(olds, news, witnesses);
    PreparedIsUniform(olds, news, witnesses);
    forall i | 0 <= i < |diff| ensures LacksWitness(ops[i]) <==> Wanting(diff[i], witnesses) {
      assert ops[i] in ops;
    }
    if GateOpen(ops) {
      forall op | op in diff ensures !Wanting(op, witnesses) {
        var i :| 0 <= i < |diff| && diff[i] == op;
        assert ops[i] in ops;
      }
    } else {
      var op :| op in ops && LacksWitness(op);
      var i :| 0 <= i < |ops| && ops[i] == op;
      assert diff[i] in diff;
    }
  }

  lemma WantingField(eid: string, of: Field, nf: Field, witnesses: map<string, Witness>)
    requires of.id == nf.id
    ensures (exists change :: FieldChange(of, nf, change) && Wanting(Op(eid, nf.id, change), witnesses)) <==> FieldUnwitnessed(of, nf, witnesses)
  {
    if of.typ != nf.typ && !(of.typ.Integer? && nf.typ.Real?) && !IsDeclared(witnesses, nf.id, WitnessCoerce) {
      assert FieldChange(of, nf, ChangeType(of, nf)) && Wanting(Op(eid, nf.id, ChangeType(of, nf)), witnesses);
    }
    if !of.required && nf.required && !IsDeclared(witnesses, nf.id, WitnessBackfill) {
      assert FieldChange(of, nf, ChangeRequired(of, nf)) && Wanting(Op(eid, nf.id, ChangeRequired(of, nf)), witnesses);
    }
  }

  lemma WantingNewField(eid: string, nf: Field, witnesses: map<string, Witness>)
    ensures Wanting(Op(eid, nf.id, AddField(nf)), witnesses)
            <==> nf.required && nf.default.None? && !IsDeclared(witnesses, nf.id, WitnessBackfill)
  {
  }

  lemma OthersWantNothing(op: Operation, witnesses: map<string, Witness>)
    requires op.change.RenameEntity? || op.change.DropField? || op.change.AddEntity? || op.change.DropEntity?
    ensures !Wanting(op, witnesses)
  {
  }

  /** Every operation on a surviving entity is on the entity, on a field of the new one, or drops a field. */
  lemma OperationOfEntity(oe: Entity, ne: Entity, op: Operation)
    requires op in EntityChanges(oe, ne)
    ensures || op.change.RenameEntity? || op.change.DropField?
            || exists nf | nf in ne.fields :: NewFieldChange(oe.fields, nf, op.change) && op == Op(ne.id, nf.id, op.change)
  {
    hide FieldsOps, DropOps, NewFieldChange, FieldIds;
    FieldsOpsMembers(ne.id, oe.fields, ne.fields);
    DropOpsMembers(ne.id, oe.fields, ne.fields);
  }

  lemma NewFieldOperation(oe: Entity, ne: Entity, nf: Field, change: Change)
    requires nf in ne.fields && NewFieldChange(oe.fields, nf, change)
    ensures Op(ne.id, nf.id, change) in EntityChanges(oe, ne)
  {
    hide FieldsOps, DropOps, NewFieldChange;
    FieldsOpsMembers(ne.id, oe.fields, ne.fields);
    assert Op(ne.id, nf.id, change) in FieldsOps(ne.id, oe.fields, ne.fields);
  }

  lemma WantingIsUnwitnessed(oe: Entity, ne: Entity, op: Operation, witnesses: map<string, Witness>)
    requires op in EntityChanges(oe, ne) && Wanting(op, witnesses)
    ensures EntityUnwitnessed(oe, ne, witnesses)
  {
    hide EntityChanges, Wanting, FieldChange, FieldUnwitnessed, IsDeclared, HasField, FieldIds;
    OperationOfEntity(oe, ne, op);
    if op.change.RenameEntity? || op.change.DropField? {
      OthersWantNothing(op, witnesses);
    } else {
      var nf :| nf in ne.fields && NewFieldChange(oe.fields, nf, op.change) && op == Op(ne.id, nf.id, op.change);
      IdsAreFields(oe.fields, nf.id);
      match FieldById(oe.fields, nf.id) {
        case None =>
          WantingNewField(ne.id, nf, witnesses);
        case Some(of) =>
          WantingField(ne.id, of, nf, witnesses);
      }
    }
  }

  lemma UnwitnessedIsWanting(oe: Entity, ne: Entity, witnesses: map<string, Witness>)
    requires DistinctFieldIds(oe.fields) && EntityUnwitnessed(oe, ne, witnesses)
    ensures exists op | op in EntityChanges(oe, ne) :: Wanting(op, witnesses)
  {
    hide EntityChanges, Wanting, FieldChange, FieldUnwitnessed, IsDeclared, HasField, FieldIds;
    if nf :| nf in ne.fields && !HasField(oe.fields, nf.id) && nf.required && nf.default.None? && !IsDeclared(witnesses, nf.id, WitnessBackfill) {
      IdsAreFields(oe.fields, nf.id);
      WantingNewField(ne.id, nf, witnesses);
      assert NewFieldChange(oe.fields, nf, AddField(nf));
      NewFieldOperation(oe, ne, nf, AddField(nf));
    } else {
      var of, nf :| of in oe.fields && nf in ne.fields && of.id == nf.id && FieldUnwitnessed(of, nf, witnesses);
      FieldByIdFinds(oe.fields, of);
      WantingField(ne.id, of, nf, witnesses);
      var change :| FieldChange(of, nf, change) && Wanting(Op(ne.id, nf.id, change), witnesses);
      assert NewFieldChange(oe.fields, nf, change);
      NewFieldOperation(oe, ne, nf, change);
    }
  }

  /** The witness gate is open if and only if every change that needs a witness has one of its kind. */
  lemma GateAsksForWitnesses(olds: seq<Entity>, news: seq<Entity>, witnesses: map<string, Witness>)
    requires WellFormed(olds) && WellFormed(news)
    ensures GateOpen(Prepared(olds, news, witnesses)) <==> !Unwitnessed(olds, news, witnesses)
  {
    hide DiffOps, EntityChanges, EntityUnwitnessed, EntityIds, Wanting, Prepared, GateOpen;
    GateOfDiff(olds, news, witnesses);
    if op :| op in DiffOps(olds, news) && Wanting(op, witnesses) {
      OperationOfDiff(olds, news, op);
      if op.change.AddEntity? || op.change.DropEntity? {
        OthersWantNothing(op, witnesses);
      } else {
        var ne :| ne in news && ne.id in EntityIds(olds) && op in EntityChanges(EntityById(olds, ne.id).value, ne);
        WantingIsUnwitnessed(EntityById(olds, ne.id).value, ne, op, witnesses);
      }
    }
    if oe, ne :| oe in olds && ne in news && oe.id == ne.id && EntityUnwitnessed(oe, ne, witnesses) {
      EntityByIdFinds(olds, oe);
      UnwitnessedIsWanting(oe, ne, witnesses);
      var op :| op in EntityChanges(oe, ne) && Wanting(op, witnesses);
      ChangeIsInDiff(olds, news, oe, ne, op);
    }
  }

  // ----- no difference -----

  predicate FieldSame(of: Field, nf: Field) {
    && of.name == nf.name && of.typ == nf.typ && of.required == nf.required && of.unique == nf.unique
    && (of.typ.Enum? ==> multiset(of.values) == multiset(nf.values))
    && (of.typ.Reference? ==> of.target == nf.target && of.onDelete == nf.onDelete)
  }

  predicate EntitySame(oe: Entity, ne: Entity) {
    && oe.name == ne.name
    && (forall of | of in oe.fields :: HasField(ne.fields, of.id))
    && (forall nf | nf in ne.fields :: HasField(oe.fields, nf.id))
    && (forall of, nf | of in oe.fields && nf in ne.fields && of.id == nf.id :: FieldSame(of, nf))
  }

  /** Names and definitions agree, whatever became of bounds, defaults and order. */
  predicate Unchanged(olds: seq<Entity>, news: seq<Entity>) {
    && (forall oe | oe in olds :: HasEntity(news, oe.id))
    && (forall ne | ne in news :: HasEntity(olds, ne.id))
    && (forall oe, ne | oe in olds && ne in news && oe.id == ne.id :: EntitySame(oe, ne))
  }

  lemma SameFieldHasNoChange(of: Field, nf: Field)
    ensures (exists change :: FieldChange(of, nf, change)) <==> !FieldSame(of, nf)
  {
    assert of.name != nf.name ==> FieldChange(of, nf, RenameField(of, nf));
    assert of.typ != nf.typ ==> FieldChange(of, nf, ChangeType(of, nf));
    assert of.required != nf.required ==> FieldChange(of, nf, ChangeRequired(of, nf));
    assert of.unique != nf.unique ==> FieldChange(of, nf, ChangeUnique(of, nf));
    assert EnumChanged(of, nf) ==> FieldChange(of, nf, ChangeEnum(of, nf));
    assert ReferenceChanged(of, nf) ==> FieldChange(of, nf, ChangeReference(of, nf));
  }

  lemma ChangedIsNotSame(oe: Entity, ne: Entity, change: Change)
    requires EntityChange(oe, ne, change)
    ensures !EntitySame(oe, ne)
  {
    hide FieldChange, FieldSame, FieldIds, HasField;
    if oe.name == ne.name {
      if nf :| nf in ne.fields && NewFieldChange(oe.fields, nf, change) {
        IdsAreFields(oe.fields, nf.id);
        if FieldById(oe.fields, nf.id).Some? {
          SameFieldHasNoChange(FieldById(oe.fields, nf.id).value, nf);
        }
      } else {
        var of :| of in oe.fields && of.id !in FieldIds(ne.fields);
        IdsAreFields(ne.fields, of.id);
      }
    }
  }

  lemma NotSameIsChanged(oe: Entity, ne: Entity)
    requires DistinctFieldIds(oe.fields) && !EntitySame(oe, ne)
    ensures exists change :: EntityChange(oe, ne, change)
  {
    hide FieldChange, FieldSame, FieldIds, HasField;
    if oe.name != ne.name {
      assert EntityChange(oe, ne, RenameEntity(oe, ne));
    } else if of :| of in oe.fields && !HasField(ne.fields, of.id) {
      IdsAreFields(ne.fields, of.id);
      assert EntityChange(oe, ne, DropField(of));
    } else if nf :| nf in ne.fields && !HasField(oe.fields, nf.id) {
      IdsAreFields(oe.fields, nf.id);
      assert NewFieldChange(oe.fields, nf, AddField(nf));
      assert EntityChange(oe, ne, AddField(nf));
    } else {
      var of, nf :| of in oe.fields && nf in ne.fields && of.id == nf.id && !FieldSame(of, nf);
      FieldByIdFinds(oe.fields, of);
      SameFieldHasNoChange(of, nf);
      var change :| FieldChange(of, nf, change);
      assert NewFieldChange(oe.fields, nf, change);
      assert EntityChange(oe, ne, change);
    }
  }

  /** The difference is empty if and only if nothing but bounds, defaults and order differs. */
  lemma EmptyDifference(olds: seq<Entity>, news: seq<Entity>)
    requires WellFormed(olds) && WellFormed(news)
    ensures DiffOps(olds, news) == [] <==> Unchanged(olds, news)
  {
    hide DiffOps, EntityChanges, EntityChange, EntitySame, EntityIds, HasEntity;
    var ops := DiffOps(olds, news);
    FirstIsMember(ops);
    if ops != [] {
      OperationOfDiff(olds, news, ops[0]);
      MemberIsChange(olds, news, ops[0]);
    }
    if oe :| oe in olds && !HasEntity(news, oe.id) {
      IdsAreEntities(news, oe.id);
      DroppedIsDestructive(olds, news, oe);
    } else if ne :| ne in news && !HasEntity(olds, ne.id) {
      IdsAreEntities(olds, ne.id);
      AddedIsInDiff(olds, news, ne);
    } else if oe, ne :| oe in olds && ne in news && oe.id == ne.id && !EntitySame(oe, ne) {
      EntityByIdFinds(olds, oe);
      NotSameIsChanged(oe, ne);
      var change :| EntityChange(oe, ne, change);
      EntityChangesMembers(oe, ne);
      var op :| op in EntityChanges(oe, ne) && op.change == change;
      ChangeIsInDiff(olds, news, oe, ne, op);
    }
  }

  lemma AddedIsInDiff(olds: seq<Entity>, news: seq<Entity>, ne: Entity)
    requires ne in news && ne.id !in EntityIds(olds)
    ensures Op(ne.id, "", AddEntity(ne)) in DiffOps(olds, news)
  {
    hide EntitiesOps, EntityDropOps, EntityIds;
    EntitiesOpsMembers(olds, news);
    assert EntityById(olds, ne.id).None?;
    assert Op(ne.id, "", AddEntity(ne)) in EntityOps(olds, ne);
  }

  lemma MemberIsChange(olds: seq<Entity>, news: seq<Entity>, op: Operation)
    requires WellFormed(olds) && op in DiffOps(olds, news)
    ensures !Unchanged(olds, news)
  {
    hide DiffOps, EntityChanges, EntityChange, EntitySame, EntityIds, HasEntity;
    OperationOfDiff(olds, news, op);
    if ne :| ne in news && ne.id !in EntityIds(olds) {
      IdsAreEntities(olds, ne.id);
    } else if ne :| ne in news && ne.id in EntityIds(olds) && op in EntityChanges(EntityById(olds, ne.id).value, ne) {
      var oe := EntityById(olds, ne.id).value;
      EntityChangesMembers(oe, ne);
      ChangedIsNotSame(oe, ne, op.change);
    } else {
      var oe :| oe in olds && oe.id !in EntityIds(news);
      IdsAreEntities(news, oe.id);
    }
  }

  // ----- apply -----

  lemma PreparedIsDestructive(olds: seq<Entity>, news: seq<Entity>, witnesses: map<string, Witness>)
    ensures HasDestructive(Prepared(olds, news, witnesses)) <==> HasDestructive(DiffOps(olds, news))
    ensures Prepared(olds, news, witnesses) == [] <==> DiffOps(olds, news) == []
  {
    hide DiffOps, Classify;
    var diff, ops := DiffOps(olds, news), Prepared(olds, news, witnesses);
    assert |ops| == |diff| && forall i | 0 <= i < |diff| :: ops[i].change == diff[i].change;
    if op :| op in ops && Classify(op.change).Destructive? {
      var i :| 0 <= i < |ops| && ops[i] == op;
      assert diff[i] in diff;
    }
    if op :| op in diff && Classify(op.change).Destructive? {
      var i :| 0 <= i < |diff| && diff[i] == op;
      assert ops[i] in ops;
    }
  }

  /** Where an apply of a valid manifest to its app stops. */
  predicate Asks(olds: seq<Entity>, news: seq<Entity>, opts: Options, luck: Luck, outcome: Outcome) {
    if Unchanged(olds, news) then outcome == NoChange
    else if !Destroys(olds, news) then IsRun(outcome)
    else if !opts.confirm then outcome == NeedsConfirmation
    else if Unwitnessed(olds, news, opts.witnesses) then outcome == NeedsWitness
    else if !luck.snapshot.Taken? then outcome == SnapshotFailed
    else IsRun(outcome)
  }

  /** The changeset was run, to one end or another. */
  predicate IsRun(outcome: Outcome) {
    outcome == Promoted || outcome == PromoteFailed || outcome == RolledBack || outcome == RestoreFailed
  }

  /**
   * What apply asks for, read off the manifests. It runs a changeset unasked if the new manifest takes
   * nothing away, and otherwise only when confirmed, with every witness that is needed, and with a
   * snapshot taken; where nothing differs there is nothing to do.
   */
  lemma ApplyAsks(p: Platform, w: World, id: string, doc: Doc, opts: Options, luck: Luck)
    requires id in w.registry ==> WellFormed(w.registry[id].app.entities)
    ensures var outcome := Applied(p, w, id, doc, opts, luck).1;
            if id !in w.registry then outcome == UnknownApp
            else if !Accepted(doc) then outcome == InvalidManifest
            else if doc.app.id != id then outcome == WrongId
            else Asks(w.registry[id].app.entities, doc.app.entities, opts, luck, outcome)
  {
    hide RunAndPromote, Prepared, ValidEntity, HasDestructive, GateOpen, DistinctEntityNames, ToolsOk, Unchanged, Destroys, Unwitnessed, DiffOps, WellFormed;
    if id in w.registry && Accepted(doc) {
      var olds, news := w.registry[id].app.entities, doc.app.entities;
      ValidIsWellFormed(doc.app);
      PreparedIsDestructive(olds, news, opts.witnesses);
      EmptyDifference(olds, news);
      DestructiveIsDestroying(olds, news);
      GateAsksForWitnesses(olds, news, opts.witnesses);
      RunEnds(p, w, id, doc.app, OpsFor(w, id, doc.app, opts), false, luck);
      RunEnds(p, WithSnapshot(w, w.registry[id].dir, DbOf(w, id)), id, doc.app, OpsFor(w, id, doc.app, opts), true, luck);
    }
  }

  // ----- snapshots -----

  lemma SnapshotsOfRun(p: Platform, w: World, id: string, newApp: App, ops: seq<Operation>, snapped: bool, luck: Luck)
    requires id in w.registry
    ensures var dir, (after, outcome) := w.registry[id].dir, RunAndPromote(p, w, id, newApp, ops, snapped, luck);
            && (forall d | d != dir :: SnapsOf(after, d) == SnapsOf(w, d))
            && var s := SnapsOf(w, dir);
               SnapsOf(after, dir) == if outcome == Promoted && snapped && luck.prunes && |s| > 5 then s[|s| - 5..] else s
  {
    hide Executed;
  }

  /**
   * Which snapshots an apply leaves. One is added, of the database as it was, exactly when something
   * is taken away, confirmed and witnessed (torn, if taking it tears); after a promotion the newest five
   * stay, unless removing the others fails; nothing else touches a snapshot.
   */
  lemma SnapshotsOfApply(p: Platform, w: World, id: string, doc: Doc, opts: Options, luck: Luck)
    requires id in w.registry && WellFormed(w.registry[id].app.entities) && Accepted(doc) && doc.app.id == id
    ensures var dir, (after, outcome) := w.registry[id].dir, Applied(p, w, id, doc, opts, luck);
            var olds, news, before := w.registry[id].app.entities, doc.app.entities, SnapsOf(w, w.registry[id].dir);
            && (forall d | d != dir :: SnapsOf(after, d) == SnapsOf(w, d))
            && SnapsOf(after, dir) ==
                 if !Destroys(olds, news) || !opts.confirm || Unwitnessed(olds, news, opts.witnesses) || luck.snapshot.NoSnapshot? then before
                 else if luck.snapshot.TornSnapshot? then before + [luck.snapshot.left]
                 else if outcome == Promoted && luck.prunes && |before| >= 5 then before[|before| - 4..] + [DbOf(w, id)]
                 else before + [DbOf(w, id)]
  {
    hide RunAndPromote, Prepared, ValidEntity, HasDestructive, GateOpen, DistinctEntityNames, ToolsOk, Unchanged, Destroys, Unwitnessed, DiffOps, WellFormed;
    var olds, news := w.registry[id].app.entities, doc.app.entities;
    AcceptedIsValid(doc);
    ValidIsWellFormed(doc.app);
    PreparedIsDestructive(olds, news, opts.witnesses);
    DestructiveIsDestroying(olds, news);
    GateAsksForWitnesses(olds, news, opts.witnesses);
    NoOpsNoDestruction(olds, news, opts.witnesses);
    var ops, snapped := OpsFor(w, id, doc.app, opts), WithSnapshot(w, w.registry[id].dir, DbOf(w, id));
    SnapshotsOfRun(p, w, id, doc.app, ops, false, luck);
    SnapshotsOfRun(p, snapped, id, doc.app, ops, true, luck);
    var before := SnapsOf(w, w.registry[id].dir);
    assert |before| >= 5 ==> (before + [DbOf(w, id)])[|before| - 4..] == before[|before| - 4..] + [DbOf(w, id)];
  }

  lemma AcceptedIsValid(doc: Doc)
    requires Accepted(doc)
    ensures doc.Manifest? && ValidApp(doc.app)
  {
  }

  lemma NoOpsNoDestruction(olds: seq<Entity>, news: seq<Entity>, witnesses: map<string, Witness>)
    ensures Prepared(olds, news, witnesses) == [] ==> !HasDestructive(Prepared(olds, news, witnesses))
  {
  }
}

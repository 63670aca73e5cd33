/** The witness gate, and what a declared witness does to the rows of a rebuilt table. */
module Gate {
  import opened Results
  import opened Schema
  import opened Sql
  import opened Materialize
  import opened Changesets
  import opened Witnesses
  import opened Diffs
  import opened Executor
  import opened Views
  import opened NativePath
  import opened ChangesetShape
  import opened DiffMembers
  import opened Migration
  import opened FastSlow

  // ----- attached witnesses -----

  /** The operations Apply hands to Execute: the difference, labelled, with the declared witnesses. */
  function Prepared(olds: seq<Entity>, news: seq<Entity>, witnesses: map<string, Witness>): seq<Operation> {
    Attached(Classified(DiffOps(olds, news)), witnesses)
  }

  lemma PreparedIsDiff(olds: seq<Entity>, news: seq<Entity>, witnesses: map<string, Witness>)
    ensures SameChanges(Prepared(olds, news, witnesses), DiffOps(olds, news))
  {
    hide DiffOps;
  }

  /** Every operation carries the witness declared for its field, and no other. */
  predicate Uniform(ops: seq<Operation>, witnesses: map<string, Witness>) {
    forall op | op in ops ::
      op.witness_ == if op.fieldId in witnesses then Some(witnesses[op.fieldId]) else None
  }

  lemma {:induction false} FieldsOpsBare(eid: string, olds: seq<Field>, news: seq<Field>)
    ensures forall op | op in FieldsOps(eid, olds, news) + DropOps(eid, olds, news) :: op.witness_ == None
  {
    FieldsOpsMembers(eid, olds, news);
    DropOpsMembers(eid, olds, news);
  }

  lemma {:induction false} EntitiesOpsBare(olds: seq<Entity>, news: seq<Entity>)
    ensures forall op | op in EntitiesOps(olds, news) :: op.witness_ == None
  {
    hide FieldsOps, DropOps;
    if news != [] {
      var ne := news[|news| - 1];
      EntitiesOpsBare(olds, news[..|news| - 1]);
      match EntityById(olds, ne.id) {
        case None =>
        case Some(oe) =>
          FieldsOpsBare(ne.id, oe.fields, ne.fields);
          FieldsOpsMembers(ne.id, oe.fields, ne.fields);
          DropOpsMembers(ne.id, oe.fields, ne.fields);
      }
    }
  }

  lemma {:induction false} EntityDropOpsBare(olds: seq<Entity>, news: seq<Entity>)
    ensures forall op | op in EntityDropOps(olds, news) :: op.witness_ == None
  {
    if olds != [] {
      EntityDropOpsBare(olds[..|olds| - 1], news);
    }
  }

  lemma PreparedIsUniform(olds: seq<Entity>, news: seq<Entity>, witnesses: map<string, Witness>)
    ensures Uniform(Prepared(olds, news, witnesses), witnesses)
  {
    hide EntitiesOps, EntityDropOps;
    EntitiesOpsBare(olds, news);
    EntityDropOpsBare(olds, news);
    var diff, ops := DiffOps(olds, news), Prepared(olds, news, witnesses);
    forall op | op in ops
      ensures op.witness_ == if op.fieldId in witnesses then Some(witnesses[op.fieldId]) else None
    {
      var i :| 0 <= i < |ops| && ops[i] == op;
      assert diff[i] in diff;
    }
  }

  lemma {:induction false} UniformWitness(ops: seq<Operation>, witnesses: map<string, Witness>, op: Operation)
    requires Uniform(ops, witnesses) && op in ops && op.fieldId != ""
    ensures WitnessOf(ops, op.fieldId) == op.witness_
  {
    var rest, last := ops[..|ops| - 1], ops[|ops| - 1];
    assert last in ops && forall x | x in rest :: x in ops;
    if op in rest {
      UniformWitness(rest, witnesses, op);
    } else {
      assert op == last;
      if op.fieldId !in witnesses {
        NoneFound(rest, witnesses, op.fieldId);
      }
    }
  }

  lemma {:induction false} NoneFound(ops: seq<Operation>, witnesses: map<string, Witness>, id: string)
    requires Uniform(ops, witnesses) && id !in witnesses
    ensures WitnessOf(ops, id) == None
  {
    if ops != [] {
      assert ops[|ops| - 1] in ops;
      NoneFound(ops[..|ops| - 1], witnesses, id);
    }
  }

  // ----- the gate -----

  /** MissingWitnesses is empty. */
  predicate GateOpen(ops: seq<Operation>) {
    forall op | op in ops :: !LacksWitness(op)
  }

  /** Nothing that needs a witness slips past a changeset judged free of destructive operations. */
  lemma GateCoversNonDestructive(ops: seq<Operation>)
    requires !HasDestructive(ops)
    ensures GateOpen(ops)
  {
    forall op | op in ops ensures !LacksWitness(op) {
      assert !Classify(op.change).Destructive?;
    }
  }

  predicate ModesKnown(witnesses: map<string, Witness>) {
    forall id | id in witnesses && witnesses[id].kind == WitnessCoerce :: KnownMode(witnesses[id].coerce)
  }

  /** An operation of the difference on field `nf`, found among the entity's prepared operations. */
  lemma PreparedFieldOp(olds: seq<Entity>, news: seq<Entity>, ops: seq<Operation>, witnesses: map<string, Witness>,
                        oe: Entity, ne: Entity, nf: Field, change: Change)
    requires DistinctEntityIds(news) && ne in news && EntityById(olds, ne.id) == Some(oe)
    requires SameChanges(ops, DiffOps(olds, news)) && Uniform(ops, witnesses) && GateOpen(ops)
    requires nf in ne.fields && nf.id != "" && NewFieldChange(oe.fields, nf, change)
    ensures WitnessNeeded(change).Some? ==> HasKind(WitnessOf(OpsOf(ops, ne.id), nf.id), WitnessNeeded(change).value)
    ensures WitnessOf(OpsOf(ops, ne.id), nf.id).Some? ==>
              nf.id in witnesses && WitnessOf(OpsOf(ops, ne.id), nf.id).value == witnesses[nf.id]
  {
    hide DiffOps, NewFieldChange, WitnessNeeded, EntityChanges, OpsOf, WitnessOf;
    var own := OpsOf(ops, ne.id);
    OpsOfMembers(ops, ne.id);
    OwnOps(olds, news, ops, ne);
    FieldsOpsMembers(ne.id, oe.fields, ne.fields);
    var x := Op(ne.id, nf.id, change);
    assert x in FieldsOps(ne.id, oe.fields, ne.fields);
    var diff := EntityChanges(oe, ne);
    assert x in diff by {
      InChanges(oe, ne, x);
    }
    var i :| 0 <= i < |diff| && diff[i] == x;
    assert own[i] in own && own[i] in ops;
    UniformWitness(own, witnesses, own[i]);
  }

  lemma InChanges(oe: Entity, ne: Entity, op: Operation)
    requires op in FieldsOps(ne.id, oe.fields, ne.fields)
    ensures op in EntityChanges(oe, ne)
  {
    hide FieldsOps, DropOps;
  }

  lemma GateOpenFieldSelectable(olds: seq<Entity>, news: seq<Entity>, ops: seq<Operation>, witnesses: map<string, Witness>,
                                oe: Entity, ne: Entity, nf: Field)
    requires DistinctEntityIds(news) && ne in news && EntityById(olds, ne.id) == Some(oe)
    requires SameChanges(ops, DiffOps(olds, news)) && Uniform(ops, witnesses) && GateOpen(ops) && ModesKnown(witnesses)
    requires nf in ne.fields && nf.id != ""
    ensures SelectFault(FieldById(oe.fields, nf.id), nf, WitnessOf(OpsOf(ops, ne.id), nf.id)).None?
  {
    hide DiffOps, OpsOf, WitnessOf, EnumChanged, ReferenceChanged, Uniform, GateOpen;
    match FieldById(oe.fields, nf.id) {
      case None =>
        PreparedFieldOp(olds, news, ops, witnesses, oe, ne, nf, AddField(nf));
      case Some(of) =>
        if of.typ != nf.typ {
          PreparedFieldOp(olds, news, ops, witnesses, oe, ne, nf, ChangeType(of, nf));
        } else if of.required != nf.required {
          PreparedFieldOp(olds, news, ops, witnesses, oe, ne, nf, ChangeRequired(of, nf));
        }
    }
  }

  /** A change a native statement can make. */
  predicate Native(change: Change) {
    change.RenameEntity? || change.RenameField? || change.AddField? || change.DropField? || change.ChangeUnique?
  }

  lemma {:induction false} NativeOpsStayNative(p: Platform, db: Db, eid: string, ops: seq<Operation>)
    requires forall op | op in ops :: Native(op.change)
    ensures NativeOps(p, db, eid, ops) != Err(NotANativeOp)
  {
    hide ColumnDef, DefaultLiteral, NoDuplicates;
    if ops != [] {
      NativeOpsStayNative(p, db, eid, ops[..|ops| - 1]);
      assert ops[|ops| - 1] in ops;
    }
  }

  /**
   * Gate completeness. Once no operation lacks its witness and every coerce mode is known, a
   * rebuilt entity has an expression for every field, and an entity that is not rebuilt meets only
   * native operations: neither of Execute's two refusals can occur.
   */
  lemma GateIsComplete(p: Platform, db: Db, olds: seq<Entity>, news: seq<Entity>, witnesses: map<string, Witness>, oe: Entity, ne: Entity)
    requires DistinctEntityIds(news) && ne in news && EntityById(olds, ne.id) == Some(oe)
    requires forall nf | nf in ne.fields :: nf.id != ""
    requires GateOpen(Prepared(olds, news, witnesses)) && ModesKnown(witnesses)
    ensures var own := OpsOf(Prepared(olds, news, witnesses), ne.id);
            && Selectable(oe.fields, ne.fields, own)
            && (!NeedsRebuild(own) ==> NativeOps(p, db, ne.id, own) != Err(NotANativeOp))
  {
    hide DiffOps, Prepared, SelectFault, OpsOf, NativeOps, Uniform, GateOpen, WitnessOf;
    var ops := Prepared(olds, news, witnesses);
    var own := OpsOf(ops, ne.id);
    PreparedIsDiff(olds, news, witnesses);
    PreparedIsUniform(olds, news, witnesses);
    forall nf | nf in ne.fields {
      GateOpenFieldSelectable(olds, news, ops, witnesses, oe, ne, nf);
    }
    if !NeedsRebuild(own) {
      OwnChanges(olds, news, ops, oe, ne);
      forall op | op in own ensures Native(op.change) {
        SurvivorChangeKinds(oe, ne, op.change);
      }
      NativeOpsStayNative(p, db, ne.id, own);
    }
  }

  lemma SurvivorChangeKinds(oe: Entity, ne: Entity, change: Change)
    requires EntityChange(oe, ne, change)
    ensures Native(change) || RebuildOnly(change)
  {
    hide EnumChanged, ReferenceChanged;
  }

  /** A field narrowed and tightened at once needs two kinds of witness and may declare one. */
  lemma NarrowedAndTightenedNeverPasses(olds: seq<Entity>, news: seq<Entity>, witnesses: map<string, Witness>,
                                        oe: Entity, ne: Entity, of: Field, nf: Field)
    requires DistinctEntityIds(news) && ne in news && EntityById(olds, ne.id) == Some(oe)
    requires nf in ne.fields && nf.id != "" && FieldById(oe.fields, nf.id) == Some(of)
    requires of.typ != nf.typ && !IsWidening(of.typ, nf.typ) && Tightens(of, nf)
    ensures !GateOpen(Prepared(olds, news, witnesses))
  {
    hide DiffOps, Prepared, OpsOf, WitnessOf, EnumChanged, ReferenceChanged, Uniform, GateOpen;
    var ops := Prepared(olds, news, witnesses);
    PreparedIsDiff(olds, news, witnesses);
    PreparedIsUniform(olds, news, witnesses);
    if GateOpen(ops) {
      PreparedFieldOp(olds, news, ops, witnesses, oe, ne, nf, ChangeType(of, nf));
      PreparedFieldOp(olds, news, ops, witnesses, oe, ne, nf, ChangeRequired(of, nf));
    }
  }

  /** Witnesses are declared by field id alone: operations on equal field ids, of whatever entities, carry the same one. */
  lemma SharedIdSharesWitness(olds: seq<Entity>, news: seq<Entity>, witnesses: map<string, Witness>, x: Operation, y: Operation)
    requires x in Prepared(olds, news, witnesses) && y in Prepared(olds, news, witnesses) && x.fieldId == y.fieldId
    ensures x.witness_ == y.witness_
    ensures WitnessNeeded(x.change).Some? && WitnessNeeded(y.change).Some? && WitnessNeeded(x.change) != WitnessNeeded(y.change) ==>
              !GateOpen(Prepared(olds, news, witnesses))
  {
    hide Prepared, WitnessNeeded;
    PreparedIsUniform(olds, news, witnesses);
    if GateOpen(Prepared(olds, news, witnesses)) {
      assert !LacksWitness(x) && !LacksWitness(y);
    }
  }
}

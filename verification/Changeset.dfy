/** engine/migrate/changeset.go, classify.go and the gate half of witness.go. */
module Changesets {
  import opened Results
  import opened Schema

  /** The kinds of structural change, each with the shapes it changes from and to. */
  datatype Change =
    | AddEntity(entity: Entity)
    | DropEntity(entity: Entity)
    | RenameEntity(from: Entity, to: Entity)
    | AddField(after: Field)
    | DropField(before: Field)
    | RenameField(before: Field, after: Field)
    | ChangeType(before: Field, after: Field)
    | ChangeRequired(before: Field, after: Field)
    | ChangeUnique(before: Field, after: Field)
    | ChangeEnum(before: Field, after: Field)
    | ChangeReference(before: Field, after: Field)

  datatype Class = Unclassified | Safe | Destructive

  datatype WitnessKind = WitnessCoerce | WitnessBackfill | WitnessRemap | OtherKind(name: string)

  datatype CoerceMode = CoerceTruncate | CoerceRound | CoerceFail | OtherMode(name: string)

  datatype Witness = Witness(kind: WitnessKind, coerce: CoerceMode, backfill: GoValue, remap: map<string, string>)

  datatype Operation = Operation(
    entityId: string,
    fieldId: string,
    change: Change,
    class_: Class,
    witness_: Option<Witness>)

  predicate IsRename(op: Operation) {
    op.change.RenameEntity? || op.change.RenameField?
  }

  // ----- classification -----

  /** isWidening: integer to real is the only type change that grows the value domain. */
  predicate IsWidening(from: FieldType, to: FieldType) {
    from.Integer? && to.Real?
  }

  predicate RemovesValues(before: Field, after: Field) {
    exists v | v in before.values :: v !in after.values
  }

  /** enumRemovedValues. */
  method EnumRemovedValues(before: Field, after: Field) returns (removed: bool)
    ensures removed == RemovesValues(before, after)
  {
    var keep: map<string, bool> := map[];
    for i := 0 to |after.values|
      invariant forall v :: v in keep <==> v in after.values[..i]
    {
      keep := keep[after.values[i] := true];
    }
    assert after.values[..|after.values|] == after.values;
    for i := 0 to |before.values|
      invariant forall v | v in before.values[..i] :: v in after.values
    {
      if before.values[i] !in keep {
        return true;
      }
    }
    assert before.values[..|before.values|] == before.values;
    return false;
  }

  function Classify(change: Change): Class {
    match change
    case AddEntity(_) => Safe
    case RenameEntity(_, _) => Safe
    case RenameField(_, _) => Safe
    case DropEntity(_) => Destructive
    case DropField(_) => Destructive
    case ChangeReference(_, _) => Destructive
    case AddField(f) => if !f.required || f.default.Some? then Safe else Destructive
    case ChangeType(b, a) => if IsWidening(b.typ, a.typ) then Safe else Destructive
    case ChangeRequired(b, a) => if b.required && !a.required then Safe else Destructive
    case ChangeUnique(b, a) => if b.unique && !a.unique then Safe else Destructive
    case ChangeEnum(b, a) => if RemovesValues(b, a) then Destructive else Safe
  }

  function Classified(ops: seq<Operation>): seq<Operation> {
    seq(|ops|, i requires 0 <= i < |ops| => ops[i].(class_ := Classify(ops[i].change)))
  }

  predicate HasDestructive(ops: seq<Operation>) {
    exists op | op in ops :: Classify(op.change).Destructive?
  }

  function DestructiveIn(ops: seq<Operation>): seq<Operation> {
    if ops == [] then []
    else
      var rest, op := DestructiveIn(ops[..|ops| - 1]), ops[|ops| - 1];
      if Classify(op.change).Destructive? then rest + [op.(class_ := Destructive)] else rest
  }

  /** The list holds a destructive operation if and only if there is one. */
  lemma {:induction false} DestructiveInIsExact(ops: seq<Operation>)
    ensures forall op | op in ops && Classify(op.change).Destructive? :: op.(class_ := Destructive) in DestructiveIn(ops)
    ensures forall op | op in DestructiveIn(ops) :: Classify(op.change).Destructive?
    ensures DestructiveIn(ops) == [] <==> !HasDestructive(ops)
  {
    hide Classify;
    if ops != [] {
      DestructiveInIsExact(ops[..|ops| - 1]);
      assert ops == ops[..|ops| - 1] + [ops[|ops| - 1]];
    }
  }

  // ----- witnesses -----

  /** witnessNeeded: the kind of witness an operation must carry, if any. */
  function WitnessNeeded(change: Change): Option<WitnessKind> {
    match change
    case ChangeType(b, a) => if IsWidening(b.typ, a.typ) then None else Some(WitnessCoerce)
    case ChangeRequired(b, a) => if !b.required && a.required then Some(WitnessBackfill) else None
    case AddField(f) => if f.required && f.default.None? then Some(WitnessBackfill) else None
    case _ => None
  }

  predicate LacksWitness(op: Operation) {
    var need := WitnessNeeded(op.change);
    need.Some? && (op.witness_.None? || op.witness_.value.kind != need.value)
  }

  /** The witnesses declared for the run, attached to the operations on their field. */
  function Attached(ops: seq<Operation>, witnesses: map<string, Witness>): seq<Operation> {
    seq(|ops|, i requires 0 <= i < |ops| =>
      if ops[i].fieldId in witnesses then ops[i].(witness_ := Some(witnesses[ops[i].fieldId])) else ops[i])
  }

  /** Every operation that needs a witness is destructive, so the confirmation gate covers it. */
  lemma WitnessedIsDestructive(change: Change)
    requires WitnessNeeded(change).Some?
    ensures Classify(change) == Destructive
  {
  }

  /** A changeset: the operations, and what the apply flow does to them in place. */
  class Changeset {
    var ops: seq<Operation>

    constructor (ops: seq<Operation>)
      ensures this.ops == ops
    {
      this.ops := ops;
    }

    /** Labels every operation, whatever label it carried. */
    method ClassifyAll()
      modifies this
      ensures ops == Classified(old(ops))
    {
      var i := 0;
      while i < |ops|
        invariant i <= |ops| == |old(ops)|
        invariant forall k | 0 <= k < i :: ops[k] == old(ops)[k].(class_ := Classify(old(ops)[k].change))
        invariant forall k | i <= k < |ops| :: ops[k] == old(ops)[k]
      {
        ops := ops[i := ops[i].(class_ := Classify(ops[i].change))];
        i := i + 1;
      }
    }

    method Attach(witnesses: map<string, Witness>)
      modifies this
      ensures ops == Attached(old(ops), witnesses)
    {
      var i := 0;
      while i < |ops|
        invariant i <= |ops| == |old(ops)|
        invariant forall k | 0 <= k < i :: ops[k] == Attached(old(ops), witnesses)[k]
        invariant forall k | i <= k < |ops| :: ops[k] == old(ops)[k]
      {
        if ops[i].fieldId in witnesses {
          ops := ops[i := ops[i].(witness_ := Some(witnesses[ops[i].fieldId]))];
        }
        i := i + 1;
      }
    }

    /** Exactly the destructive operations, classified, in order; none exactly when none is destructive. */
    method DestructiveOps() returns (out: seq<Operation>)
      ensures out == DestructiveIn(ops)
      ensures out == [] <==> !HasDestructive(ops)
    {
      out := [];
      for i := 0 to |ops|
        invariant out == DestructiveIn(ops[..i])
      {
        assert ops[..i + 1][..i] == ops[..i];
        var op := ops[i].(class_ := Classify(ops[i].change));
        if op.class_.Destructive? {
          out := out + [op];
        }
      }
      assert ops[..|ops|] == ops;
      DestructiveInIsExact(ops);
    }

    /** The operations lacking the witness they need. */
    method MissingWitnesses() returns (out: seq<Operation>)
      ensures forall op :: op in out <==> op in ops && LacksWitness(op)
    {
      out := [];
      for i := 0 to |ops|
        invariant forall op :: op in out <==> op in ops[..i] && LacksWitness(op)
      {
        assert ops[..i + 1] == ops[..i] + [ops[i]];
        if LacksWitness(ops[i]) {
          out := out + [ops[i]];
        }
      }
      assert ops[..|ops|] == ops;
    }
  }
}

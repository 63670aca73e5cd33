/** How the operations of a difference fall to the entities: applyChangeset's byEntity, added, dropped. */
module ChangesetShape {
  import opened Results
  import opened Schema
  import opened Changesets
  import opened Diffs
  import opened Executor
  import opened NativePath

  lemma {:induction false} OpsOfAppend(a: seq<Operation>, b: seq<Operation>, eid: string)
    ensures OpsOf(a + b, eid) == OpsOf(a, eid) + OpsOf(b, eid)
  {
    if b == [] {
      assert a + b == a;
    } else {
      assert (a + b)[..|a + b| - 1] == a + b[..|b| - 1];
      OpsOfAppend(a, b[..|b| - 1], eid);
    }
  }

  predicate AllOn(ops: seq<Operation>, eid: string) {
    forall op | op in ops :: op.entityId == eid
  }

  lemma {:induction false} OpsOfBlock(ops: seq<Operation>, eid: string, id: string)
    requires AllOn(ops, eid)
    ensures OpsOf(ops, id) == if id == eid then ops else []
  {
    if ops != [] {
      OpsOfBlock(ops[..|ops| - 1], eid, id);
      assert ops[|ops| - 1] in ops;
    }
  }

  lemma {:induction false} OpsOfMembers(ops: seq<Operation>, eid: string)
    ensures forall op :: op in OpsOf(ops, eid) <==> op in ops && op.entityId == eid
  {
    if ops != [] {
      OpsOfMembers(ops[..|ops| - 1], eid);
      assert forall op :: op in ops <==> op in ops[..|ops| - 1] || op == ops[|ops| - 1];
    }
  }

  /** A change to a surviving entity: it neither adds nor drops an entity. */
  predicate Within(ops: seq<Operation>, eid: string) {
    forall op | op in ops :: op.entityId == eid && !op.change.AddEntity? && !op.change.DropEntity?
  }

  lemma AddingWithin(ops: seq<Operation>, b: bool, op: Operation, eid: string)
    requires Within(ops, eid) && op.entityId == eid && !op.change.AddEntity? && !op.change.DropEntity?
    ensures Within(Adding(ops, b, op), eid)
  {
  }

  lemma FieldChangesWithin(eid: string, of: Field, nf: Field)
    ensures Within(FieldChanges(eid, of, nf), eid)
  {
    hide EnumChanged, ReferenceChanged, Adding, Within;
    var named := Adding([], of.name != nf.name, Op(eid, nf.id, RenameField(of, nf)));
    var typed := Adding(named, of.typ != nf.typ, Op(eid, nf.id, ChangeType(of, nf)));
    var required := Adding(typed, of.required != nf.required, Op(eid, nf.id, ChangeRequired(of, nf)));
    var unique := Adding(required, of.unique != nf.unique, Op(eid, nf.id, ChangeUnique(of, nf)));
    var enumerated := Adding(unique, EnumChanged(of, nf), Op(eid, nf.id, ChangeEnum(of, nf)));
    NothingWithin(eid);
    AddingWithin([], of.name != nf.name, Op(eid, nf.id, RenameField(of, nf)), eid);
    AddingWithin(named, of.typ != nf.typ, Op(eid, nf.id, ChangeType(of, nf)), eid);
    AddingWithin(typed, of.required != nf.required, Op(eid, nf.id, ChangeRequired(of, nf)), eid);
    AddingWithin(required, of.unique != nf.unique, Op(eid, nf.id, ChangeUnique(of, nf)), eid);
    AddingWithin(unique, EnumChanged(of, nf), Op(eid, nf.id, ChangeEnum(of, nf)), eid);
    AddingWithin(enumerated, ReferenceChanged(of, nf), Op(eid, nf.id, ChangeReference(of, nf)), eid);
  }

  lemma NothingWithin(eid: string)
    ensures Within([], eid)
  {
  }

  lemma FieldOpsWithin(eid: string, olds: seq<Field>, nf: Field)
    ensures Within(FieldOps(eid, olds, nf), eid)
  {
    hide FieldChanges;
    if FieldById(olds, nf.id).Some? {
      FieldChangesWithin(eid, FieldById(olds, nf.id).value, nf);
    }
  }

  lemma {:induction false} FieldsOpsWithin(eid: string, olds: seq<Field>, news: seq<Field>)
    ensures Within(FieldsOps(eid, olds, news), eid)
  {
    hide FieldOps;
    if news != [] {
      FieldsOpsWithin(eid, olds, news[..|news| - 1]);
      FieldOpsWithin(eid, olds, news[|news| - 1]);
    }
  }

  lemma EntityChangesWithin(oe: Entity, ne: Entity)
    ensures Within(EntityChanges(oe, ne), ne.id)
  {
    FieldsOpsWithin(ne.id, oe.fields, ne.fields);
    DropOpsAreDrops(ne.id, oe.fields, ne.fields);
  }

  lemma LastEntityById(entities: seq<Entity>, id: string)
    requires DistinctEntityIds(entities) && entities != []
    ensures var rest, e := entities[..|entities| - 1], entities[|entities| - 1];
            && (EntityById(entities, id) == if id == e.id then Some(e) else EntityById(rest, id))
            && EntityById(rest, e.id).None?
  {
    var rest, e := entities[..|entities| - 1], entities[|entities| - 1];
    if EntityById(entities, id).Some? {
      var g := EntityById(entities, id).value;
      if g == e {
        EntityByIdFinds(entities, e);
      } else {
        assert g in rest;
        EntityByIdFinds(rest, g);
      }
    }
    if EntityById(rest, id).Some? {
      EntityByIdFinds(entities, EntityById(rest, id).value);
    }
    EntityByIdFinds(entities, e);
  }

  lemma EntityOpsBlock(olds: seq<Entity>, ne: Entity, id: string)
    ensures OpsOf(EntityOps(olds, ne), id) == if id == ne.id then EntityOps(olds, ne) else []
  {
    hide EntityChanges;
    match EntityById(olds, ne.id) {
      case None =>
      case Some(oe) => EntityChangesWithin(oe, ne);
    }
    OpsOfBlock(EntityOps(olds, ne), ne.id, id);
  }

  lemma {:induction false} OpsOfEntities(olds: seq<Entity>, news: seq<Entity>, id: string)
    requires DistinctEntityIds(news)
    ensures OpsOf(EntitiesOps(olds, news), id) ==
            match EntityById(news, id)
            case None => []
            case Some(ne) => EntityOps(olds, ne)
  {
    hide EntityOps, EntityById;
    if news == [] {
      assert EntityById(news, id).None?;
    } else {
      var rest, ne := news[..|news| - 1], news[|news| - 1];
      OpsOfEntities(olds, rest, id);
      OpsOfAppend(EntitiesOps(olds, rest), EntityOps(olds, ne), id);
      EntityOpsBlock(olds, ne, id);
      LastEntityById(news, id);
    }
  }

  lemma {:induction false} EntityDropOpsMembers(olds: seq<Entity>, news: seq<Entity>)
    ensures forall op | op in EntityDropOps(olds, news) ::
              op.change.DropEntity? && op.entityId in EntityIds(olds) && op.entityId !in EntityIds(news)
    ensures forall e | e in olds && e.id !in EntityIds(news) :: Op(e.id, "", DropEntity(e)) in EntityDropOps(olds, news)
  {
    if olds != [] {
      EntityDropOpsMembers(olds[..|olds| - 1], news);
      assert forall e | e in olds :: e in olds[..|olds| - 1] || e == olds[|olds| - 1];
    }
  }

  lemma FirstIsMember(ops: seq<Operation>)
    ensures ops == [] || ops[0] in ops
  {
  }

  lemma OpsOfDrops(olds: seq<Entity>, news: seq<Entity>, id: string)
    requires id in EntityIds(news)
    ensures OpsOf(EntityDropOps(olds, news), id) == []
  {
    EntityDropOpsMembers(olds, news);
    OpsOfMembers(EntityDropOps(olds, news), id);
    FirstIsMember(OpsOf(EntityDropOps(olds, news), id));
  }

  /** The operations on an entity of the new manifest are its own difference. */
  lemma OpsOfDiff(olds: seq<Entity>, news: seq<Entity>, ne: Entity)
    requires DistinctEntityIds(news) && ne in news
    ensures OpsOf(DiffOps(olds, news), ne.id) == EntityOps(olds, ne)
  {
    hide EntityOps, EntityDropOps, EntitiesOps;
    OpsOfAppend(EntitiesOps(olds, news), EntityDropOps(olds, news), ne.id);
    OpsOfEntities(olds, news, ne.id);
    EntityByIdFinds(news, ne);
    OpsOfDrops(olds, news, ne.id);
  }

  lemma {:induction false} OpsOfSameChanges(a: seq<Operation>, b: seq<Operation>, eid: string)
    requires SameChanges(a, b)
    ensures SameChanges(OpsOf(a, eid), OpsOf(b, eid))
  {
    if a != [] {
      OpsOfSameChanges(a[..|a| - 1], b[..|b| - 1], eid);
    }
  }

  /** byEntity, for a changeset over the difference of two manifests. */
  lemma OwnOps(olds: seq<Entity>, news: seq<Entity>, ops: seq<Operation>, ne: Entity)
    requires DistinctEntityIds(news) && ne in news && SameChanges(ops, DiffOps(olds, news))
    ensures SameChanges(OpsOf(ops, ne.id), EntityOps(olds, ne))
  {
    hide EntityOps, DiffOps;
    OpsOfSameChanges(ops, DiffOps(olds, news), ne.id);
    OpsOfDiff(olds, news, ne);
  }

  lemma AddsInOps(ops: seq<Operation>, eid: string)
    ensures Adds(ops, eid) <==> exists op | op in OpsOf(ops, eid) :: op.change.AddEntity?
    ensures Drops(ops, eid) <==> exists op | op in OpsOf(ops, eid) :: op.change.DropEntity?
  {
    OpsOfMembers(ops, eid);
  }

  lemma KindsOfSameChanges(a: seq<Operation>, b: seq<Operation>)
    requires SameChanges(a, b)
    ensures (exists op | op in a :: op.change.AddEntity?) <==> (exists op | op in b :: op.change.AddEntity?)
    ensures (exists op | op in a :: op.change.DropEntity?) <==> (exists op | op in b :: op.change.DropEntity?)
  {
    forall op | op in a ensures exists other | other in b :: other.change == op.change {
      var i :| 0 <= i < |a| && a[i] == op;
      assert b[i].change == op.change;
    }
    forall op | op in b ensures exists other | other in a :: other.change == op.change {
      var i :| 0 <= i < |b| && b[i] == op;
      assert a[i].change == op.change;
    }
  }

  /** An entity of the new manifest is added exactly when the old one lacks it. */
  lemma AddedEntities(olds: seq<Entity>, news: seq<Entity>, ops: seq<Operation>, ne: Entity)
    requires DistinctEntityIds(news) && ne in news && SameChanges(ops, DiffOps(olds, news))
    ensures Adds(ops, ne.id) <==> ne.id !in EntityIds(olds)
  {
    hide EntityChanges, DiffOps;
    OwnOps(olds, news, ops, ne);
    AddsInOps(ops, ne.id);
    KindsOfSameChanges(OpsOf(ops, ne.id), EntityOps(olds, ne));
    match EntityById(olds, ne.id) {
      case None =>
        assert EntityOps(olds, ne)[0].change.AddEntity?;
      case Some(oe) => EntityChangesWithin(oe, ne);
    }
  }

  lemma {:induction false} EntitiesOpsNeverDrop(olds: seq<Entity>, news: seq<Entity>)
    ensures forall op | op in EntitiesOps(olds, news) :: !op.change.DropEntity?
  {
    hide EntityChanges;
    if news != [] {
      var ne := news[|news| - 1];
      EntitiesOpsNeverDrop(olds, news[..|news| - 1]);
      match EntityById(olds, ne.id) {
        case None =>
        case Some(oe) => EntityChangesWithin(oe, ne);
      }
    }
  }

  /** An entity of the old manifest is dropped exactly when the new one lacks it. */
  lemma DroppedEntity(olds: seq<Entity>, news: seq<Entity>, ops: seq<Operation>, oe: Entity)
    requires oe in olds && SameChanges(ops, DiffOps(olds, news))
    ensures Drops(ops, oe.id) <==> oe.id !in EntityIds(news)
  {
    EntitiesOpsNeverDrop(olds, news);
    EntityDropOpsMembers(olds, news);
    var diff := DiffOps(olds, news);
    if Drops(ops, oe.id) {
      var op :| op in ops && op.entityId == oe.id && op.change.DropEntity?;
      var i :| 0 <= i < |ops| && ops[i] == op;
      assert diff[i] in diff && diff[i].change.DropEntity? && diff[i].entityId == oe.id;
    }
    if oe.id !in EntityIds(news) {
      var drop := Op(oe.id, "", DropEntity(oe));
      assert drop in EntityDropOps(olds, news) && drop in diff;
      var i :| 0 <= i < |diff| && diff[i] == drop;
      assert ops[i] in ops && ops[i].change.DropEntity? && ops[i].entityId == oe.id;
    }
  }
}

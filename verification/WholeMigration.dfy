/** The three phases of applyChangeset, and the database a successful migration leaves. */
module WholeMigration {
  import opened Results
  import opened Schema
  import opened Sql
  import opened Materialize
  import opened Changesets
  import opened Diffs
  import opened Executor
  import opened Views
  import opened NativePath
  import opened ChangesetShape
  import opened Migration

  /** The database carries the columns and indexes of the manifest (their CHECKs may be older). */
  predicate CarriesAll(db: Db, entities: seq<Entity>) {
    && db.tables.Keys == EntityIds(entities)
    && forall e | e in entities :: Carries(db.tables[e.id], e.id, e.fields)
  }

  ghost predicate NamesFit(db: Db, olds: seq<Entity>, news: seq<Entity>, pairs: set<(string, string)>) {
    && Named(db, pairs) && NamesDistinct(pairs)
    && UniquePairs(olds) <= pairs && UniquePairs(news) <= pairs
  }

  lemma PairsOfMember(entities: seq<Entity>, e: Entity, pairs: set<(string, string)>)
    requires e in entities && UniquePairs(entities) <= pairs
    ensures UniquePairs([e]) <= pairs
  {
    forall x | x in UniquePairs([e]) ensures x in UniquePairs(entities) {
      var g, f :| g in [e] && f in g.fields && f.unique && x == (g.id, f.id);
    }
  }

  lemma EntityIdsOfLast(entities: seq<Entity>)
    requires entities != []
    ensures EntityIds(entities) == EntityIds(entities[..|entities| - 1]) + {entities[|entities| - 1].id}
  {
    assert entities == entities[..|entities| - 1] + [entities[|entities| - 1]];
  }

  lemma LastIsNew(entities: seq<Entity>)
    requires DistinctEntityIds(entities) && entities != []
    ensures entities[|entities| - 1].id !in EntityIds(entities[..|entities| - 1])
    ensures DistinctEntityIds(entities[..|entities| - 1])
  {
  }

  // ----- phase 1: create added entities -----

  ghost predicate Created(db: Db, mid: Db, olds: seq<Entity>, done: seq<Entity>) {
    && mid.fingerprint == db.fingerprint
    && mid.tables.Keys == db.tables.Keys + EntityIds(done)
    && (forall t | t in db.tables :: mid.tables[t] == db.tables[t])
    && (forall e | e in done && e.id !in db.tables :: mid.tables[e.id] == FreshTable(e))
  }

  lemma {:induction false} CreatePhase(p: Platform, db: Db, olds: seq<Entity>, news: seq<Entity>, done: seq<Entity>, ops: seq<Operation>, pairs: set<(string, string)>)
    requires db.tables.Keys == EntityIds(olds) && DistinctEntityIds(news) && DistinctEntityIds(done)
    requires NamesFit(db, olds, news, pairs) && SameChanges(ops, DiffOps(olds, news))
    requires forall e | e in done :: e in news
    requires CreateAdded(p, db, done, ops).Ok?
    ensures var mid := CreateAdded(p, db, done, ops).value;
            Created(db, mid, olds, done) && NamesFit(mid, olds, news, pairs)
  {
    hide DiffOps, FreshTable, Adds, CreateEntity, Named, NamesDistinct, UniquePairs, EntityIds;
    if done == [] {
      NoEntityIds();
      assert db.tables.Keys + {} == db.tables.Keys;
    } else {
      var rest, e := done[..|done| - 1], done[|done| - 1];
      CreatePhase(p, db, olds, news, rest, ops, pairs);
      var mid := CreateAdded(p, db, rest, ops).value;
      EntityIdsOfLast(done);
      LastIsNew(done);
      AddedEntities(olds, news, ops, e);
      if Adds(ops, e.id) {
        PairsOfMember(news, e, pairs);
        CreateEntityOutcome(p, mid, e, pairs);
      }
    }
  }

  lemma NoEntityIds()
    ensures EntityIds([]) == {}
  {
  }

  // ----- phase 2: change surviving entities -----

  ghost predicate Changed(p: Platform, db: Db, mid: Db, olds: seq<Entity>, done: seq<Entity>, ops: seq<Operation>) {
    && mid.fingerprint == db.fingerprint
    && mid.tables.Keys == db.tables.Keys
    && (forall t | t in db.tables && (t !in EntityIds(done) || t !in EntityIds(olds)) :: mid.tables[t] == db.tables[t])
    && (forall ne | ne in done && ne.id in EntityIds(olds) :: ne.id in db.tables && Survived(p, db, mid, olds, ne, ops))
  }

  ghost predicate Survived(p: Platform, db: Db, after: Db, olds: seq<Entity>, ne: Entity, ops: seq<Operation>)
    requires ne.id in EntityIds(olds) && ne.id in db.tables && ne.id in after.tables
  {
    Migrated(p, db.tables[ne.id], after.tables[ne.id], EntityById(olds, ne.id).value, ne, OpsOf(ops, ne.id))
  }

  lemma ChangeStep(p: Platform, mid: Db, olds: seq<Entity>, news: seq<Entity>, ne: Entity, ops: seq<Operation>, pairs: set<(string, string)>)
    requires WellFormed(olds) && WellFormed(news) && ne in news && ne.id in mid.tables
    requires NamesFit(mid, olds, news, pairs) && SameChanges(ops, DiffOps(olds, news))
    requires ne.id in EntityIds(olds) ==> Carries(mid.tables[ne.id], ne.id, EntityById(olds, ne.id).value.fields)
    requires ChangeEntity(p, mid, olds, ne, ops).Ok?
    ensures var after := ChangeEntity(p, mid, olds, ne, ops).value;
            && NamesFit(after, olds, news, pairs)
            && after.fingerprint == mid.fingerprint && after.tables.Keys == mid.tables.Keys
            && (forall t | t in mid.tables && t != ne.id :: after.tables[t] == mid.tables[t])
            && (if ne.id in EntityIds(olds) then Survived(p, mid, after, olds, ne, ops)
                else after == mid)
  {
    hide DiffOps, EntityChanges, Adds, Migrated, Carries, Named, NamesDistinct, UniquePairs, OpsOf, EntityIds, EntityById;
    AddedEntities(olds, news, ops, ne);
    if ne.id in EntityIds(olds) {
      var oe := EntityById(olds, ne.id).value;
      OwnOps(olds, news, ops, ne);
      PairsOfMember(olds, oe, pairs);
      PairsOfMember(news, ne, pairs);
      CarriesShaped(mid.tables[ne.id], ne.id, oe.fields);
      ChangeEntityOutcome(p, mid, olds, oe, ne, ops, pairs);
    }
  }

  lemma CarriesShaped(t: Table, eid: string, fields: seq<Field>)
    requires Carries(t, eid, fields)
    ensures Shaped(t)
  {
  }

  lemma {:induction false} ChangePhase(p: Platform, db: Db, olds: seq<Entity>, news: seq<Entity>, done: seq<Entity>, ops: seq<Operation>, pairs: set<(string, string)>)
    requires WellFormed(olds) && WellFormed(news) && DistinctEntityIds(done)
    requires forall e | e in done :: e in news && e.id in db.tables
    requires forall e | e in olds :: e.id in db.tables && Carries(db.tables[e.id], e.id, e.fields)
    requires NamesFit(db, olds, news, pairs) && SameChanges(ops, DiffOps(olds, news))
    requires ChangeEntities(p, db, olds, done, ops).Ok?
    ensures var mid := ChangeEntities(p, db, olds, done, ops).value;
            Changed(p, db, mid, olds, done, ops) && NamesFit(mid, olds, news, pairs)
  {
    hide DiffOps, Migrated, ChangeEntity, Carries, NamesFit, EntityIds, EntityById, OpsOf, WellFormed;
    if done == [] {
    } else {
      var rest, ne := done[..|done| - 1], done[|done| - 1];
      ChangePhase(p, db, olds, news, rest, ops, pairs);
      var mid := ChangeEntities(p, db, olds, rest, ops).value;
      EntityIdsOfLast(done);
      LastIsNew(done);
      assert mid.tables[ne.id] == db.tables[ne.id];
      ChangeStep(p, mid, olds, news, ne, ops, pairs);
      assert forall e | e in done :: e in rest || e == ne;
      IdsOfMembers(rest);
    }
  }

  lemma IdsOfMembers(entities: seq<Entity>)
    ensures forall e | e in entities :: e.id in EntityIds(entities)
  {
  }

  // ----- phase 3: drop removed entities -----

  ghost predicate Dropped(db: Db, after: Db, done: seq<Entity>, news: seq<Entity>) {
    && after.fingerprint == db.fingerprint
    && after.tables.Keys == db.tables.Keys - (EntityIds(done) - EntityIds(news))
    && (forall t | t in after.tables :: after.tables[t] == db.tables[t])
  }

  lemma {:induction false} DropPhase(p: Platform, db: Db, olds: seq<Entity>, news: seq<Entity>, done: seq<Entity>, ops: seq<Operation>)
    requires SameChanges(ops, DiffOps(olds, news)) && forall e | e in done :: e in olds
    requires DropRemoved(p, db, done, ops).Ok?
    ensures Dropped(db, DropRemoved(p, db, done, ops).value, done, news)
  {
    hide DiffOps, Drops, EntityIds;
    if done == [] {
      NoEntityIds();
    } else {
      var rest, e := done[..|done| - 1], done[|done| - 1];
      DropPhase(p, db, olds, news, rest, ops);
      EntityIdsOfLast(done);
      DroppedEntity(olds, news, ops, e);
    }
  }

  // ----- the whole -----

  /** Every table of the new manifest is fresh or migrated, and there are no other tables. */
  ghost predicate Reached(p: Platform, db: Db, after: Db, olds: seq<Entity>, news: seq<Entity>, ops: seq<Operation>) {
    && after.tables.Keys == EntityIds(news)
    && (forall ne | ne in news :: ne.id in after.tables &&
          (if ne.id in EntityIds(olds) then ne.id in db.tables && Survived(p, db, after, olds, ne, ops)
           else after.tables[ne.id] == FreshTable(ne)))
  }

  /** applyChangeset on the difference of two manifests, whatever witnesses are attached. */
  lemma ApplyOutcome(p: Platform, db: Db, olds: seq<Entity>, news: seq<Entity>, ops: seq<Operation>, pairs: set<(string, string)>)
    requires WellFormed(olds) && WellFormed(news) && CarriesAll(db, olds)
    requires NamesFit(db, olds, news, pairs) && SameChanges(ops, DiffOps(olds, news))
    requires ApplyOps(p, db, olds, news, ops).Ok?
    ensures var after := ApplyOps(p, db, olds, news, ops).value;
            Reached(p, db, after, olds, news, ops) && after.fingerprint == db.fingerprint
  {
    hide DiffOps, Carries, NamesFit, FreshTable, Migrated, OpsOf, EntityIds, EntityById, CreateAdded, ChangeEntities, DropRemoved;
    CreatePhase(p, db, olds, news, news, ops, pairs);
    var created := CreateAdded(p, db, news, ops).value;
    IdsOfMembers(news);
    IdsOfMembers(olds);
    ChangePhase(p, created, olds, news, news, ops, pairs);
    var changed := ChangeEntities(p, created, olds, news, ops).value;
    DropPhase(p, changed, olds, news, olds, ops);
  }
}

/** Small hosts to run examples on: one app, booted from an empty disk, and one apply to it. */
module Scenarios {
  import opened Results
  import opened Schema
  import opened Validation
  import opened Sql
  import opened Materialize
  import opened MaterializeFresh
  import opened Changesets
  import opened Witnesses
  import opened Diffs
  import opened Executor
  import opened Naming
  import opened Views
  import opened NativePath
  import opened ChangesetShape
  import opened DiffMembers
  import opened Reach
  import opened Gate
  import opened Hosts
  import opened Fingerprints
  import opened Runs
  import opened WholeRuns
  import opened Restarts

  // ----- manifests -----

  function Optional(id: string, typ: FieldType): Field {
    Field(id, id, typ, false, false, None, None, None, [], "", SetNull)
  }

  function Holding(id: string, fields: seq<Field>): Entity {
    Entity(id, id, [Create, Read, Update, Delete], fields)
  }

  function Serving(entities: seq<Entity>): App {
    App("app", "app", 1, entities, [])
  }

  lemma OptionalIsValid(entities: seq<Entity>, id: string, typ: FieldType)
    requires IsIdentifier(id) && !typ.Enum? && !typ.Reference?
    ensures ValidField(entities, Optional(id, typ))
    ensures typ.Text? ==> ValidField(entities, Optional(id, typ).(unique := true))
  {
    hide IsIdentifier;
  }

  lemma HoldingIsParsed(id: string, fields: seq<Field>)
    requires IsIdentifier(id) && fields != []
    ensures ParsedEntity(Holding(id, fields))
  {
    hide IsIdentifier;
  }

  lemma OneFieldIsValid(entities: seq<Entity>, e: Entity, f: Field)
    requires IsIdentifier(e.id) && e == Holding(e.id, [f]) && ValidField(entities, f) && !IsReserved(f.id) && !IsReserved(f.name)
    ensures ValidEntity(entities, e)
  {
    hide IsIdentifier, ValidField, IsReserved, ParsedEntity;
    HoldingIsParsed(e.id, [f]);
  }

  lemma TwoFieldsAreValid(entities: seq<Entity>, e: Entity, f: Field, g: Field)
    requires IsIdentifier(e.id) && e == Holding(e.id, [f, g]) && f.id != g.id && f.name != g.name
    requires ValidField(entities, f) && !IsReserved(f.id) && !IsReserved(f.name)
    requires ValidField(entities, g) && !IsReserved(g.id) && !IsReserved(g.name)
    ensures ValidEntity(entities, e)
  {
    hide IsIdentifier, ValidField, IsReserved, ParsedEntity;
    HoldingIsParsed(e.id, [f, g]);
  }

  lemma OneEntityIsAccepted(e: Entity)
    requires ValidEntity([e], e)
    ensures Accepted(Manifest(Serving([e])))
  {
    hide ValidEntity;
  }

  lemma TwoEntitiesAreAccepted(e: Entity, u: Entity)
    requires ValidEntity([e, u], e) && ValidEntity([e, u], u) && e.id != u.id && e.name != u.name
    ensures Accepted(Manifest(Serving([e, u])))
  {
    hide ValidEntity;
  }

  lemma IndexNamesOfOne(eid: string, x: string, y: string)
    ensures IndexName(eid, x) != eid
    ensures IndexName(eid, x) == IndexName(eid, y) ==> x == y
  {
    assert |IndexName(eid, x)| == |eid| + 4 + |x|;
    var prefix := "ux_" + eid + "_";
    assert IndexName(eid, x) == prefix + x && IndexName(eid, y) == prefix + y;
    assert IndexName(eid, x)[|prefix|..] == x && IndexName(eid, y)[|prefix|..] == y;
  }

  /** The field's id means nothing else in SQL. */
  predicate PlainField(p: Platform, f: Field) {
    f.id !in p.words && Readable(p, f.id) && (f.typ.Reference? ==> f.target !in p.words)
  }

  /** With one entity, index names cannot clash; only words can stop its first boot. */
  lemma OneEntityBoots(p: Platform, e: Entity)
    requires ValidEntity([e], e) && UsableTable(p, e.id)
    requires forall f | f in e.fields :: PlainField(p, f)
    ensures BootsClean(p, Serving([e]))
  {
    hide ValidEntity, UsableTable, UsableColumns, IndexName, ToolsOk, Bootable, Columns;
    OneEntityIsAccepted(e);
    SpellableColumns(p, e);
    forall x | x in UniquePairs([e]) ensures x.0 == e.id && Readable(p, x.1) {
    }
    forall x, y | x in UniquePairs([e]) && y in UniquePairs([e]) && IndexName(x.0, x.1) == IndexName(y.0, y.1) ensures x == y {
      IndexNamesOfOne(e.id, x.1, y.1);
    }
    forall x | x in UniquePairs([e]) ensures IndexName(x.0, x.1) !in EntityIds([e]) {
      IndexNamesOfOne(e.id, x.1, x.1);
    }
    ReadableIsBootable(p, Serving([e]));
  }

  lemma SpellableColumns(p: Platform, e: Entity)
    requires forall f | f in e.fields :: PlainField(p, f)
    ensures UsableColumns(p, Columns(e.fields))
  {
    hide ColumnDef;
    forall f | f in e.fields {
      TargetOf(f);
    }
  }

  lemma TargetOf(f: Field)
    ensures ColumnDef(f).fk.Some? ==> f.typ.Reference? && ColumnDef(f).fk.value.target == f.target
  {
  }

  // ----- a host that has booted one app -----

  function Disk(app: App): World {
    World(map["d" := Manifest(app)], map[], map[], map[])
  }

  function Booted(p: Platform, app: App): World {
    BootDirs(p, Disk(app), ["d"])
  }

  /** The app can be booted from scratch, and every unique field gets its index. */
  predicate BootsClean(p: Platform, app: App) {
    Accepted(Manifest(app)) && Bootable(p, app) && NamesDistinct(UniquePairs(app.entities))
  }

  lemma FirstBoot(p: Platform, app: App, exact: bool)
    requires BootsClean(p, app)
    ensures var w := Booted(p, app);
            && Kept(p, w, app.id, exact) && w.manifests == map["d" := Manifest(app)]
            && w.registry == map[app.id := Registered(app, "d")]
            && w.dbs == map[app.id := DbBooted(p, EMPTY_DB, app).0]
            && DbBooted(p, EMPTY_DB, app).1 == None
  {
    hide DbBooted, ValidApp, DistinctEntityNames, ToolsOk, Bootable, NamesDistinct, UniquePairs, Kept;
    var w := Disk(app);
    assert ["d"][..0] == [];
    UntouchedIsKept(p, w, app.id, exact) by { NotYetBooted(p, app); }
    BootKeeps(p, w, ["d"], app.id, exact);
    BootMakesDb(p, app, exact);
    BootDirOutcome(p, w, "d");
    assert BootDirs(p, w, []) == w;
  }

  lemma NotYetBooted(p: Platform, app: App)
    requires BootsClean(p, app)
    ensures Untouched(Disk(app), app.id)
  {
    hide ValidApp, DistinctEntityNames, ToolsOk, Bootable, NamesDistinct, UniquePairs;
  }

  /** The database a first boot leaves: the manifest's, without rows. */
  lemma FirstDatabase(p: Platform, app: App)
    requires BootsClean(p, app)
    ensures var db := DbBooted(p, EMPTY_DB, app).0;
            && CatalogueIs(db, app) && InStep(p, db, app, true) && JustCreated(db) && DbOk(p, db)
  {
    hide ValidApp, DistinctEntityNames, ToolsOk, Bootable, NamesDistinct, UniquePairs, DdlApplied, RunAll, ColumnsVerified, Lawful, CatalogueIs;
    BootMakesDb(p, app, true);
    MaterializeFreshReachesCatalogue(p, app);
    DdlRunsThrough(p, Ddl(app), EMPTY_DB);
    EmptyTablesOk(p, DbBooted(p, EMPTY_DB, app).0, app);
  }

  lemma EmptyTablesOk(p: Platform, db: Db, app: App)
    requires WellShaped(db) && JustCreated(db)
    ensures DbOk(p, db)
  {
    hide RowOk;
    forall t | t in db.tables ensures TableOk(p, db.tables[t]) {
      assert Shaped(db.tables[t]);
    }
  }

  // ----- one apply -----

  /** Nothing outside the engine goes wrong. */
  const GOOD_LUCK := Luck(Taken, true, Restored, Written, true)

  /** The manifest is applied, confirmed, with the witnesses. */
  function Attempt(p: Platform, w: World, id: string, newApp: App, witnesses: map<string, Witness>): (World, Outcome) {
    Applied(p, w, id, Manifest(newApp), Options(true, witnesses), GOOD_LUCK)
  }

  /** With the gate open and good luck, an apply is promoted exactly when Execute succeeds. */
  lemma Attempted(p: Platform, w: World, oldApp: App, newApp: App, witnesses: map<string, Witness>)
    requires oldApp.id == newApp.id && oldApp.id in w.registry && w.registry[oldApp.id].app == oldApp && oldApp.id in w.dbs
    requires Accepted(Manifest(newApp))
    requires var ops := Prepared(oldApp.entities, newApp.entities, witnesses); ops != [] && GateOpen(ops)
    ensures var ops := Prepared(oldApp.entities, newApp.entities, witnesses);
            var r := Executed(p, w.dbs[oldApp.id], oldApp, newApp, ops, true);
            var (after, outcome) := Attempt(p, w, oldApp.id, newApp, witnesses);
            && outcome == (if r.Ok? then Promoted else RolledBack)
            && (r.Ok? ==> after.dbs == w.dbs[oldApp.id := r.value])
            && (r.Ok? ==> after.registry == w.registry[oldApp.id := Registered(newApp, w.registry[oldApp.id].dir)])
  {
    hide Executed, Prepared, HasDestructive, GateOpen, Accepted;
  }

  // ----- the difference of two small manifests -----

  lemma NoOtherEntities(olds: seq<Entity>, news: seq<Entity>)
    requires EntityIds(olds) <= EntityIds(news)
    ensures EntityDropOps(olds, news) == []
  {
    EntityDropOpsMembers(olds, news);
    FirstIsMember(EntityDropOps(olds, news));
  }

  /** One entity that survives is all there is to the difference. */
  lemma DiffOfOne(oe: Entity, ne: Entity)
    requires oe.id == ne.id
    ensures DiffOps([oe], [ne]) == EntityChanges(oe, ne)
  {
    hide EntityChanges;
    assert [ne][..0] == [];
    assert EntityById([oe], ne.id) == Some(oe);
    assert EntitiesOps([oe], []) == [];
    assert oe.id in EntityIds([oe]) && ne in [ne] && EntityIds([oe]) == {ne.id} && EntityIds([ne]) == {ne.id};
    NoOtherEntities([oe], [ne]);
  }

  /** One field that survives is all there is to the entity. */
  lemma ChangesOfOne(oe: Entity, ne: Entity, of: Field, nf: Field)
    requires oe.name == ne.name && oe.fields == [of] && ne.fields == [nf] && of.id == nf.id
    ensures EntityChanges(oe, ne) == FieldChanges(ne.id, of, nf)
  {
    hide FieldChanges;
    assert [nf][..0] == [] && [of][..0] == [];
    assert FieldById([of], nf.id) == Some(of);
    assert nf.id in FieldIds([nf]);
    assert FieldsOps(ne.id, [of], []) == [];
    assert DropOps(ne.id, [], [nf]) == [];
  }

  lemma FieldStays(eid: string, f: Field)
    ensures FieldChanges(eid, f, f) == []
  {
  }

  /** Of two fields that survive, the second is all that changes. */
  lemma ChangesOfSecond(oe: Entity, ne: Entity, f: Field, of: Field, nf: Field)
    requires oe.name == ne.name && oe.fields == [f, of] && ne.fields == [f, nf] && of.id == nf.id && f.id != nf.id
    ensures EntityChanges(oe, ne) == FieldChanges(ne.id, of, nf)
  {
    hide FieldChanges;
    FieldStays(ne.id, f);
    assert [f, nf][..1] == [f] && [f][..0] == [] && [f, of][..1] == [f];
    assert FieldById([f, of], f.id) == Some(f);
    assert FieldById([f, of], of.id) == Some(of) by { assert [f, of][1..] == [of]; }
    assert f in ne.fields && nf in ne.fields && f.id in FieldIds(ne.fields) && nf.id in FieldIds(ne.fields);
    assert FieldsOps(ne.id, [f, of], []) == [] && FieldsOps(ne.id, [f, of], [f]) == [];
    assert DropOps(ne.id, [], [f, nf]) == [] && DropOps(ne.id, [f], [f, nf]) == [];
  }

  /** What apply prepares when there is one change. */
  lemma PreparedSingle(oe: Entity, ne: Entity, op: Operation, witnesses: map<string, Witness>)
    requires oe.id == ne.id && EntityChanges(oe, ne) == [op] && op.entityId == ne.id
    ensures var ops := Prepared([oe], [ne], witnesses);
            && |ops| == 1 && ops[0].change == op.change && ops[0].fieldId == op.fieldId && ops[0].entityId == ne.id
            && ops[0].witness_ == (if op.fieldId in witnesses then Some(witnesses[op.fieldId]) else None)
            && SameChanges(ops, EntityChanges(oe, ne)) && SameChanges(ops, DiffOps([oe], [ne])) && OpsOf(ops, ne.id) == ops
            && (op.fieldId != "" && op.fieldId in witnesses ==> WitnessOf(ops, op.fieldId) == Some(witnesses[op.fieldId]))
  {
    hide DiffOps, EntityChanges, Prepared, Uniform;
    DiffOfOne(oe, ne);
    PreparedIsDiff([oe], [ne], witnesses);
    PreparedIsUniform([oe], [ne], witnesses);
    var ops := Prepared([oe], [ne], witnesses);
    assert ops[0] in ops && ops[..0] == [];
    UniformMember(ops, witnesses, ops[0]);
    assert OpsOf(ops[..0], ne.id) == [];
  }

  lemma UniformMember(ops: seq<Operation>, witnesses: map<string, Witness>, op: Operation)
    requires Uniform(ops, witnesses) && op in ops
    ensures op.witness_ == if op.fieldId in witnesses then Some(witnesses[op.fieldId]) else None
  {
  }

  /** What apply prepares when one field of one entity changed. */
  lemma PreparedOfOne(oe: Entity, ne: Entity, of: Field, nf: Field, witnesses: map<string, Witness>)
    requires oe.id == ne.id && oe.name == ne.name && oe.fields == [of] && ne.fields == [nf] && of.id == nf.id
    ensures var ops := Prepared([oe], [ne], witnesses);
            && SameChanges(ops, FieldChanges(ne.id, of, nf)) && SameChanges(ops, EntityChanges(oe, ne))
            && forall op | op in ops ::
                 && FieldChange(of, nf, op.change) && op.entityId == ne.id && op.fieldId == nf.id
                 && op.witness_ == if nf.id in witnesses then Some(witnesses[nf.id]) else None
  {
    hide DiffOps, EntityChanges, FieldChanges, FieldChange, Prepared;
    DiffOfOne(oe, ne);
    ChangesOfOne(oe, ne, of, nf);
    PreparedIsDiff([oe], [ne], witnesses);
    PreparedIsUniform([oe], [ne], witnesses);
    FieldChangesMembers(ne.id, of, nf);
    var ops, changes := Prepared([oe], [ne], witnesses), FieldChanges(ne.id, of, nf);
    forall op | op in ops
      ensures FieldChange(of, nf, op.change) && op.entityId == ne.id && op.fieldId == nf.id
    {
      var i :| 0 <= i < |ops| && ops[i] == op;
      assert changes[i] in changes;
    }
  }

  // ----- executing it -----

  lemma OpsOfOne(olds: seq<Entity>, news: seq<Entity>, ops: seq<Operation>, ne: Entity)
    requires DistinctEntityIds(news) && ne in news && ne.id in EntityIds(olds) && SameChanges(ops, DiffOps(olds, news))
    ensures !Adds(ops, ne.id) && SameChanges(OpsOf(ops, ne.id), EntityChanges(EntityById(olds, ne.id).value, ne))
  {
    hide DiffOps, EntityChanges;
    AddedEntities(olds, news, ops, ne);
    OwnOps(olds, news, ops, ne);
  }

  /** A first entity that cannot be changed fails the migration. */
  lemma FirstEntityFails(p: Platform, db: Db, oldApp: App, newApp: App, ops: seq<Operation>, oe: Entity, rest: seq<Entity>, ne: Entity)
    requires newApp.entities == [ne] + rest && EntityById(oldApp.entities, ne.id) == Some(oe)
    requires DistinctEntityIds(newApp.entities) && SameChanges(ops, DiffOps(oldApp.entities, newApp.entities))
    requires CreateAdded(p, db, newApp.entities, ops) == Ok(db)
    requires OpsOf(ops, ne.id) != [] && !AllRenames(ops)
    requires if NeedsRebuild(OpsOf(ops, ne.id)) then Rebuild(p, db, oe, ne, OpsOf(ops, ne.id)).Err?
             else NativeOps(p, db, ne.id, OpsOf(ops, ne.id)).Err?
    ensures Executed(p, db, oldApp, newApp, ops, true).Err?
  {
    hide DiffOps, OpsOf, NeedsRebuild, Rebuild, NativeOps, CreateAdded, Adds, AllRenames, DropRemoved;
    var olds, news := oldApp.entities, newApp.entities;
    OpsOfOne(olds, news, ops, ne);
    assert news[..1] == [ne] && [ne][..0] == [];
    assert ChangeEntities(p, db, olds, [], ops) == Ok(db);
    assert ChangeEntities(p, db, olds, [ne], ops).Err?;
    LaterEntitiesFail(p, db, olds, news, ops, 1);
  }

  lemma {:induction false} LaterEntitiesFail(p: Platform, db: Db, olds: seq<Entity>, news: seq<Entity>, ops: seq<Operation>, n: nat)
    requires n <= |news| && ChangeEntities(p, db, olds, news[..n], ops).Err?
    ensures ChangeEntities(p, db, olds, news, ops).Err?
  {
    if n < |news| {
      var rest := news[..|news| - 1];
      assert rest[..n] == news[..n];
      LaterEntitiesFail(p, db, olds, rest, ops, n);
    } else {
      assert news[..n] == news;
    }
  }

  lemma {:induction false} NothingAdded(p: Platform, db: Db, news: seq<Entity>, ops: seq<Operation>)
    requires forall e | e in news :: !Adds(ops, e.id)
    ensures CreateAdded(p, db, news, ops) == Ok(db)
  {
    hide Adds;
    if news != [] {
      assert news[|news| - 1] in news;
      NothingAdded(p, db, news[..|news| - 1], ops);
    }
  }

  /** With one entity, before and after, the migration is its own change and the foreign-key check. */
  lemma ExecutesOne(p: Platform, db: Db, oldApp: App, newApp: App, ops: seq<Operation>, oe: Entity, ne: Entity)
    requires oldApp.entities == [oe] && newApp.entities == [ne] && oe.id == ne.id
    requires SameChanges(ops, EntityChanges(oe, ne)) && !AllRenames(ops)
    ensures var r := if NeedsRebuild(ops) then Rebuild(p, db, oe, ne, ops) else NativeOps(p, db, ne.id, ops);
            && (r.Err? ==> Executed(p, db, oldApp, newApp, ops, true).Err?)
            && (r.Ok? && ForeignKeysHold(r.value) ==>
                  && Executed(p, db, oldApp, newApp, ops, true).Ok?
                  && Executed(p, db, oldApp, newApp, ops, true).value.tables == r.value.tables)
  {
    hide DiffOps, EntityChanges, NeedsRebuild, Rebuild, NativeOps, Adds, AllRenames, ForeignKeysHold, CanonicalText, OpsOf;
    DiffOfOne(oe, ne);
    assert ops != [] by { SomethingChanges(ops); }
    AllOpsAreIts(ops, oe, ne);
    assert oe in [oe] && ne in [ne];
    assert EntityById([oe], ne.id) == Some(oe);
    OpsOfOne([oe], [ne], ops, ne);
    DroppedEntity([oe], [ne], ops, oe);
    assert [ne][..0] == [] && [oe][..0] == [];
    NothingAdded(p, db, [ne], ops);
    assert ChangeEntities(p, db, [oe], [], ops) == Ok(db);
    var r := if NeedsRebuild(ops) then Rebuild(p, db, oe, ne, ops) else NativeOps(p, db, ne.id, ops);
    assert ChangeEntities(p, db, [oe], [ne], ops) == r;
    if r.Ok? {
      assert DropRemoved(p, r.value, [], ops) == Ok(r.value);
      assert DropRemoved(p, r.value, [oe], ops) == r;
      if ForeignKeysHold(r.value) {
        SameTablesSameKeys(r.value, r.value.(fingerprint := Some(CanonicalText(p.num, newApp))));
      }
    }
  }

  lemma SomethingChanges(ops: seq<Operation>)
    requires !AllRenames(ops)
    ensures ops != []
  {
  }

  lemma SameTablesSameKeys(a: Db, b: Db)
    requires a.tables == b.tables && ForeignKeysHold(a)
    ensures ForeignKeysHold(b)
  {
  }

  lemma AllOpsAreIts(ops: seq<Operation>, oe: Entity, ne: Entity)
    requires SameChanges(ops, EntityChanges(oe, ne))
    ensures OpsOf(ops, ne.id) == ops
  {
    hide EntityChanges;
    EntityChangesWithin(oe, ne);
    forall op | op in ops ensures op.entityId == ne.id {
      var i :| 0 <= i < |ops| && ops[i] == op;
      assert EntityChanges(oe, ne)[i] in EntityChanges(oe, ne);
    }
    OpsOfBlock(ops, ne.id, ne.id);
  }

  lemma CleanIsAccepted(p: Platform, app: App)
    requires BootsClean(p, app)
    ensures Accepted(Manifest(app)) && NamesDistinct(UniquePairs(app.entities))
  {
  }

  /** The table of the one entity, after a first boot. */
  lemma CleanTable(p: Platform, db: Db, e: Entity)
    requires BootsClean(p, Serving([e])) && CatalogueIs(db, Serving([e])) && InStep(p, db, Serving([e]), true)
    ensures Ready(db, e.id, UniquePairs([e])) && Matches(db.tables[e.id], e) && MatchesButBounds(db.tables[e.id], e) && Lawful(p, db)
  {
    hide Matches, MatchesButBounds, Accepted, Bootable, NamesDistinct, UniquePairs, Lawful;
    assert e in [e] && e.id in EntityIds([e]);
    ExactButBounds(db, Serving([e]));
    CatalogueIsNamed(db, Serving([e]), UniquePairs([e]));
  }
}

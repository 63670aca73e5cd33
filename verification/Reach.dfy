/** Migration reaches its target: the catalogue after a successful Execute, against materialize. */
module Reach {
  import opened Results
  import opened Schema
  import opened Sql
  import opened Materialize
  import opened Changesets
  import opened Diffs
  import opened Executor
  import opened Views
  import opened NativePath
  import opened ChangesetShape
  import opened DiffMembers
  import opened Migration
  import opened WholeMigration

  // ----- field definitions -----

  predicate SameBounds(of: Field, nf: Field) {
    of.min == nf.min && of.max == nf.max
  }

  lemma SameStringsSameSet(a: seq<string>, b: seq<string>)
    requires SameStrings(a, b)
    ensures (set v | v in a) == (set v | v in b)
  {
    assert forall v :: v in a <==> v in multiset(a);
    assert forall v :: v in b <==> v in multiset(b);
  }

  lemma DefinitionsKept(of: Field, nf: Field)
    requires KeepsDefinition(of, nf)
    ensures WithoutBounds(ColumnDef(of)) == WithoutBounds(ColumnDef(nf))
  {
    if of.typ.Enum? {
      SameStringsSameSet(of.values, nf.values);
    }
  }

  lemma DefinitionsEqual(olds: seq<Entity>, news: seq<Entity>, of: Field, nf: Field)
    requires KeepsDefinition(of, nf) && ValidField(olds, of) && ValidField(news, nf)
    ensures ColumnDef(of) == ColumnDef(nf) <==> SameBounds(of, nf)
  {
    DefinitionsKept(of, nf);
  }

  // ----- one table -----

  /** What the views of a natively changed table say about its catalogue entry. */
  lemma NativeCatalogue(p: Platform, eid: string, news: seq<Field>, t: Table, after: Table)
    requires DistinctFieldIds(news) && Shaped(after)
    requires forall id :: ViewOf(after, id) == NativeView(p, eid, news, t, id)
    ensures Carries(after, eid, news)
    ensures forall nf | nf in news ::
              nf.id in after.cols && after.cols[nf.id] == if nf.id in t.cols then t.cols[nf.id] else ColumnDef(nf)
  {
    hide ColumnDef, Filled, CellsOf;
    forall id ensures id in after.cols <==> id in FieldIds(news) {
      assert ViewOf(after, id) == NativeView(p, eid, news, t, id);
    }
    forall nf | nf in news
      ensures nf.id in after.cols && after.cols[nf.id] == if nf.id in t.cols then t.cols[nf.id] else ColumnDef(nf)
      ensures nf.id in after.indexes <==> nf.unique
      ensures nf.unique ==> after.indexes[nf.id] == IndexName(eid, nf.id)
    {
      FieldByIdFinds(news, nf);
      assert ViewOf(after, nf.id) == NativeView(p, eid, news, t, nf.id);
    }
    assert after.cols.Keys == FieldIds(news);
    IndexesByField(eid, news, after.indexes);
  }

  lemma IndexesByField(eid: string, fields: seq<Field>, indexes: map<string, string>)
    requires indexes.Keys <= FieldIds(fields)
    requires forall f | f in fields :: (f.id in indexes <==> f.unique) && (f.unique ==> indexes[f.id] == IndexName(eid, f.id))
    ensures indexes == Indexes(eid, fields)
  {
    assert indexes.Keys == UniqueIds(fields);
  }

  lemma ColumnsOfFields(fields: seq<Field>)
    requires DistinctFieldIds(fields)
    ensures Columns(fields).Keys == FieldIds(fields)
    ensures forall f | f in fields :: Columns(fields)[f.id] == ColumnDef(f)
  {
    hide ColumnDef;
    forall f | f in fields ensures Columns(fields)[f.id] == ColumnDef(f) {
      FieldByIdFinds(fields, f);
      assert f.id in FieldIds(fields);
    }
  }

  lemma ColumnsEqual(fields: seq<Field>, cols: map<string, Column>)
    requires DistinctFieldIds(fields) && cols.Keys == FieldIds(fields)
    ensures cols == Columns(fields) <==> forall f | f in fields :: cols[f.id] == ColumnDef(f)
    ensures SameButBounds(cols, Columns(fields))
            <==> forall f | f in fields :: WithoutBounds(cols[f.id]) == WithoutBounds(ColumnDef(f))
  {
    hide ColumnDef, Columns, WithoutBounds;
    ColumnsOfFields(fields);
    if forall f | f in fields :: cols[f.id] == ColumnDef(f) {
      forall id | id in cols ensures cols[id] == Columns(fields)[id] {
        var f :| f in fields && f.id == id;
      }
    }
    if forall f | f in fields :: WithoutBounds(cols[f.id]) == WithoutBounds(ColumnDef(f)) {
      forall id | id in cols ensures WithoutBounds(cols[id]) == WithoutBounds(Columns(fields)[id]) {
        var f :| f in fields && f.id == id;
      }
    }
    forall f | f in fields ensures f.id in cols {
    }
  }

  /** Surviving fields of an entity keep their min and max. */
  predicate BoundsKept(oe: Entity, ne: Entity) {
    forall nf | nf in ne.fields ::
      match FieldById(oe.fields, nf.id)
      case None => true
      case Some(of) => SameBounds(of, nf)
  }

  lemma NativeTableMatches(p: Platform, olds: seq<Entity>, news: seq<Entity>, ops: seq<Operation>, oe: Entity, ne: Entity, t: Table, after: Table)
    requires DistinctEntityIds(news) && ne in news && EntityById(olds, ne.id) == Some(oe)
    requires ValidEntity(olds, oe) && ValidEntity(news, ne)
    requires SameChanges(ops, DiffOps(olds, news)) && !NeedsRebuild(OpsOf(ops, ne.id))
    requires MatchesButBounds(t, oe) && Migrated(p, t, after, oe, ne, OpsOf(ops, ne.id))
    ensures Carries(after, ne.id, ne.fields) && MatchesButBounds(after, ne)
    ensures Matches(t, oe) ==> (Matches(after, ne) <==> BoundsKept(oe, ne))
  {
    hide DiffOps, ColumnDef, Columns, Indexes, KeepsDefinition, WithoutBounds, EntityById, SameBounds, ViewOf, NativeView, SameButBounds, OpsOf, FieldIds;
    WithoutRebuildDefinitionsStay(olds, news, ops, oe, ne);
    NativeCatalogue(p, ne.id, ne.fields, t, after);
    ColumnsOfFields(oe.fields);
    ColumnsEqual(ne.fields, after.cols);
    MatchingColumns(t, oe);
    forall nf | nf in ne.fields
      ensures WithoutBounds(after.cols[nf.id]) == WithoutBounds(ColumnDef(nf))
      ensures Matches(t, oe) ==>
                (after.cols[nf.id] == ColumnDef(nf) <==>
                 match FieldById(oe.fields, nf.id) case None => true case Some(of) => SameBounds(of, nf))
    {
      match FieldById(oe.fields, nf.id) {
        case None =>
        case Some(of) =>
          DefinitionsKept(of, nf);
          DefinitionsEqual(olds, news, of, nf);
      }
    }
  }

  lemma MatchingColumns(t: Table, e: Entity)
    requires MatchesButBounds(t, e) && DistinctFieldIds(e.fields)
    ensures t.cols.Keys == FieldIds(e.fields)
    ensures forall f | f in e.fields :: WithoutBounds(t.cols[f.id]) == WithoutBounds(ColumnDef(f))
    ensures Matches(t, e) ==> forall f | f in e.fields :: t.cols[f.id] == ColumnDef(f)
  {
    hide ColumnDef, WithoutBounds;
    ColumnsOfFields(e.fields);
    forall f | f in e.fields ensures f.id in FieldIds(e.fields) {
    }
  }

  lemma RebuiltTableMatches(p: Platform, t: Table, after: Table, oe: Entity, ne: Entity, own: seq<Operation>)
    requires NeedsRebuild(own) && Migrated(p, t, after, oe, ne, own) && DistinctFieldIds(ne.fields)
    ensures Matches(after, ne) && MatchesButBounds(after, ne) && Carries(after, ne.id, ne.fields)
  {
    hide Columns, RebuiltRows;
    RebuiltShape(p, oe.fields, ne.fields, own, t.rows);
    ColumnsOfFields(ne.fields);
    assert UniqueIds(ne.fields) <= FieldIds(ne.fields);
  }

  lemma FreshTableMatches(e: Entity)
    requires DistinctFieldIds(e.fields)
    ensures Matches(FreshTable(e), e) && MatchesButBounds(FreshTable(e), e) && Carries(FreshTable(e), e.id, e.fields)
  {
    hide ColumnDef;
    ColumnsOfFields(e.fields);
    assert UniqueIds(e.fields) <= FieldIds(e.fields);
  }

  // ----- a changeset of renames -----

  lemma {:induction false} RenamesRunNoSql(p: Platform, db: Db, eid: string, ops: seq<Operation>)
    requires AllRenames(ops)
    ensures NativeOps(p, db, eid, ops) == Ok(db)
  {
    if ops != [] {
      assert ops[|ops| - 1] in ops;
      RenamesRunNoSql(p, db, eid, ops[..|ops| - 1]);
    }
  }

  lemma {:induction false} NothingCreated(p: Platform, db: Db, news: seq<Entity>, ops: seq<Operation>)
    requires AllRenames(ops)
    ensures CreateAdded(p, db, news, ops) == Ok(db)
  {
    if news != [] {
      NothingCreated(p, db, news[..|news| - 1], ops);
    }
  }

  lemma {:induction false} NothingChanged(p: Platform, db: Db, olds: seq<Entity>, news: seq<Entity>, ops: seq<Operation>)
    requires AllRenames(ops)
    ensures ChangeEntities(p, db, olds, news, ops) == Ok(db)
  {
    if news != [] {
      NothingChanged(p, db, olds, news[..|news| - 1], ops);
      var ne := news[|news| - 1];
      OpsOfMembers(ops, ne.id);
      RenamesRunNoSql(p, db, ne.id, OpsOf(ops, ne.id));
    }
  }

  lemma {:induction false} NothingDropped(p: Platform, db: Db, olds: seq<Entity>, ops: seq<Operation>)
    requires AllRenames(ops)
    ensures DropRemoved(p, db, olds, ops) == Ok(db)
  {
    if olds != [] {
      NothingDropped(p, db, olds[..|olds| - 1], ops);
    }
  }

  /** Skipping SQL for a rename-only changeset agrees with running it. */
  lemma RenamesDoNothing(p: Platform, db: Db, olds: seq<Entity>, news: seq<Entity>, ops: seq<Operation>)
    requires AllRenames(ops)
    ensures ApplyOps(p, db, olds, news, ops) == Ok(db)
  {
    hide AllRenames;
    NothingCreated(p, db, news, ops);
    NothingChanged(p, db, olds, news, ops);
    NothingDropped(p, db, olds, ops);
  }

  lemma ExecutedTables(p: Platform, db: Db, oldApp: App, newApp: App, ops: seq<Operation>, commits: bool)
    requires Executed(p, db, oldApp, newApp, ops, commits).Ok?
    ensures var r := ApplyOps(p, db, oldApp.entities, newApp.entities, ops);
            r.Ok? && Executed(p, db, oldApp, newApp, ops, commits).value.tables == r.value.tables
  {
    hide ApplyOps;
    if AllRenames(ops) {
      RenamesDoNothing(p, db, oldApp.entities, newApp.entities, ops);
    }
  }

  // ----- the catalogue of the whole database -----

  predicate WellShaped(db: Db) {
    forall t | t in db.tables :: Shaped(db.tables[t])
  }

  /** No two unique fields of the two manifests share an index name. */
  predicate NoNameClash(olds: seq<Entity>, news: seq<Entity>) {
    NamesDistinct(UniquePairs(olds) + UniquePairs(news))
  }

  lemma ValidIsWellFormed(app: App)
    requires ValidApp(app)
    ensures WellFormed(app.entities)
  {
    forall e | e in app.entities ensures DistinctFieldIds(e.fields) {
      assert ValidEntity(app.entities, e);
    }
  }

  lemma ExactMatches(t: Table, e: Entity)
    requires Matches(t, e)
    ensures MatchesButBounds(t, e)
  {
  }

  lemma ExactButBounds(db: Db, app: App)
    requires CatalogueIs(db, app)
    ensures CatalogueButBounds(db, app)
  {
    forall e | e in app.entities ensures e.id in db.tables && MatchesButBounds(db.tables[e.id], e) {
      assert e.id in EntityIds(app.entities);
    }
  }

  lemma ButBoundsCarries(db: Db, app: App)
    requires CatalogueButBounds(db, app) && WellShaped(db) && WellFormed(app.entities)
    ensures CarriesAll(db, app.entities)
  {
    hide ColumnDef, WithoutBounds, Indexes;
    forall e | e in app.entities ensures Carries(db.tables[e.id], e.id, e.fields) {
      assert e.id in EntityIds(app.entities);
      ColumnsOfFields(e.fields);
    }
  }

  /** A surviving entity's CHECKs are rewritten by a rebuild, or its bounds did not change. */
  predicate BoundsReach(olds: seq<Entity>, ne: Entity, ops: seq<Operation>) {
    match EntityById(olds, ne.id)
    case None => true
    case Some(oe) => NeedsRebuild(OpsOf(ops, ne.id)) || BoundsKept(oe, ne)
  }

  lemma EntityReaches(p: Platform, db: Db, after: Db, oldApp: App, newApp: App, ops: seq<Operation>, ne: Entity)
    requires ValidApp(oldApp) && ValidApp(newApp) && ne in newApp.entities
    requires CatalogueButBounds(db, oldApp) && SameChanges(ops, DiffOps(oldApp.entities, newApp.entities))
    requires Reached(p, db, after, oldApp.entities, newApp.entities, ops)
    ensures ne.id in after.tables
    ensures MatchesButBounds(after.tables[ne.id], ne) && Carries(after.tables[ne.id], ne.id, ne.fields)
    ensures CatalogueIs(db, oldApp) ==> (Matches(after.tables[ne.id], ne) <==> BoundsReach(oldApp.entities, ne, ops))
  {
    hide DiffOps, Matches, MatchesButBounds, Carries, Migrated, FreshTable, NeedsRebuild, OpsOf, BoundsKept, ValidEntity;
    var olds, news := oldApp.entities, newApp.entities;
    assert ValidEntity(news, ne);
    DistinctIn(news, ne);
    match EntityById(olds, ne.id) {
      case None =>
        FreshTableMatches(ne);
      case Some(oe) =>
        assert oe in olds && ValidEntity(olds, oe);
        assert Survived(p, db, after, olds, ne, ops);
        if NeedsRebuild(OpsOf(ops, ne.id)) {
          RebuiltTableMatches(p, db.tables[ne.id], after.tables[ne.id], oe, ne, OpsOf(ops, ne.id));
        } else {
          NativeTableMatches(p, olds, news, ops, oe, ne, db.tables[ne.id], after.tables[ne.id]);
        }
    }
  }

  lemma DistinctIn(entities: seq<Entity>, e: Entity)
    requires ValidEntity(entities, e)
    ensures DistinctFieldIds(e.fields)
  {
  }

  /** Execute leaves one fresh or migrated table per entity of the new manifest. */
  lemma ExecuteReaches(p: Platform, db: Db, oldApp: App, newApp: App, ops: seq<Operation>, commits: bool)
    requires ValidApp(oldApp) && ValidApp(newApp) && NoNameClash(oldApp.entities, newApp.entities)
    requires CatalogueButBounds(db, oldApp) && WellShaped(db)
    requires SameChanges(ops, DiffOps(oldApp.entities, newApp.entities))
    requires Executed(p, db, oldApp, newApp, ops, commits).Ok?
    ensures Reached(p, db, Executed(p, db, oldApp, newApp, ops, commits).value, oldApp.entities, newApp.entities, ops)
  {
    hide DiffOps, ApplyOps, Executed, Migrated, FreshTable, NamesDistinct, UniquePairs, CatalogueButBounds, Named, ValidApp;
    var olds, news := oldApp.entities, newApp.entities;
    var pairs := UniquePairs(olds) + UniquePairs(news);
    ValidIsWellFormed(oldApp);
    ValidIsWellFormed(newApp);
    ButBoundsCarries(db, oldApp);
    CatalogueIsNamed(db, oldApp, pairs);
    ExecutedTables(p, db, oldApp, newApp, ops, commits);
    ApplyOutcome(p, db, olds, news, ops, pairs);
  }

  /**
   * Migration reaches its target. From a database with exactly the old manifest's catalogue, a
   * successful Execute of the manifests' difference, whatever witnesses it carries, leaves exactly
   * the new manifest's tables, columns, nullability, value checks, foreign keys and unique indexes.
   * The min/max CHECKs are also the new ones if and only if every surviving entity was rebuilt or
   * kept its fields' bounds: the difference never compares bounds.
   */
  lemma MigrationReachesTarget(p: Platform, db: Db, oldApp: App, newApp: App, ops: seq<Operation>, commits: bool)
    requires ValidApp(oldApp) && ValidApp(newApp) && NoNameClash(oldApp.entities, newApp.entities)
    requires CatalogueButBounds(db, oldApp) && WellShaped(db)
    requires SameChanges(ops, DiffOps(oldApp.entities, newApp.entities))
    requires Executed(p, db, oldApp, newApp, ops, commits).Ok?
    ensures var after := Executed(p, db, oldApp, newApp, ops, commits).value;
            && CatalogueButBounds(after, newApp) && WellShaped(after)
            && (CatalogueIs(db, oldApp) ==>
                  (CatalogueIs(after, newApp) <==>
                   forall ne | ne in newApp.entities :: BoundsReach(oldApp.entities, ne, ops)))
  {
    hide DiffOps, Executed, Matches, MatchesButBounds, Carries, BoundsReach, Survived, FreshTable, NoNameClash, ValidApp;
    var after := Executed(p, db, oldApp, newApp, ops, commits).value;
    ExecuteReaches(p, db, oldApp, newApp, ops, commits);
    forall ne | ne in newApp.entities
      ensures ne.id in after.tables && MatchesButBounds(after.tables[ne.id], ne) && Shaped(after.tables[ne.id])
      ensures CatalogueIs(db, oldApp) ==> (Matches(after.tables[ne.id], ne) <==> BoundsReach(oldApp.entities, ne, ops))
    {
      EntityReaches(p, db, after, oldApp, newApp, ops, ne);
      CarriesShaped(after.tables[ne.id], ne.id, ne.fields);
    }
    forall t | t in after.tables ensures Shaped(after.tables[t]) {
      var ne :| ne in newApp.entities && ne.id == t;
    }
  }
}

/** What a boot requires of a database before it serves an app over it, and what it leaves of one it refuses. */
module ServedColumns {
  import opened Results
  import opened Schema
  import opened Validation
  import opened Sql
  import opened Strings
  import opened Materialize
  import opened Fingerprints
  import opened Naming
  import opened Reach
  import opened WholeMigration
  import opened DomainSound
  import opened Hosts
  import opened WholeRuns
  import opened Restarts

  // ----- the columns a table has to have -----

  /** The physical columns are the platform's and one under each field's id, and no other. */
  ghost predicate HasColumns(t: Table, e: Entity) {
    forall c :: (IsReserved(c) || c in t.cols) <==> (IsReserved(c) || exists f | f in e.fields :: f.id == c)
  }

  ghost predicate HasTables(db: Db, app: App) {
    forall e | e in app.entities :: e.id in db.tables && HasColumns(db.tables[e.id], e)
  }

  lemma VerifiedHasColumns(db: Db, e: Entity)
    ensures EntityVerified(db, e) <==> e.id in db.tables && HasColumns(db.tables[e.id], e)
  {
    if e.id in db.tables {
      var a, b := db.tables[e.id].cols.Keys + PlatformColumns(), FieldIds(e.fields) + PlatformColumns();
      assert forall c :: c in a <==> IsReserved(c) || c in db.tables[e.id].cols;
      assert forall c :: c in b <==> (IsReserved(c) || exists f | f in e.fields :: f.id == c);
      if HasColumns(db.tables[e.id], e) {
        assert a == b;
      }
    }
  }

  /** VerifySchema accepts a database exactly when every entity has its table, with exactly its columns. */
  lemma VerifiedHasTables(db: Db, app: App)
    ensures ColumnsVerified(db, app) <==> HasTables(db, app)
  {
    hide EntityVerified, HasColumns;
    forall e | e in app.entities {
      VerifiedHasColumns(db, e);
    }
  }

  // ----- what the DDL leaves alone -----

  /** Tables are added, and indexes to tables; nothing else differs. */
  predicate TablesStay(before: Db, after: Db) {
    forall t | t in before.tables :: t in after.tables && after.tables[t].(indexes := map[]) == before.tables[t].(indexes := map[])
  }

  lemma {:induction false} DdlKeepsTables(p: Platform, stmts: seq<Stmt>, db: Db)
    requires CreatesOnly(stmts)
    ensures TablesStay(db, DdlApplied(p, stmts, db).0)
  {
    hide NoDuplicates, IndexTaken, UsableTable, UsableColumns;
    if stmts != [] {
      var s := stmts[|stmts| - 1];
      assert s in stmts;
      DdlKeepsTables(p, stmts[..|stmts| - 1], db);
    }
  }

  lemma ColumnsStay(before: Db, after: Db, app: App)
    requires TablesStay(before, after) && HasTables(before, app)
    ensures HasTables(after, app)
  {
    hide HasColumns;
    forall e | e in app.entities ensures e.id in after.tables && HasColumns(after.tables[e.id], e) {
      SameColumnsHave(before.tables[e.id], after.tables[e.id], e);
    }
  }

  lemma SameColumnsHave(a: Table, b: Table, e: Entity)
    requires a.cols.Keys == b.cols.Keys
    ensures HasColumns(a, e) <==> HasColumns(b, e)
  {
    assert forall c :: c in a.cols <==> c in b.cols;
  }

  // ----- one database -----

  /**
   * What a boot does to a database. No table or row that was there changes. If the app is to be
   * served, every entity has its table with exactly its columns and the manifest's fingerprint is
   * recorded, and was if any was; otherwise the recorded fingerprint, or its absence, is as before.
   */
  lemma BootedDatabase(p: Platform, db: Db, app: App)
    ensures var (after, fault) := DbBooted(p, db, app);
            && TablesStay(db, after)
            && (fault.None? ==>
                  && HasTables(after, app) && after.fingerprint == Some(CanonicalText(p.num, app))
                  && (db.fingerprint == None || db.fingerprint == after.fingerprint))
            && (fault.Some? ==> after.fingerprint == db.fingerprint)
  {
    hide CanonicalText, DdlApplied, ColumnsVerified, HasTables;
    DdlIsCreates(app);
    DdlKeepsFingerprint(p, Ddl(app), db);
    DdlKeepsTables(p, Ddl(app), db);
    var made := DdlApplied(p, Ddl(app), db).0;
    VerifiedHasTables(made, app);
    var after := DbBooted(p, db, app).0;
    assert after.tables == made.tables;
    if HasTables(made, app) {
      ColumnsStay(made, after, app);
    }
  }

  /** A table with a missing or an extra column is never adopted: the app is refused and no fingerprint recorded. */
  lemma MismatchIsRefused(p: Platform, db: Db, app: App, e: Entity)
    requires e in app.entities && e.id in db.tables && !HasColumns(db.tables[e.id], e)
    ensures DbBooted(p, db, app).1.Some? && DbBooted(p, db, app).0.fingerprint == db.fingerprint
    ensures TablesStay(db, DbBooted(p, db, app).0)
  {
    hide CanonicalText, DdlApplied, ColumnsVerified, HasColumns, DbBooted;
    BootedDatabase(p, db, app);
    var after := DbBooted(p, db, app).0;
    SameColumnsHave(db.tables[e.id], after.tables[e.id], e);
  }

  lemma OneMoreTable(p: Platform, db: Db, name: string, cols: map<string, Column>)
    requires RunCreateTable(p, db, name, cols, true).Ok?
    ensures var after := RunCreateTable(p, db, name, cols, true).value;
            && after.tables.Keys == db.tables.Keys + {name}
            && (forall t | t in db.tables :: after.tables[t] == db.tables[t])
            && (name !in db.tables ==> after.tables[name].cols == cols)
  {
  }

  lemma {:induction false} CreatedTables(p: Platform, entities: seq<Entity>, db: Db)
    requires DistinctEntityIds(entities) && RunAll(p, CreateStmts(entities), db).Ok?
    ensures var after := RunAll(p, CreateStmts(entities), db).value;
            && after.tables.Keys == db.tables.Keys + EntityIds(entities)
            && (forall e | e in entities && e.id !in db.tables :: after.tables[e.id].cols == Columns(e.fields))
  {
    hide RunCreateTable, Columns, EntityIds;
    if entities == [] {
      NoEntityIds();
      assert db.tables.Keys + {} == db.tables.Keys;
    } else {
      var rest, e := entities[..|entities| - 1], entities[|entities| - 1];
      CreatedTables(p, rest, db);
      EntityIdsOfLast(entities);
      LastIsNew(entities);
      IdsOfMembers(rest);
      OneMoreTable(p, RunAll(p, CreateStmts(rest), db).value, e.id, Columns(e.fields));
      assert forall x | x in entities :: x in rest || x == e;
    }
  }

  lemma FreshHasColumns(t: Table, e: Entity)
    requires t.cols == Columns(e.fields)
    ensures HasColumns(t, e)
  {
    ColumnKeys(e);
    assert forall c :: c in t.cols <==> exists f | f in e.fields :: f.id == c;
  }

  lemma MadeTables(p: Platform, db: Db, app: App)
    requires DistinctEntityIds(app.entities) && RunAll(p, Ddl(app), db).Ok?
    ensures HasTables(RunAll(p, Ddl(app), db).value, app) <==>
            forall e | e in app.entities && e.id in db.tables :: HasColumns(db.tables[e.id], e)
  {
    hide HasColumns, RunAll, Columns, CreateStmts, AllIndexStmts;
    var creates, indexes := CreateStmts(app.entities), AllIndexStmts(app.entities);
    RunAllAppend(p, creates, indexes, db);
    CreatedTables(p, app.entities, db);
    IdsOfMembers(app.entities);
    var bare, made := RunAll(p, creates, db).value, RunAll(p, Ddl(app), db).value;
    DdlIsCreates(app);
    DdlRunsThrough(p, Ddl(app), db);
    DdlKeepsTables(p, Ddl(app), db);
    DdlKeepsTables(p, indexes, bare);
    DdlRunsThrough(p, indexes, bare);
    forall e | e in app.entities
      ensures e.id in made.tables && (HasColumns(made.tables[e.id], e) <==> e.id !in db.tables || HasColumns(db.tables[e.id], e))
    {
      if e.id in db.tables {
        SameColumnsHave(db.tables[e.id], made.tables[e.id], e);
      } else {
        FreshHasColumns(bare.tables[e.id], e);
        SameColumnsHave(bare.tables[e.id], made.tables[e.id], e);
      }
    }
  }

  /**
   * Which databases a boot serves: those on which its DDL runs through, whose tables, where an entity
   * already has one, have exactly the entity's columns, and which record no fingerprint or the manifest's.
   */
  lemma BootServesExactly(p: Platform, db: Db, app: App)
    requires ValidApp(app)
    ensures DbBooted(p, db, app).1.None? <==>
            && RunAll(p, Ddl(app), db).Ok?
            && (forall e | e in app.entities && e.id in db.tables :: HasColumns(db.tables[e.id], e))
            && (db.fingerprint == None || db.fingerprint == Some(CanonicalText(p.num, app)))
  {
    hide CanonicalText, DdlApplied, ColumnsVerified, HasTables, HasColumns, RunAll, Ddl, ValidEntity;
    DdlRunsThrough(p, Ddl(app), db);
    if RunAll(p, Ddl(app), db).Ok? {
      DdlIsCreates(app);
      DdlKeepsFingerprint(p, Ddl(app), db);
      MadeTables(p, db, app);
      VerifiedHasTables(RunAll(p, Ddl(app), db).value, app);
    }
  }

  // ----- a whole boot -----

  /** What is served has its tables, with exactly their columns, and its fingerprint on record. */
  ghost predicate Served(p: Platform, w: World, id: string) {
    id in w.registry && id in w.dbs
    && HasTables(w.dbs[id], w.registry[id].app)
    && w.dbs[id].fingerprint == Some(CanonicalText(p.num, w.registry[id].app))
  }

  ghost predicate AllServed(p: Platform, w: World) {
    forall id | id in w.registry :: Served(p, w, id)
  }

  lemma BootDirServes(p: Platform, w: World, d: string)
    requires d in w.manifests && AllServed(p, w)
    ensures AllServed(p, BootDir(p, w, d).0)
  {
    hide DbBooted, HasTables, TablesStay, CanonicalText, ValidApp, DistinctEntityNames, ToolsOk;
    if Accepted(w.manifests[d]) {
      var app := w.manifests[d].app;
      BootedDatabase(p, DbOf(w, app.id), app);
      if app.id in w.registry {
        assert Served(p, w, app.id);
        ColumnsStay(w.dbs[app.id], DbBooted(p, w.dbs[app.id], app).0, w.registry[app.id].app);
      }
      forall id | id in BootDir(p, w, d).0.registry ensures Served(p, BootDir(p, w, d).0, id) {
        if id != app.id {
          assert Served(p, w, id);
        }
      }
    }
  }

  lemma {:induction false} BootDirsServe(p: Platform, w: World, dirs: seq<string>)
    requires forall d | d in dirs :: d in w.manifests
    requires AllServed(p, w)
    ensures AllServed(p, BootDirs(p, w, dirs))
  {
    hide BootDir, AllServed;
    if dirs != [] {
      var rest, d := dirs[..|dirs| - 1], dirs[|dirs| - 1];
      var before := BootDirs(p, w, rest);
      BootDirsServe(p, w, rest);
      assert d in dirs && d in before.manifests;
      BootDirServes(p, before, d);
    }
  }

  /**
   * Whatever databases and manifests a boot finds, and however many directories declare one app: each
   * app it serves has a table per entity with exactly the platform's columns and one per field id, and
   * its database has the served manifest's fingerprint on record.
   */
  lemma ServedHaveTheirColumns(p: Platform, w: World, dirs: seq<string>)
    requires forall d | d in dirs :: d in w.manifests
    ensures AllServed(p, BootDirs(p, Unserved(w), dirs))
  {
    BootDirsServe(p, Unserved(w), dirs);
  }

  // ----- the reports of a boot -----

  lemma {:induction false} ReportOfPlace(p: Platform, w: World, dirs: seq<string>, i: nat)
    requires (forall d | d in dirs :: d in w.manifests) && i < |dirs|
    ensures forall d | d in dirs[..i] :: d in w.manifests
    ensures Reports(p, w, dirs)[i] == Report(p, BootDirs(p, w, dirs[..i]), dirs[i])
  {
    hide Report;
    var n := |dirs| - 1;
    if i < n {
      ReportOfPlace(p, w, dirs[..n], i);
      assert dirs[..n][..i] == dirs[..i] && dirs[..n][i] == dirs[i];
    }
  }

  /**
   * What a boot reports of a directory: an app that no other directory declares is reported as created
   * exactly when it had no database, and without a fault exactly when it is then served; a manifest
   * that is not accepted is reported as such, and creates nothing.
   */
  lemma ReportsTell(p: Platform, w: World, dirs: seq<string>, i: nat)
    requires (forall d | d in dirs :: d in w.manifests) && Distinct(dirs) && i < |dirs|
    ensures var reports, doc := Reports(p, Unserved(w), dirs), w.manifests[dirs[i]];
            && |reports| == |dirs| && reports[i].dir == dirs[i]
            && (!Accepted(doc) ==> reports[i].fault == Some(BadManifest) && !reports[i].created)
            && (Accepted(doc) && DeclaredOnce(w, doc.app.id) ==>
                  && (reports[i].created <==> doc.app.id !in w.dbs)
                  && (reports[i].fault.None? <==> Serves(p, w, dirs, dirs[i])))
  {
    hide DbBooted, ValidApp, DistinctEntityNames, ToolsOk, Serves, BootDirs;
    var u, d := Unserved(w), dirs[i];
    ReportOfPlace(p, u, dirs, i);
    var before := BootDirs(p, u, dirs[..i]);
    if Accepted(w.manifests[d]) && DeclaredOnce(w, w.manifests[d].app.id) {
      var id := w.manifests[d].app.id;
      forall x | x in dirs[..i] ensures x in u.manifests && !Declares(u.manifests[x], id) {
        assert Declares(w.manifests[d], id);
      }
      BootPassesBy(p, u, dirs[..i], id);
      ServesWhenDatabaseBoots(p, w, dirs, d);
    }
  }
}

/** What the next boot makes of the disk an apply left. */
module Restarts {
  import opened Results
  import opened Schema
  import opened Validation
  import opened Sql
  import opened Strings
  import opened Materialize
  import opened MaterializeFresh
  import opened Changesets
  import opened Fingerprints
  import opened FingerprintText
  import opened FingerprintDiff
  import opened Diffs
  import opened Executor
  import opened Naming
  import opened NativePath
  import opened Gate
  import opened Reach
  import opened Hosts
  import opened Runs
  import opened WholeRuns

  // ----- one app, among the directories of a boot -----

  /** Directories that do not declare the app leave its database and registration alone. */
  lemma {:induction false} BootPassesBy(p: Platform, w: World, dirs: seq<string>, id: string)
    requires forall d | d in dirs :: d in w.manifests && !Declares(w.manifests[d], id)
    ensures var after := BootDirs(p, w, dirs);
            && (id in after.dbs <==> id in w.dbs) && (id in w.dbs ==> after.dbs[id] == w.dbs[id])
            && (id in after.registry <==> id in w.registry)
            && (id in w.registry ==> after.registry[id] == w.registry[id])
  {
    hide BootDir, Accepted;
    if dirs != [] {
      var rest, d := dirs[..|dirs| - 1], dirs[|dirs| - 1];
      BootPassesBy(p, w, rest, id);
      BootDirOutcome(p, BootDirs(p, w, rest), d);
    }
  }

  /** A boot decides on each app by its own manifest and its own database alone. */
  lemma {:induction false} BootDecides(p: Platform, w: World, dirs: seq<string>, d: string)
    requires forall x | x in dirs :: x in w.manifests
    requires Distinct(dirs) && d in dirs && Accepted(w.manifests[d])
    requires DeclaredOnce(w, w.manifests[d].app.id)
    ensures var app := w.manifests[d].app;
            var (after, booted) := (BootDirs(p, w, dirs), DbBooted(p, DbOf(w, app.id), app));
            && app.id in after.dbs && after.dbs[app.id] == booted.0
            && (booted.1.None? ==> app.id in after.registry && after.registry[app.id] == Registered(app, d))
            && (booted.1.Some? ==> (app.id in after.registry <==> app.id in w.registry))
  {
    hide BootDir, ValidApp, DbBooted, DistinctEntityNames, ToolsOk;
    var id := w.manifests[d].app.id;
    var rest, last := dirs[..|dirs| - 1], dirs[|dirs| - 1];
    if last == d {
      assert forall x | x in rest :: !Declares(w.manifests[x], id);
      BootPassesBy(p, w, rest, id);
    } else {
      assert !Declares(w.manifests[last], id);
      BootDecides(p, w, rest, d);
    }
    BootDirOutcome(p, BootDirs(p, w, rest), last);
  }

  /** Whether a restart over these directories serves the app declared in `d`. */
  predicate Serves(p: Platform, w: World, dirs: seq<string>, d: string)
    requires forall x | x in dirs :: x in w.manifests
    requires d in dirs && w.manifests[d].Manifest?
  {
    var app := w.manifests[d].app;
    var after := BootDirs(p, Unserved(w), dirs);
    app.id in after.registry && after.registry[app.id] == Registered(app, d)
  }

  lemma ServesWhenDatabaseBoots(p: Platform, w: World, dirs: seq<string>, d: string)
    requires forall x | x in dirs :: x in w.manifests
    requires Distinct(dirs) && d in dirs && Accepted(w.manifests[d]) && DeclaredOnce(w, w.manifests[d].app.id)
    ensures var app := w.manifests[d].app; Serves(p, w, dirs, d) <==> DbBooted(p, DbOf(w, app.id), app).1.None?
    ensures var app := w.manifests[d].app;
            var after := BootDirs(p, Unserved(w), dirs);
            app.id in after.dbs && after.dbs[app.id] == DbBooted(p, DbOf(w, app.id), app).0
  {
    hide DbBooted, Accepted;
    BootDecides(p, Unserved(w), dirs, d);
  }

  lemma KeptManifest(p: Platform, w: World, d: string, exact: bool)
    requires d in w.manifests && Accepted(w.manifests[d]) && Kept(p, w, w.manifests[d].app.id, exact)
    ensures var app := w.manifests[d].app;
            && DeclaredOnce(w, app.id) && ValidApp(app) && NamesDistinct(UniquePairs(app.entities))
            && (app.id in w.dbs ==> Begun(p, w.dbs[app.id], app))
            && (app.id in w.dbs && Bootable(p, app) ==> InStep(p, w.dbs[app.id], app, exact))
  {
    hide InStep, NamesDistinct, UniquePairs, ValidApp, DeclaredOnce, Placed, DistinctEntityNames, ToolsOk;
    assert Declares(w.manifests[d], w.manifests[d].app.id);
  }

  /**
   * After any run that did not break the app, a restart serves it with the manifest on disk if and
   * only if SQLite accepts the manifest's names, and changes nothing in its database beyond
   * creating it.
   */
  lemma RestartServes(p: Platform, w: World, dirs: seq<string>, d: string, exact: bool)
    requires forall x | x in dirs :: x in w.manifests
    requires Distinct(dirs) && d in dirs && Accepted(w.manifests[d])
    requires Kept(p, w, w.manifests[d].app.id, exact)
    ensures Serves(p, w, dirs, d) <==> Bootable(p, w.manifests[d].app)
    ensures var id := w.manifests[d].app.id;
            && id in BootDirs(p, Unserved(w), dirs).dbs
            && (id in w.dbs && Bootable(p, w.manifests[d].app) ==> BootDirs(p, Unserved(w), dirs).dbs[id] == w.dbs[id])
  {
    hide DbBooted, InStep, Begun, NamesDistinct, UniquePairs, Serves, BootDirs, Kept, ValidApp, DistinctEntityNames, ToolsOk, Bootable;
    var app := w.manifests[d].app;
    KeptManifest(p, w, d, exact);
    ServesWhenDatabaseBoots(p, w, dirs, d);
    if !Bootable(p, app) {
      EmptyIsBegun(p, app);
      BootRefusesClocks(p, DbOf(w, app.id), app);
    } else if app.id in w.dbs {
      BootKeepsDb(p, w.dbs[app.id], app, exact);
    } else {
      BootMakesDb(p, app, exact);
    }
  }

  // ----- drift -----

  /** Boot only ever creates. */
  predicate CreatesOnly(stmts: seq<Stmt>) {
    forall s | s in stmts :: s.CreateTable? || s.CreateUniqueIndex?
  }

  lemma {:induction false} DdlKeepsFingerprint(p: Platform, stmts: seq<Stmt>, db: Db)
    requires CreatesOnly(stmts)
    ensures DdlApplied(p, stmts, db).0.fingerprint == db.fingerprint
  {
    hide NoDuplicates, IndexTaken;
    if stmts != [] {
      var s := stmts[|stmts| - 1];
      assert s in stmts;
      DdlKeepsFingerprint(p, stmts[..|stmts| - 1], db);
    }
  }

  lemma {:induction false} CreatesAreCreates(entities: seq<Entity>)
    ensures CreatesOnly(CreateStmts(entities))
  {
    if entities != [] {
      CreatesAreCreates(entities[..|entities| - 1]);
    }
  }

  lemma DdlIsCreates(app: App)
    ensures CreatesOnly(Ddl(app))
  {
    CreatesAreCreates(app.entities);
    AllIndexStmtsArePairs(app.entities);
  }

  /** No boot serves a manifest whose text is not the one the database recorded. */
  lemma DriftIsRefused(p: Platform, db: Db, app: App)
    requires db.fingerprint.Some? && db.fingerprint.value != CanonicalText(p.num, app)
    ensures DbBooted(p, db, app).1.Some?
  {
    hide CanonicalText, DdlApplied, ColumnsVerified;
    DdlIsCreates(app);
    DdlKeepsFingerprint(p, Ddl(app), db);
  }

  /** What the fingerprint is assumed to tell apart in these two manifests. */
  predicate TellsApart(p: Platform, a: App, b: App) {
    PlainValues(a.entities) && PlainValues(b.entities) && Prints(p.num, AllBounds(a.entities) + AllBounds(b.entities))
  }

  lemma PreparedAgrees(p: Platform, oldApp: App, newApp: App, witnesses: map<string, Witness>)
    requires ValidApp(oldApp) && ValidApp(newApp) && TellsApart(p, oldApp, newApp)
    ensures CanonicalText(p.num, oldApp) == CanonicalText(p.num, newApp)
            <==> AllRenames(Prepared(oldApp.entities, newApp.entities, witnesses)) && AllBoundsKept(oldApp.entities, newApp.entities)
  {
    hide CanonicalText, Prepared, DiffOps, AllBoundsKept, AllRenames, ValidApp, DistinctEntityNames, ToolsOk;
    PreparedIsDiff(oldApp.entities, newApp.entities, witnesses);
    NeedsRebuildOfSameChanges(Prepared(oldApp.entities, newApp.entities, witnesses), DiffOps(oldApp.entities, newApp.entities));
    DiffAgreesWithFingerprint(p.num, oldApp, newApp);
  }

  /**
   * The next boot after a promotion serves the promoted manifest exactly when the changeset was not
   * one that only renames but moves bounds (that one runs no SQL, so the old fingerprint stays), and
   * SQLite accepts the manifest's names (bounds may move onto a column that is no expression, and
   * then boot's DDL is not SQL).
   */
  lemma PromotedManifestBoots(p: Platform, w: World, id: string, doc: Doc, opts: Options, luck: Luck, dirs: seq<string>)
    requires Kept(p, w, id, false) && id in w.registry
    requires Applied(p, w, id, doc, opts, luck).1.Promoted?
    requires doc.Manifest? && NoNameClash(w.registry[id].app.entities, doc.app.entities) && TellsApart(p, w.registry[id].app, doc.app)
    requires Distinct(dirs) && w.registry[id].dir in dirs && forall x | x in dirs :: x in w.manifests
    ensures var (after, d) := (Applied(p, w, id, doc, opts, luck).0, w.registry[id].dir);
            && after.manifests == w.manifests[d := doc] && d in after.manifests
            && (Serves(p, after, dirs, d) <==>
                && Bootable(p, doc.app)
                && !(AllRenames(OpsFor(w, id, doc.app, opts)) && !AllBoundsKept(w.registry[id].app.entities, doc.app.entities)))
  {
    hide Kept, Applied, Prepared, Executed, NoNameClash, AllBoundsKept, AllRenames, Serves, TellsApart, ValidApp, InStep, DbBooted, CanonicalText, Placed, DistinctEntityNames, ToolsOk;
    var ra, after := w.registry[id], Applied(p, w, id, doc, opts, luck).0;
    var ops := OpsFor(w, id, doc.app, opts);
    KeptIsPlaced(p, w, id, false);
    RegisteredIsPlaced(w, id);
    KeptIsInStep(p, w, id, false);
    ApplyIsAllOrNothing(p, w, id, doc, opts, luck);
    ApplyCases(p, w, id, doc, opts, luck);
    PromotedIsDeclaredOnce(p, w, after, id, doc);
    ServesWhenDatabaseBoots(p, after, dirs, ra.dir);
    PreparedAgrees(p, ra.app, doc.app, opts.witnesses);
    if AllRenames(ops) && !AllBoundsKept(ra.app.entities, doc.app.entities) {
      ExecutedFingerprint(p, w.dbs[id], ra.app, doc.app, ops);
      InStepFingerprint(p, w.dbs[id], ra.app, false);
      DriftIsRefused(p, after.dbs[id], doc.app);
    } else if !Bootable(p, doc.app) {
      PromotedNames(p, w.dbs[id], ra.app, doc.app, opts.witnesses);
      BootRefusesNames(p, after.dbs[id], doc.app);
    } else {
      PromotionInStep(p, w.dbs[id], ra.app, doc.app, opts.witnesses, false);
      BootKeepsDb(p, after.dbs[id], doc.app, false);
    }
  }

  /** All a promoted manifest can get wrong about names is a CHECK on a column that is no expression. */
  lemma PromotedNames(p: Platform, db: Db, oldApp: App, newApp: App, witnesses: map<string, Witness>)
    requires ValidApp(oldApp) && ValidApp(newApp) && NoNameClash(oldApp.entities, newApp.entities) && InStep(p, db, oldApp, false)
    requires Executed(p, db, oldApp, newApp, Prepared(oldApp.entities, newApp.entities, witnesses), true).Ok?
    ensures !Bootable(p, newApp) ==> !NamesUsable(p, newApp)
  {
    hide Executed, Prepared, DiffOps, CatalogueButBounds, CatalogueIs, CanonicalText, NoNameClash, ValidApp, Lawful, NamesUsable, ClocksShadowed, BoundsReach, DistinctEntityNames, ToolsOk;
    var ops := Prepared(oldApp.entities, newApp.entities, witnesses);
    PreparedIsDiff(oldApp.entities, newApp.entities, witnesses);
    MigrationReachesTarget(p, db, oldApp, newApp, ops, true);
    ExecutedLawful(p, db, oldApp, newApp, ops, true);
    LawfulHasNoClocks(p, Executed(p, db, oldApp, newApp, ops, true).value, newApp);
  }

  lemma LawfulHasNoClocks(p: Platform, db: Db, app: App)
    requires Lawful(p, db) && CatalogueButBounds(db, app)
    ensures ClocksShadowed(p, AllIndexStmts(app.entities))
  {
    hide Lawful, CatalogueButBounds, ClocksShadowed, Bootable, UniquePairs;
    LawfulIsBootable(p, db, app);
    AllIndexStmtsArePairs(app.entities);
    NoClocksNoShadows(p, AllIndexStmts(app.entities));
  }

  lemma KeptIsInStep(p: Platform, w: World, id: string, exact: bool)
    requires Kept(p, w, id, exact) && id in w.registry
    ensures id in w.dbs && InStep(p, w.dbs[id], w.registry[id].app, exact)
    ensures var ra := w.registry[id]; ra.dir in w.manifests && w.manifests[ra.dir] == Manifest(ra.app)
  {
    hide InStep, ValidApp, DistinctEntityNames, ToolsOk;
    var ra := w.registry[id];
    assert Declares(w.manifests[ra.dir], id);
  }

  lemma InStepFingerprint(p: Platform, db: Db, app: App, exact: bool)
    requires InStep(p, db, app, exact)
    ensures db.fingerprint == Some(CanonicalText(p.num, app))
  {
    hide CanonicalText;
  }

  lemma PromotedIsDeclaredOnce(p: Platform, w: World, after: World, id: string, doc: Doc)
    requires Kept(p, w, id, false) && id in w.registry && doc.Manifest? && doc.app.id == id
    requires w.registry[id].dir in w.manifests && after.manifests == w.manifests[w.registry[id].dir := doc]
    ensures DeclaredOnce(after, id)
  {
    hide InStep, ValidApp, DistinctEntityNames, ToolsOk;
    assert Declares(w.manifests[w.registry[id].dir], id);
    assert forall d | d in w.manifests && Declares(w.manifests[d], id) :: d == w.registry[id].dir;
  }

  /**
   * A manifest that could not be promoted after the commit is never silently served against the
   * migrated database: the next boot serves the old manifest only if the changeset ran no SQL and
   * the file was left as it was.
   */
  lemma FailedPromotionIsDetected(p: Platform, w: World, id: string, doc: Doc, opts: Options, luck: Luck, dirs: seq<string>)
    requires Kept(p, w, id, false) && id in w.registry && doc.Manifest? && TellsApart(p, w.registry[id].app, doc.app)
    requires Applied(p, w, id, doc, opts, luck).1.PromoteFailed?
    requires Distinct(dirs) && w.registry[id].dir in dirs && forall x | x in dirs :: x in w.manifests
    ensures var (after, d) := (Applied(p, w, id, doc, opts, luck).0, w.registry[id].dir);
            && (forall x | x in dirs :: x in after.manifests)
            && (after.manifests[d].Manifest? && Serves(p, after, dirs, d)
                <==> luck.write.NotWritten? && AllRenames(OpsFor(w, id, doc.app, opts)))
  {
    hide Kept, Applied, Prepared, Executed, AllBoundsKept, AllRenames, Serves, TellsApart, ValidApp, InStep, DbBooted, CanonicalText, Placed, RunAndPromote, HasDestructive, GateOpen, DistinctEntityNames, ToolsOk;
    var ra, after := w.registry[id], Applied(p, w, id, doc, opts, luck).0;
    var ops := OpsFor(w, id, doc.app, opts);
    KeptIsPlaced(p, w, id, false);
    RegisteredIsPlaced(w, id);
    KeptIsInStep(p, w, id, false);
    FailedPromotion(p, w, id, doc, opts, luck);
    if luck.write.NotWritten? {
      assert after.manifests == w.manifests;
      PromotedIsDeclaredOnce(p, w, after, id, Manifest(ra.app));
      ServesWhenDatabaseBoots(p, after, dirs, ra.dir);
      ExecutedFingerprint(p, w.dbs[id], ra.app, doc.app, ops);
      if AllRenames(ops) {
        BootKeepsDb(p, w.dbs[id], ra.app, false);
      } else {
        PreparedAgrees(p, ra.app, doc.app, opts.witnesses);
        DriftIsRefused(p, after.dbs[id], ra.app);
      }
    }
  }

  lemma FailedPromotion(p: Platform, w: World, id: string, doc: Doc, opts: Options, luck: Luck)
    requires id in w.registry && id in w.dbs && Applied(p, w, id, doc, opts, luck).1.PromoteFailed?
    ensures var after := Applied(p, w, id, doc, opts, luck).0;
            && Accepted(doc) && doc.app.id == id && !luck.write.Written?
            && var r := Executed(p, w.dbs[id], w.registry[id].app, doc.app, OpsFor(w, id, doc.app, opts), true);
            && r.Ok? && after.dbs == w.dbs[id := r.value]
            && after.manifests == WrittenDoc(w.manifests, w.registry[id].dir, doc.app, luck.write)
  {
    hide Executed, Prepared, RunAndPromote, Applied, HasDestructive, GateOpen, ValidApp, WrittenDoc, DistinctEntityNames, ToolsOk;
    ApplyCases(p, w, id, doc, opts, luck);
    var ops := OpsFor(w, id, doc.app, opts);
    if HasDestructive(ops) {
      RunIsAllOrNothing(p, WithSnapshot(w, w.registry[id].dir, DbOf(w, id)), id, doc.app, ops, true, luck);
    } else {
      RunIsAllOrNothing(p, w, id, doc.app, ops, false, luck);
    }
  }

  /**
   * Bounds alone never move: the difference is empty, so apply reports no change and keeps the old
   * manifest, and a manifest edited by hand to the new bounds is refused by the next boot.
   */
  lemma BoundsNeverMoveAlone(p: Platform, w: World, id: string, doc: Doc, opts: Options, luck: Luck)
    requires Kept(p, w, id, false) && id in w.registry && Accepted(doc) && doc.app.id == id
    requires TellsApart(p, w.registry[id].app, doc.app)
    requires DiffOps(w.registry[id].app.entities, doc.app.entities) == []
    requires !AllBoundsKept(w.registry[id].app.entities, doc.app.entities)
    ensures Applied(p, w, id, doc, opts, luck) == (w, NoChange)
    ensures id in w.dbs && DbBooted(p, w.dbs[id], doc.app).1.Some?
  {
    hide Kept, DiffOps, AllBoundsKept, TellsApart, InStep, DbBooted, CanonicalText, Placed, RunAndPromote, ValidApp, DistinctEntityNames, ToolsOk;
    var ra := w.registry[id];
    KeptIsPlaced(p, w, id, false);
    RegisteredIsPlaced(w, id);
    KeptIsInStep(p, w, id, false);
    PreparedAgrees(p, ra.app, doc.app, opts.witnesses);
    InStepFingerprint(p, w.dbs[id], ra.app, false);
    DriftIsRefused(p, w.dbs[id], doc.app);
  }
}

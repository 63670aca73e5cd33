/** The invariant of a served app over every sequence of boots, applies and row writes. */
module WholeRuns {
  import opened Results
  import opened Schema
  import opened Validation
  import opened Sql
  import opened Materialize
  import opened MaterializeFresh
  import opened Changesets
  import opened Fingerprints
  import opened FingerprintDiff
  import opened Diffs
  import opened Executor
  import opened Naming
  import opened NativePath
  import opened Views
  import opened Gate
  import opened Reach
  import opened Hosts
  import opened Runs

  // ----- runs -----

  datatype Event =
    | Boot(dirs: seq<string>)
    | Apply(id: string, doc: Doc, opts: Options, luck: Luck)
    | WriteRows(id: string, rows: map<string, map<string, Row>>)

  /** The rows the data API may leave: SQLite lets only rows that meet the constraints in. */
  predicate Writable(p: Platform, db: Db, rows: map<string, map<string, Row>>) {
    forall t | t in rows :: t in db.tables && forall r | r in rows[t] :: RowOk(p, db.tables[t].cols, rows[t][r])
  }

  function WithRows(db: Db, rows: map<string, map<string, Row>>): Db {
    db.(tables := map t | t in db.tables ::
      if t in rows then db.tables[t].(rows := rows[t]) else db.tables[t])
  }

  function Step(p: Platform, w: World, e: Event): World {
    match e
    case Boot(dirs) =>
      if forall d | d in dirs :: d in w.manifests then BootDirs(p, Unserved(w), dirs) else w
    case Apply(id, doc, opts, luck) => Applied(p, w, id, doc, opts, luck).0
    case WriteRows(id, rows) =>
      if id in w.registry && Writable(p, DbOf(w, id), rows) then WithDb(w, id, WithRows(DbOf(w, id), rows)) else w
  }

  function After(p: Platform, w: World, events: seq<Event>): World {
    if events == [] then w
    else Step(p, After(p, w, events[..|events| - 1]), events[|events| - 1])
  }

  // ----- what is kept -----

  predicate Declares(doc: Doc, id: string) {
    Accepted(doc) && doc.app.id == id
  }

  predicate DeclaredOnce(w: World, id: string) {
    forall d, e | d in w.manifests && e in w.manifests && Declares(w.manifests[d], id) && Declares(w.manifests[e], id) :: d == e
  }

  /** Every served app has a valid schema under its own id and a directory of its own. */
  predicate Placed(w: World) {
    && (forall id | id in w.registry ::
          var ra := w.registry[id];
          && id in w.dbs && ra.app.id == id && Accepted(Manifest(ra.app)) && ra.dir in w.manifests
          && (w.manifests[ra.dir].Manifest? ==> w.manifests[ra.dir].app.id == id))
    && (forall i, j | i in w.registry && j in w.registry && w.registry[i].dir == w.registry[j].dir :: i == j)
  }

  /** The database is the manifest's, with names SQLite accepts; with `exact`, down to the min/max CHECKs. */
  ghost predicate InStep(p: Platform, db: Db, app: App, exact: bool) {
    && (if exact then CatalogueIs(db, app) else CatalogueButBounds(db, app))
    && WellShaped(db) && Lawful(p, db) && Bootable(p, app)
    && db.fingerprint == Some(CanonicalText(p.num, app))
  }

  /** What boots of the manifest leave in the database, however far they get. */
  ghost predicate Begun(p: Platform, db: Db, app: App) {
    Lawful(p, db) && Named(db, UniquePairs(app.entities))
  }

  ghost predicate ManifestsKept(p: Platform, w: World, id: string, exact: bool) {
    forall d | d in w.manifests && Declares(w.manifests[d], id) ::
      && NamesDistinct(UniquePairs(w.manifests[d].app.entities))
      && (id in w.dbs ==> Begun(p, w.dbs[id], w.manifests[d].app))
      && (id in w.dbs && Bootable(p, w.manifests[d].app) ==> InStep(p, w.dbs[id], w.manifests[d].app, exact))
  }

  /** The app's manifest on disk, its database, its recorded fingerprint and its registration agree. */
  ghost predicate Kept(p: Platform, w: World, id: string, exact: bool) {
    && Placed(w) && DeclaredOnce(w, id) && ManifestsKept(p, w, id, exact)
    && (id in w.registry ==> w.manifests[w.registry[id].dir] == Manifest(w.registry[id].app) && Bootable(p, w.registry[id].app))
  }

  /**
   * The two failures apply admits to (a torn restore, a manifest not promoted after the commit), and
   * the promotions that the difference cannot see through: one whose unique index names clash, one
   * that only renames but moves bounds, and one that moves bounds onto a column that is no expression,
   * so that the next boot's DDL is not SQL. With `exact`, so is any promotion that moves bounds.
   */
  predicate Breaks(p: Platform, w: World, id: string, e: Event, exact: bool) {
    e.Apply? && e.id == id && id in w.registry && e.doc.Manifest? &&
    match Applied(p, w, id, e.doc, e.opts, e.luck).1
    case RestoreFailed => e.luck.restore.CopyFails?
    case PromoteFailed => true
    case Promoted =>
      var olds, news := w.registry[id].app.entities, e.doc.app.entities;
      || !NoNameClash(olds, news) || !Bootable(p, e.doc.app)
      || (!AllBoundsKept(olds, news) && (exact || AllRenames(OpsFor(w, id, e.doc.app, e.opts))))
    case _ => false
  }

  // ----- an app's database across a boot -----

  lemma InStepButBounds(p: Platform, db: Db, app: App, exact: bool)
    requires InStep(p, db, app, exact)
    ensures CatalogueButBounds(db, app)
  {
    hide CatalogueIs, CatalogueButBounds;
    if exact {
      ExactButBounds(db, app);
    }
  }

  lemma {:induction false} DdlRunsThrough(p: Platform, stmts: seq<Stmt>, db: Db)
    ensures DdlApplied(p, stmts, db).1.None? <==> RunAll(p, stmts, db).Ok?
    ensures RunAll(p, stmts, db).Ok? ==> DdlApplied(p, stmts, db).0 == RunAll(p, stmts, db).value
  {
    hide Run;
    if stmts != [] {
      DdlRunsThrough(p, stmts[..|stmts| - 1], db);
    }
  }

  lemma CatalogueIsVerified(db: Db, app: App)
    requires CatalogueButBounds(db, app)
    ensures ColumnsVerified(db, app)
  {
    forall e | e in app.entities ensures EntityVerified(db, e) {
      assert e.id in EntityIds(app.entities);
    }
  }

  /** A database in step has only indexes of its manifest. */
  lemma InStepIsBegun(p: Platform, db: Db, app: App, exact: bool)
    requires InStep(p, db, app, exact)
    ensures Begun(p, db, app)
  {
    hide CatalogueIs, CatalogueButBounds, Bootable, Lawful, Named;
    InStepButBounds(p, db, app, exact);
    CatalogueIsNamed(db, app, UniquePairs(app.entities));
  }

  /** Boot changes nothing in a database that is in step. */
  lemma BootKeepsDb(p: Platform, db: Db, app: App, exact: bool)
    requires InStep(p, db, app, exact)
    ensures DbBooted(p, db, app) == (db, None)
  {
    hide CatalogueIs, CatalogueButBounds, CanonicalText, ColumnsVerified, RunAll, DdlApplied, Bootable, NamesUsable, Lawful;
    InStepButBounds(p, db, app, exact);
    BootableIsUsable(p, app);
    MaterializeIsIdempotent(p, app, db);
    DdlRunsThrough(p, Ddl(app), db);
    CatalogueIsVerified(db, app);
  }

  lemma BootableIsUsable(p: Platform, app: App)
    requires Bootable(p, app)
    ensures NamesUsable(p, app)
  {
  }

  /** Whatever its database, an app whose names SQL cannot use is never served. */
  lemma BootRefusesNames(p: Platform, db: Db, app: App)
    requires !NamesUsable(p, app)
    ensures DbBooted(p, db, app).1.Some?
  {
    hide CanonicalText, ColumnsVerified, RunAll, DdlApplied, NamesUsable;
    DdlRunsThrough(p, Ddl(app), db);
    if RunAll(p, Ddl(app), db).Ok? {
      DdlNeedsNames(p, app, db);
    }
  }

  /** Creating a manifest's tables and indexes, as far as it gets, leaves lawful names and no other index. */
  lemma {:induction false} DdlBegins(p: Platform, stmts: seq<Stmt>, db: Db, pairs: set<(string, string)>)
    requires Lawful(p, db) && Named(db, pairs)
    requires forall s | s in stmts :: s.CreateTable? || (s.CreateUniqueIndex? && (s.name, s.col) in pairs && s == IndexStmtOf((s.name, s.col)))
    ensures var after := DdlApplied(p, stmts, db).0; Lawful(p, after) && Named(after, pairs)
  {
    hide Lawful, Named, RunCreateTable, RunCreateUniqueIndex, IndexName;
    if stmts != [] {
      var rest, s := stmts[..|stmts| - 1], stmts[|stmts| - 1];
      assert s in stmts && forall x | x in rest :: x in stmts;
      DdlBegins(p, rest, db, pairs);
      var before := DdlApplied(p, rest, db).0;
      if Run(p, s, before).Ok? {
        CreateBegins(p, s, before, pairs);
      }
    }
  }

  lemma CreateBegins(p: Platform, s: Stmt, db: Db, pairs: set<(string, string)>)
    requires Lawful(p, db) && Named(db, pairs) && Run(p, s, db).Ok?
    requires s.CreateTable? || (s.CreateUniqueIndex? && (s.name, s.col) in pairs && s == IndexStmtOf((s.name, s.col)))
    ensures Lawful(p, Run(p, s, db).value) && Named(Run(p, s, db).value, pairs)
  {
    hide Lawful, UsableTable, UsableColumns, NoDuplicates, IndexName;
    var after := Run(p, s, db).value;
    if s.CreateTable? {
      CreateTableLawful(p, db, s.name, s.cols, s.ifNotExists);
    } else {
      CreateIndexLawful(p, db, s.index, s.name, s.col);
    }
    forall t, c, i | Holds(after, t, c, i) ensures i == IndexName(t, c) && (t, c) in pairs {
      if !(s.CreateUniqueIndex? && t == s.name && c == s.col && i == s.index) {
        assert Holds(db, t, c, i);
      }
    }
  }

  lemma BootBegins(p: Platform, db: Db, app: App)
    requires Begun(p, db, app)
    ensures Begun(p, DbBooted(p, db, app).0, app)
  {
    hide CanonicalText, ColumnsVerified, DdlApplied, Lawful, Named, UniquePairs, IndexName;
    AllCreatesAreTables(app.entities);
    AllIndexStmtsArePairs(app.entities);
    DdlBegins(p, Ddl(app), db, UniquePairs(app.entities));
    var made := DdlApplied(p, Ddl(app), db).0;
    assert DbBooted(p, db, app).0.tables == made.tables;
    SameTablesLawful(p, made, DbBooted(p, db, app).0);
    SameTablesNamed(made, DbBooted(p, db, app).0, UniquePairs(app.entities));
  }

  lemma SameTablesNamed(a: Db, b: Db, pairs: set<(string, string)>)
    requires a.tables == b.tables && Named(a, pairs)
    ensures Named(b, pairs)
  {
    forall t, c, i | Holds(b, t, c, i) ensures i == IndexName(t, c) && (t, c) in pairs {
      assert Holds(a, t, c, i);
    }
  }

  lemma {:induction false} AllCreatesAreTables(entities: seq<Entity>)
    ensures forall s | s in CreateStmts(entities) :: s.CreateTable?
  {
    if entities != [] {
      AllCreatesAreTables(entities[..|entities| - 1]);
    }
  }

  lemma EmptyIsBegun(p: Platform, app: App)
    ensures Begun(p, EMPTY_DB, app)
  {
  }

  /** On a database that only boots of the manifest have touched, no index on the clock is ever let through. */
  lemma {:induction false} ClocksStop(p: Platform, stmts: seq<Stmt>, db: Db, pairs: set<(string, string)>)
    requires Lawful(p, db) && Named(db, pairs) && NamesDistinct(pairs)
    requires forall s | s in stmts :: s.CreateUniqueIndex? && (s.name, s.col) in pairs && s == IndexStmtOf((s.name, s.col))
    requires RunAll(p, stmts, db).Ok?
    ensures Lawful(p, RunAll(p, stmts, db).value) && Named(RunAll(p, stmts, db).value, pairs)
    ensures forall s | s in stmts :: s.col !in p.clock
  {
    hide Lawful, Named, NamesDistinct, RunCreateUniqueIndex, IndexName;
    if stmts != [] {
      var rest, s := stmts[..|stmts| - 1], stmts[|stmts| - 1];
      assert s in stmts && forall x | x in stmts :: x in rest || x == s;
      ClocksStop(p, rest, db, pairs);
      var mid := RunAll(p, rest, db).value;
      CreateBegins(p, s, mid, pairs);
      OneClockStops(p, s, mid, pairs);
    }
  }

  lemma OneClockStops(p: Platform, s: Stmt, db: Db, pairs: set<(string, string)>)
    requires Lawful(p, db) && Named(db, pairs) && NamesDistinct(pairs)
    requires s.CreateUniqueIndex? && (s.name, s.col) in pairs && s == IndexStmtOf((s.name, s.col)) && Run(p, s, db).Ok?
    ensures s.col !in p.clock
  {
    hide UsableTable, UsableColumns, NoDuplicates, IndexName;
    if IndexTaken(db, s.index) {
      TakenMeansIndexed(db, pairs, s.name, s.col);
      assert Readable(p, s.col);
    }
  }

  /** Nor is an app served whose index would read the clock, where index names are used once. */
  lemma BootRefusesClocks(p: Platform, db: Db, app: App)
    requires !Bootable(p, app) && Begun(p, db, app) && NamesDistinct(UniquePairs(app.entities))
    ensures DbBooted(p, db, app).1.Some?
  {
    hide CanonicalText, ColumnsVerified, RunAll, DdlApplied, NamesUsable, Lawful, Named, NamesDistinct, UniquePairs, ClocksShadowed, IndexName;
    if !NamesUsable(p, app) {
      BootRefusesNames(p, db, app);
    } else {
      DdlRunsThrough(p, Ddl(app), db);
      if RunAll(p, Ddl(app), db).Ok? {
        RunAllAppend(p, CreateStmts(app.entities), AllIndexStmts(app.entities), db);
        AllCreatesAreTables(app.entities);
        AllIndexStmtsArePairs(app.entities);
        DdlRunsThrough(p, CreateStmts(app.entities), db);
        DdlBegins(p, CreateStmts(app.entities), db, UniquePairs(app.entities));
        ClocksStop(p, AllIndexStmts(app.entities), RunAll(p, CreateStmts(app.entities), db).value, UniquePairs(app.entities));
        NoClocksNoShadows(p, AllIndexStmts(app.entities));
      }
    }
  }

  lemma NoClocksNoShadows(p: Platform, stmts: seq<Stmt>)
    requires forall s | s in stmts && s.CreateUniqueIndex? :: s.col !in p.clock
    ensures ClocksShadowed(p, stmts)
  {
    forall i | 0 <= i < |stmts| && stmts[i].CreateUniqueIndex? ensures stmts[i].col !in p.clock {
      assert stmts[i] in stmts;
    }
  }

  lemma FreshIsShaped(db: Db, app: App)
    requires CatalogueIs(db, app) && JustCreated(db)
    ensures WellShaped(db)
  {
    forall t | t in db.tables ensures Shaped(db.tables[t]) {
      var e :| e in app.entities && e.id == t;
      assert Matches(db.tables[t], e);
      assert UniqueIds(e.fields) <= FieldIds(e.fields);
    }
  }

  /** On the first boot of an app, names are all that can go wrong. */
  lemma BootMakesDb(p: Platform, app: App, exact: bool)
    requires ValidApp(app) && NamesDistinct(UniquePairs(app.entities)) && Bootable(p, app)
    ensures DbBooted(p, EMPTY_DB, app).1 == None && InStep(p, DbBooted(p, EMPTY_DB, app).0, app, exact)
  {
    hide ValidApp, NamesDistinct, CatalogueIs, CatalogueButBounds, CanonicalText, ColumnsVerified, RunAll, DdlApplied, EMPTY_DB, DistinctEntityNames, ToolsOk, Bootable, Lawful;
    MaterializeFreshReachesCatalogue(p, app);
    var db := RunAll(p, Ddl(app), EMPTY_DB).value;
    ExactButBounds(db, app);
    FreshIsShaped(db, app);
    FreshIsLawful(p, app);
    DdlRunsThrough(p, Ddl(app), EMPTY_DB);
    CatalogueIsVerified(db, app);
    var after := DbBooted(p, EMPTY_DB, app).0;
    assert after.tables == db.tables;
    SameTablesSameCatalogue(db, after, app);
    SameTablesLawful(p, db, after);
  }

  lemma {:induction false} CreatesLawful(p: Platform, entities: seq<Entity>, db: Db)
    requires Lawful(p, db) && RunAll(p, CreateStmts(entities), db).Ok?
    ensures Lawful(p, RunAll(p, CreateStmts(entities), db).value)
  {
    hide Lawful, RunCreateTable, Columns;
    if entities != [] {
      var rest, e := entities[..|entities| - 1], entities[|entities| - 1];
      CreatesLawful(p, rest, db);
      CreateTableLawful(p, RunAll(p, CreateStmts(rest), db).value, e.id, Columns(e.fields), true);
    }
  }

  lemma {:induction false} AllIndexesLawful(p: Platform, entities: seq<Entity>, db: Db)
    requires Lawful(p, db) && RunAll(p, AllIndexStmts(entities), db).Ok?
    ensures Lawful(p, RunAll(p, AllIndexStmts(entities), db).value)
  {
    hide Lawful, IndexStmts;
    if entities != [] {
      var rest, e := entities[..|entities| - 1], entities[|entities| - 1];
      RunAllAppend(p, AllIndexStmts(rest), IndexStmts(e.id, e.id, e.fields), db);
      AllIndexesLawful(p, rest, db);
      IndexStmtsLawful(p, RunAll(p, AllIndexStmts(rest), db).value, e.id, e.fields);
    }
  }

  lemma FreshIsLawful(p: Platform, app: App)
    requires RunAll(p, Ddl(app), EMPTY_DB).Ok?
    ensures Lawful(p, RunAll(p, Ddl(app), EMPTY_DB).value)
  {
    hide Lawful, RunAll, CreateStmts, AllIndexStmts;
    EmptyIsLawful(p);
    RunAllAppend(p, CreateStmts(app.entities), AllIndexStmts(app.entities), EMPTY_DB);
    CreatesLawful(p, app.entities, EMPTY_DB);
    AllIndexesLawful(p, app.entities, RunAll(p, CreateStmts(app.entities), EMPTY_DB).value);
  }

  lemma SameTablesSameCatalogue(a: Db, b: Db, app: App)
    requires a.tables == b.tables
    ensures CatalogueIs(a, app) <==> CatalogueIs(b, app)
    ensures CatalogueButBounds(a, app) <==> CatalogueButBounds(b, app)
    ensures WellShaped(a) <==> WellShaped(b)
  {
  }

  // ----- one directory -----

  /** What one directory's boot does to the world, seen from the app it declares. */
  lemma BootDirOutcome(p: Platform, w: World, dir: string)
    requires dir in w.manifests
    ensures var (after, fault) := BootDir(p, w, dir);
            && after.manifests == w.manifests
            && (!Accepted(w.manifests[dir]) ==> after == w && fault.Some?)
            && (Accepted(w.manifests[dir]) ==>
                  var app := w.manifests[dir].app;
                  && after.dbs == w.dbs[app.id := DbBooted(p, DbOf(w, app.id), app).0]
                  && fault == DbBooted(p, DbOf(w, app.id), app).1
                  && after.registry == if fault.Some? then w.registry else w.registry[app.id := Registered(app, dir)])
  {
    hide DbBooted, ValidApp, DistinctEntityNames, ToolsOk;
  }

  lemma BootDirPlaces(p: Platform, w: World, dir: string)
    requires dir in w.manifests && Placed(w)
    ensures Placed(BootDir(p, w, dir).0)
  {
    hide BootDir, DbBooted, ValidApp, DistinctEntityNames, ToolsOk;
    BootDirOutcome(p, w, dir);
  }

  lemma BootDirKeeps(p: Platform, w: World, dir: string, id: string, exact: bool)
    requires dir in w.manifests && Kept(p, w, id, exact)
    ensures Kept(p, BootDir(p, w, dir).0, id, exact)
  {
    hide BootDir, DbBooted, InStep, Begun, ValidApp, NamesDistinct, UniquePairs, Placed, DistinctEntityNames, ToolsOk, Bootable;
    BootDirOutcome(p, w, dir);
    BootDirPlaces(p, w, dir);
    var doc := w.manifests[dir];
    if Declares(doc, id) {
      EmptyIsBegun(p, doc.app);
      BootBegins(p, DbOf(w, id), doc.app);
      if !Bootable(p, doc.app) {
        BootRefusesClocks(p, DbOf(w, id), doc.app);
      } else if id in w.dbs {
        BootKeepsDb(p, w.dbs[id], doc.app, exact);
      } else {
        BootMakesDb(p, doc.app, exact);
      }
    }
  }

  lemma {:induction false} BootKeeps(p: Platform, w: World, dirs: seq<string>, id: string, exact: bool)
    requires forall d | d in dirs :: d in w.manifests
    requires Kept(p, w, id, exact)
    ensures Kept(p, BootDirs(p, w, dirs), id, exact)
  {
    hide BootDir, Kept;
    if dirs != [] {
      BootKeeps(p, w, dirs[..|dirs| - 1], id, exact);
      BootDirKeeps(p, BootDirs(p, w, dirs[..|dirs| - 1]), dirs[|dirs| - 1], id, exact);
    }
  }

  lemma RestartKeeps(p: Platform, w: World, id: string, exact: bool)
    requires Kept(p, w, id, exact)
    ensures Kept(p, Unserved(w), id, exact)
  {
    hide InStep, ValidApp, NamesDistinct, UniquePairs, DistinctEntityNames, ToolsOk, Bootable;
  }

  // ----- row writes -----

  lemma WritesKeepNames(p: Platform, db: Db, rows: map<string, map<string, Row>>)
    requires Lawful(p, db)
    ensures Lawful(p, WithRows(db, rows))
  {
    hide UsableTable, UsableColumns;
    var after := WithRows(db, rows);
    forall t, c, i | Holds(after, t, c, i) ensures i !in after.tables {
      assert Holds(db, t, c, i);
    }
  }

  lemma WritesKeepCatalogue(p: Platform, db: Db, rows: map<string, map<string, Row>>, app: App, exact: bool)
    requires Writable(p, db, rows) && InStep(p, db, app, exact)
    ensures InStep(p, WithRows(db, rows), app, exact)
  {
    hide Columns, Indexes, CanonicalText, SameButBounds, Stored, Satisfies, Lawful;
    WritesKeepNames(p, db, rows);
    var after := WithRows(db, rows);
    assert after.tables.Keys == db.tables.Keys;
    forall t | t in db.tables
      ensures after.tables[t].cols == db.tables[t].cols && after.tables[t].indexes == db.tables[t].indexes
      ensures Shaped(after.tables[t])
    {
      assert Shaped(db.tables[t]);
    }
    forall e | e in app.entities ensures e.id in db.tables {
      assert e.id in EntityIds(app.entities);
    }
  }

  lemma WritesKeepBegun(p: Platform, db: Db, rows: map<string, map<string, Row>>, app: App)
    requires Begun(p, db, app)
    ensures Begun(p, WithRows(db, rows), app)
  {
    hide Lawful, IndexName, UniquePairs;
    WritesKeepNames(p, db, rows);
    var after := WithRows(db, rows);
    forall t, c, i | Holds(after, t, c, i) ensures i == IndexName(t, c) && (t, c) in UniquePairs(app.entities) {
      assert Holds(db, t, c, i);
    }
  }

  lemma WriteKeepsManifests(p: Platform, w: World, writer: string, rows: map<string, map<string, Row>>, id: string, exact: bool)
    requires ManifestsKept(p, w, id, exact) && writer in w.dbs && Writable(p, w.dbs[writer], rows)
    ensures ManifestsKept(p, WithDb(w, writer, WithRows(w.dbs[writer], rows)), id, exact)
  {
    hide InStep, Begun, ValidApp, DistinctEntityNames, ToolsOk, NamesDistinct, UniquePairs, WithRows, Writable, Bootable;
    if writer == id {
      forall d | d in w.manifests && Declares(w.manifests[d], id) ensures Begun(p, WithRows(w.dbs[id], rows), w.manifests[d].app) {
        WritesKeepBegun(p, w.dbs[id], rows, w.manifests[d].app);
      }
      forall d | d in w.manifests && Declares(w.manifests[d], id) && Bootable(p, w.manifests[d].app)
        ensures InStep(p, WithRows(w.dbs[id], rows), w.manifests[d].app, exact)
      {
        WritesKeepCatalogue(p, w.dbs[id], rows, w.manifests[d].app, exact);
      }
    }
  }

  lemma WriteKeeps(p: Platform, w: World, writer: string, rows: map<string, map<string, Row>>, id: string, exact: bool)
    requires Kept(p, w, id, exact)
    ensures Kept(p, Step(p, w, WriteRows(writer, rows)), id, exact)
  {
    hide ManifestsKept, Accepted, WithRows, Writable, Bootable;
    if writer in w.registry && Writable(p, DbOf(w, writer), rows) {
      WriteKeepsManifests(p, w, writer, rows, id, exact);
    }
  }

  // ----- applies -----

  lemma PromotionPlaces(p: Platform, w: World, after: World, who: string, newApp: App, ops: seq<Operation>)
    requires Placed(w) && who in w.registry && Accepted(Manifest(newApp)) && newApp.id == who
    requires IsPromotion(p, w, after, who, newApp, ops)
    ensures Placed(after)
  {
    hide Executed, ValidApp, DistinctEntityNames, ToolsOk;
  }

  /** Whatever apply does to one app, it leaves the others' manifests and databases alone. */
  lemma ApplyLeavesOthers(p: Platform, w: World, who: string, doc: Doc, opts: Options, luck: Luck)
    requires who in w.registry ==> who in w.dbs
    ensures var after := Applied(p, w, who, doc, opts, luck).0;
            && (after.registry == w.registry ||
                (who in w.registry && Accepted(doc) && doc.app.id == who
                 && after.registry == w.registry[who := Registered(doc.app, w.registry[who].dir)]))
            && (after.manifests == w.manifests ||
                (who in w.registry && Accepted(doc) && doc.app.id == who
                 && (after.manifests == w.manifests[w.registry[who].dir := Manifest(doc.app)]
                     || after.manifests == w.manifests[w.registry[who].dir := Malformed])))
            && (forall other | other != who ::
                  (other in after.dbs <==> other in w.dbs) && (other in w.dbs ==> after.dbs[other] == w.dbs[other]))
            && (who in after.dbs <==> who in w.dbs)
  {
    hide Executed, Prepared, RunAndPromote, Applied, HasDestructive, GateOpen, ValidApp, DistinctEntityNames, ToolsOk;
    ApplyCases(p, w, who, doc, opts, luck);
    var outcome := Applied(p, w, who, doc, opts, luck).1;
    if outcome.Promoted? || outcome.PromoteFailed? || outcome.RolledBack? || outcome.RestoreFailed? {
      var ops := OpsFor(w, who, doc.app, opts);
      if HasDestructive(ops) {
        RunIsAllOrNothing(p, WithSnapshot(w, w.registry[who].dir, DbOf(w, who)), who, doc.app, ops, true, luck);
      } else {
        RunIsAllOrNothing(p, w, who, doc.app, ops, false, luck);
      }
    }
  }

  lemma KeptBoundsReach(olds: seq<Entity>, news: seq<Entity>, ops: seq<Operation>)
    requires AllBoundsKept(olds, news)
    ensures forall ne | ne in news :: BoundsReach(olds, ne, ops)
  {
    hide BoundsKept, NeedsRebuild, OpsOf;
  }

  /** The fingerprint an executed changeset leaves. */
  lemma ExecutedFingerprint(p: Platform, db: Db, oldApp: App, newApp: App, ops: seq<Operation>)
    requires Executed(p, db, oldApp, newApp, ops, true).Ok?
    ensures var after := Executed(p, db, oldApp, newApp, ops, true).value;
            if AllRenames(ops) then after == db else after.fingerprint == Some(CanonicalText(p.num, newApp))
  {
    hide ApplyOps, CanonicalText, ForeignKeysHold;
  }

  /** A promotion that does not break leaves the database in step with the new manifest. */
  lemma PromotionInStep(p: Platform, db: Db, oldApp: App, newApp: App, witnesses: map<string, Witness>, exact: bool)
    requires ValidApp(oldApp) && ValidApp(newApp) && NoNameClash(oldApp.entities, newApp.entities)
    requires InStep(p, db, oldApp, exact) && Bootable(p, newApp)
    requires var ops := Prepared(oldApp.entities, newApp.entities, witnesses);
             && Executed(p, db, oldApp, newApp, ops, true).Ok?
             && (AllBoundsKept(oldApp.entities, newApp.entities) || (!exact && !AllRenames(ops)))
    ensures InStep(p, Executed(p, db, oldApp, newApp, Prepared(oldApp.entities, newApp.entities, witnesses), true).value, newApp, exact)
  {
    hide Executed, Prepared, DiffOps, CatalogueIs, CatalogueButBounds, CanonicalText, NoNameClash, ValidApp, AllBoundsKept, AllRenames, BoundsReach, WellFormed, DistinctEntityNames, ToolsOk, Lawful, Bootable;
    var olds, news := oldApp.entities, newApp.entities;
    var ops := Prepared(olds, news, witnesses);
    InStepButBounds(p, db, oldApp, exact);
    PreparedIsDiff(olds, news, witnesses);
    MigrationReachesTarget(p, db, oldApp, newApp, ops, true);
    ExecutedFingerprint(p, db, oldApp, newApp, ops);
    ExecutedLawful(p, db, oldApp, newApp, ops, true);
    if AllBoundsKept(olds, news) {
      KeptBoundsReach(olds, news, ops);
    }
    if AllRenames(ops) {
      NeedsRebuildOfSameChanges(ops, DiffOps(olds, news));
      ValidIsWellFormed(oldApp);
      ValidIsWellFormed(newApp);
      RenamesKeepText(p.num, oldApp, newApp);
    }
  }

  lemma NamesOfNew(olds: seq<Entity>, news: seq<Entity>)
    requires NoNameClash(olds, news)
    ensures NamesDistinct(UniquePairs(news))
  {
    hide UniquePairs;
  }

  lemma PromotionKeeps(p: Platform, w: World, after: World, id: string, doc: Doc, opts: Options, exact: bool)
    requires Kept(p, w, id, exact) && id in w.registry && Accepted(doc) && doc.app.id == id
    requires IsPromotion(p, w, after, id, doc.app, OpsFor(w, id, doc.app, opts))
    requires var olds, news := w.registry[id].app.entities, doc.app.entities;
             && NoNameClash(olds, news) && Bootable(p, doc.app)
             && (AllBoundsKept(olds, news) || (!exact && !AllRenames(OpsFor(w, id, doc.app, opts))))
    ensures Kept(p, after, id, exact)
  {
    hide InStep, Executed, Prepared, NoNameClash, AllBoundsKept, AllRenames, NamesDistinct, UniquePairs, ValidApp, Placed, DistinctEntityNames, ToolsOk, Bootable;
    var ra := w.registry[id];
    RegisteredIsPlaced(w, id);
    PromotionPlaces(p, w, after, id, doc.app, OpsFor(w, id, doc.app, opts));
    PromotionInStep(p, w.dbs[id], ra.app, doc.app, opts.witnesses, exact);
    InStepIsBegun(p, after.dbs[id], doc.app, exact);
    NamesOfNew(ra.app.entities, doc.app.entities);
    assert Declares(w.manifests[ra.dir], id);
    assert forall d | d in w.manifests && Declares(w.manifests[d], id) :: d == ra.dir;
  }

  lemma RegisteredIsPlaced(w: World, id: string)
    requires Placed(w) && id in w.registry
    ensures var ra := w.registry[id]; id in w.dbs && ra.app.id == id && Accepted(Manifest(ra.app)) && ra.dir in w.manifests
  {
    hide ValidApp, DistinctEntityNames, ToolsOk;
  }

  lemma SameButSnapshotsKeeps(p: Platform, w: World, after: World, id: string, exact: bool)
    requires Kept(p, w, id, exact) && SameButSnapshots(w, after)
    ensures Kept(p, after, id, exact)
  {
    hide InStep, NamesDistinct, UniquePairs, ValidApp, DistinctEntityNames, ToolsOk;
  }

  lemma OwnApplyKeeps(p: Platform, w: World, id: string, doc: Doc, opts: Options, luck: Luck, exact: bool)
    requires Kept(p, w, id, exact) && !Breaks(p, w, id, Apply(id, doc, opts, luck), exact)
    ensures Kept(p, Applied(p, w, id, doc, opts, luck).0, id, exact)
  {
    hide Kept, Applied, IsPromotion, NoNameClash, AllBoundsKept, AllRenames, Prepared, ValidApp, Placed, DistinctEntityNames, ToolsOk;
    var (after, outcome) := Applied(p, w, id, doc, opts, luck);
    if id in w.registry {
      KeptIsPlaced(p, w, id, exact);
      RegisteredIsPlaced(w, id);
    }
    ApplyIsAllOrNothing(p, w, id, doc, opts, luck);
    ApplyCases(p, w, id, doc, opts, luck);
    if SameButSnapshots(w, after) {
      SameButSnapshotsKeeps(p, w, after, id, exact);
    } else {
      PromotionKeeps(p, w, after, id, doc, opts, exact);
    }
  }

  lemma KeptIsPlaced(p: Platform, w: World, id: string, exact: bool)
    requires Kept(p, w, id, exact)
    ensures Placed(w)
  {
  }

  predicate Replaces(w: World, who: string, doc: Doc) {
    who in w.registry && doc.Manifest? && Accepted(doc) && doc.app.id == who
  }

  lemma ManifestPlaces(w: World, who: string, doc: Doc)
    requires Placed(w) && who in w.registry && (doc.Manifest? ==> doc.app.id == who)
    ensures Placed(w.(manifests := w.manifests[w.registry[who].dir := doc]))
  {
    hide Accepted;
  }

  lemma RegistrationPlaces(w: World, who: string, app: App)
    requires Placed(w) && who in w.registry && Accepted(Manifest(app)) && app.id == who
    ensures Placed(w.(registry := w.registry[who := Registered(app, w.registry[who].dir)]))
  {
    hide Accepted;
  }

  lemma ApplyPlaces(p: Platform, w: World, after: World, who: string, doc: Doc)
    requires Placed(w)
    requires after.dbs.Keys == w.dbs.Keys
    requires after.registry == w.registry ||
             (Replaces(w, who, doc) && after.registry == w.registry[who := Registered(doc.app, w.registry[who].dir)])
    requires after.manifests == w.manifests ||
             (Replaces(w, who, doc)
              && (after.manifests == w.manifests[w.registry[who].dir := doc]
                  || after.manifests == w.manifests[w.registry[who].dir := Malformed]))
    ensures Placed(after)
  {
    hide Placed, ValidApp, DistinctEntityNames, ToolsOk;
    var mid := w;
    if Replaces(w, who, doc) {
      ManifestPlaces(w, who, doc);
      ManifestPlaces(w, who, Malformed);
      mid := w.(manifests := after.manifests);
      assert Placed(mid);
      RegistrationPlaces(mid, who, doc.app);
      mid := mid.(registry := after.registry);
    }
    SameKeysPlaced(mid, after);
  }

  lemma SameKeysPlaced(w: World, after: World)
    requires Placed(w) && after.dbs.Keys == w.dbs.Keys && after.registry == w.registry && after.manifests == w.manifests
    ensures Placed(after)
  {
    hide Accepted;
  }

  lemma OtherApplyKeeps(p: Platform, w: World, who: string, doc: Doc, opts: Options, luck: Luck, id: string, exact: bool)
    requires Kept(p, w, id, exact) && who != id
    ensures Kept(p, Applied(p, w, who, doc, opts, luck).0, id, exact)
  {
    hide Applied, InStep, NamesDistinct, UniquePairs, ValidApp, Placed, DistinctEntityNames, ToolsOk;
    var after := Applied(p, w, who, doc, opts, luck).0;
    if who in w.registry {
      RegisteredIsPlaced(w, who);
      assert w.registry[who].dir in w.manifests;
    }
    ApplyLeavesOthers(p, w, who, doc, opts, luck);
    KeysKept(w.dbs, after.dbs, who);
    ApplyPlaces(p, w, after, who, doc);
    if who in w.registry {
      OtherDirectory(w, who, id);
    }
  }

  lemma KeysKept(a: map<string, Db>, b: map<string, Db>, who: string)
    requires forall x | x != who :: x in b <==> x in a
    requires who in b <==> who in a
    ensures b.Keys == a.Keys
  {
  }

  /** An app's directory does not declare another app, nor serve one. */
  lemma OtherDirectory(w: World, who: string, id: string)
    requires Placed(w) && who in w.registry && who != id
    ensures !Declares(w.manifests[w.registry[who].dir], id)
    ensures id in w.registry ==> w.registry[id].dir != w.registry[who].dir
  {
    hide ValidApp, DistinctEntityNames, ToolsOk;
  }

  // ----- whole runs -----

  lemma StepKeeps(p: Platform, w: World, e: Event, id: string, exact: bool)
    requires Kept(p, w, id, exact) && !Breaks(p, w, id, e, exact)
    ensures Kept(p, Step(p, w, e), id, exact)
  {
    hide Kept, Applied, Breaks, Writable, WithRows;
    match e {
      case Boot(dirs) =>
        if forall d | d in dirs :: d in w.manifests {
          RestartKeeps(p, w, id, exact);
          BootKeeps(p, Unserved(w), dirs, id, exact);
        }
      case Apply(who, doc, opts, luck) =>
        if who == id {
          OwnApplyKeeps(p, w, id, doc, opts, luck, exact);
        } else {
          OtherApplyKeeps(p, w, who, doc, opts, luck, id, exact);
        }
      case WriteRows(who, rows) =>
        WriteKeeps(p, w, who, rows, id, exact);
    }
  }

  /** A host before its first boot, with the app's id and unique index names used once. */
  predicate Untouched(w: World, id: string) {
    && w.dbs == map[] && w.registry == map[] && DeclaredOnce(w, id)
    && forall d | d in w.manifests && Declares(w.manifests[d], id) :: NamesDistinct(UniquePairs(w.manifests[d].app.entities))
  }

  predicate Unbroken(p: Platform, w: World, id: string, events: seq<Event>, exact: bool) {
    forall i | 0 <= i < |events| :: !Breaks(p, After(p, w, events[..i]), id, events[i], exact)
  }

  /**
   * The whole-run invariant. From a first boot on, over every sequence of restarts, applies
   * (unchanged, refused, failed and restored, promoted), row writes and failures of other apps, as
   * long as no event breaks this app, its recorded fingerprint is that of its registered schema,
   * which is the manifest on disk, and its database has that schema's catalogue.
   */
  lemma {:induction false} RunsKeep(p: Platform, w: World, id: string, events: seq<Event>, exact: bool)
    requires Untouched(w, id) && Unbroken(p, w, id, events, exact)
    ensures Kept(p, After(p, w, events), id, exact)
  {
    hide Kept, Untouched, Breaks, Step;
    if events == [] {
      UntouchedIsKept(p, w, id, exact);
    } else {
      var rest, e := events[..|events| - 1], events[|events| - 1];
      forall i | 0 <= i < |rest| ensures !Breaks(p, After(p, w, rest[..i]), id, rest[i], exact) {
        assert events[..i] == rest[..i] && rest[i] == events[i];
      }
      assert events[..|rest|] == rest;
      RunsKeep(p, w, id, rest, exact);
      StepKeeps(p, After(p, w, rest), e, id, exact);
    }
  }

  lemma UntouchedIsKept(p: Platform, w: World, id: string, exact: bool)
    requires Untouched(w, id)
    ensures Kept(p, w, id, exact)
  {
    hide NamesDistinct, UniquePairs, ValidApp, DistinctEntityNames, ToolsOk, Bootable;
  }
}

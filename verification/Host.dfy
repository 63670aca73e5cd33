/**
 * engine/migrate/apply.go, engine/migrate/snapshot.go and engine/registry/boot.go: what booting and
 * applying a manifest do to the disk, the databases, the snapshots and the registry of served apps.
 */
module Hosts {
  import opened Results
  import opened Schema
  import opened Validation
  import opened Sql
  import opened Materialize
  import opened Changesets
  import opened Fingerprints
  import opened Diffs
  import opened Executor
  import opened Gate

  /** The bytes of a manifest.json: unparseable, or a manifest that may still fail validation. */
  datatype Doc = Malformed | Manifest(app: App)

  datatype Registered = Registered(app: App, dir: string)

  /** Manifests by directory, databases by app id, snapshots by directory (oldest first), registry by app id. */
  datatype World = World(
    manifests: map<string, Doc>,
    dbs: map<string, Db>,
    snaps: map<string, seq<Db>>,
    registry: map<string, Registered>)

  datatype Options = Options(confirm: bool, witnesses: map<string, Witness>)

  // ----- what the file system and SQLite may do wrong -----

  datatype SnapshotLuck = Taken | NoSnapshot | TornSnapshot(left: Db)
  datatype RestoreLuck = Restored | CloseFails | CopyFails(left: Db) | ReopenFails
  datatype WriteLuck = Written | NotWritten | TornManifest

  datatype Luck = Luck(snapshot: SnapshotLuck, commits: bool, restore: RestoreLuck, write: WriteLuck, prunes: bool)

  datatype Outcome =
    | UnknownApp
    | InvalidManifest
    | WrongId
    | NoChange
    | NeedsConfirmation
    | NeedsWitness
    | SnapshotFailed
    | RolledBack
    | RestoreFailed
    | PromoteFailed
    | Promoted

  const DEFAULT_RETENTION := 5

  /** validate.Manifest reports nothing (Validation.CheckedIsValid). */
  predicate Accepted(doc: Doc) {
    doc.Manifest? && ValidApp(doc.app) && DistinctEntityNames(doc.app.entities) && ToolsOk(doc.app, doc.app.tools)
  }

  function DbOf(w: World, id: string): Db {
    if id in w.dbs then w.dbs[id] else EMPTY_DB
  }

  function SnapsOf(w: World, dir: string): seq<Db> {
    if dir in w.snaps then w.snaps[dir] else []
  }

  function WithDb(w: World, id: string, db: Db): World {
    w.(dbs := w.dbs[id := db])
  }

  function WithSnapshot(w: World, dir: string, db: Db): World {
    w.(snaps := w.snaps[dir := SnapsOf(w, dir) + [db]])
  }

  // ----- apply -----

  /** Prune: the most recent `keep` snapshots; a keep of zero disables retention. */
  function Pruned(snaps: seq<Db>, keep: nat): seq<Db> {
    if keep == 0 || |snaps| <= keep then snaps else snaps[|snaps| - keep..]
  }

  /** restoreInPlace: the database file is overwritten by the snapshot, if the copy succeeds. */
  function RestoredDb(db: Db, snapshot: Db, luck: RestoreLuck): Db {
    match luck
    case Restored => snapshot
    case CloseFails => db
    case CopyFails(left) => left
    case ReopenFails => snapshot
  }

  /** Writing manifest.json truncates it first. */
  function WrittenDoc(docs: map<string, Doc>, dir: string, app: App, luck: WriteLuck): map<string, Doc> {
    match luck
    case Written => docs[dir := Manifest(app)]
    case NotWritten => docs
    case TornManifest => docs[dir := Malformed]
  }

  /** After the commit: the manifest is written, the schema registered and old snapshots pruned. */
  function Promotion(w: World, id: string, newApp: App, db: Db, snapped: bool, luck: Luck): (World, Outcome)
    requires id in w.registry
  {
    var dir := w.registry[id].dir;
    var promoted := WithDb(w, id, db).(manifests := WrittenDoc(w.manifests, dir, newApp, luck.write));
    if !luck.write.Written? then (promoted, PromoteFailed)
    else
      var registered := promoted.(registry := w.registry[id := Registered(newApp, dir)]);
      (if snapped && luck.prunes
       then registered.(snaps := w.snaps[dir := Pruned(SnapsOf(w, dir), DEFAULT_RETENTION)])
       else registered, Promoted)
  }

  /** Apply from the point where the changeset may run; `snapped` says whether a snapshot was taken. */
  function RunAndPromote(p: Platform, w: World, id: string, newApp: App, ops: seq<Operation>, snapped: bool, luck: Luck)
    : (World, Outcome)
    requires id in w.registry
  {
    var ra := w.registry[id];
    match Executed(p, DbOf(w, id), ra.app, newApp, ops, luck.commits)
    case Err(_) =>
      var snaps := SnapsOf(w, ra.dir);
      if !snapped || snaps == [] then (w, RolledBack)
      else
        (WithDb(w, id, RestoredDb(DbOf(w, id), snaps[|snaps| - 1], luck.restore)),
         if luck.restore.Restored? then RolledBack else RestoreFailed)
    case Ok(db) => Promotion(w, id, newApp, db, snapped, luck)
  }

  /** Apply: validate, diff, classify, gate, snapshot, execute, then promote or restore. */
  function Applied(p: Platform, w: World, id: string, doc: Doc, opts: Options, luck: Luck): (World, Outcome) {
    if id !in w.registry then (w, UnknownApp)
    else if !Accepted(doc) then (w, InvalidManifest)
    else if doc.app.id != id then (w, WrongId)
    else
      var ra := w.registry[id];
      var ops := Prepared(ra.app.entities, doc.app.entities, opts.witnesses);
      if ops == [] then (w, NoChange)
      else if !HasDestructive(ops) then RunAndPromote(p, w, id, doc.app, ops, false, luck)
      else if !opts.confirm then (w, NeedsConfirmation)
      else if !GateOpen(ops) then (w, NeedsWitness)
      else
        match luck.snapshot
        case NoSnapshot => (w, SnapshotFailed)
        case TornSnapshot(left) => (WithSnapshot(w, ra.dir, left), SnapshotFailed)
        case Taken => RunAndPromote(p, WithSnapshot(w, ra.dir, DbOf(w, id)), id, doc.app, ops, true, luck)
  }

  // ----- boot -----

  datatype BootFault = BadManifest | DdlFailed(fault: Fault) | ColumnsDiffer | FingerprintDiffers

  /** ApplyDDL: each statement commits on its own; the first fault leaves what ran before it. */
  function DdlApplied(p: Platform, stmts: seq<Stmt>, db: Db): (Db, Option<Fault>) {
    if stmts == [] then (db, None)
    else
      var (before, fault) := DdlApplied(p, stmts[..|stmts| - 1], db);
      if fault.Some? then (before, fault)
      else
        match Run(p, stmts[|stmts| - 1], before)
        case Ok(after) => (after, None)
        case Err(error) => (before, Some(error))
  }

  function Ddl(app: App): seq<Stmt> {
    CreateStmts(app.entities) + AllIndexStmts(app.entities)
  }

  /** The entity has a table with exactly the platform's and its fields' columns. */
  predicate EntityVerified(db: Db, e: Entity) {
    e.id in db.tables && db.tables[e.id].cols.Keys + PlatformColumns() == FieldIds(e.fields) + PlatformColumns()
  }

  predicate AllVerified(db: Db, entities: seq<Entity>) {
    forall e | e in entities :: EntityVerified(db, e)
  }

  /** VerifySchema. */
  predicate ColumnsVerified(db: Db, app: App) {
    AllVerified(db, app.entities)
  }

  /** checkSchemaFingerprint: adopt the manifest's fingerprint as a baseline, or insist on it. */
  function FingerprintChecked(p: Platform, db: Db, app: App): (Db, Option<BootFault>) {
    var text := CanonicalText(p.num, app);
    match db.fingerprint
    case None => (db.(fingerprint := Some(text)), None)
    case Some(recorded) => (db, if recorded == text then None else Some(FingerprintDiffers))
  }

  /** What Load does to the app's own database before it decides whether to serve it. */
  function DbBooted(p: Platform, db: Db, app: App): (Db, Option<BootFault>) {
    var (made, fault) := DdlApplied(p, Ddl(app), db);
    if fault.Some? then (made, Some(DdlFailed(fault.value)))
    else if !ColumnsVerified(made, app) then (made, Some(ColumnsDiffer))
    else FingerprintChecked(p, made, app)
  }

  /** One iteration of Load. */
  function BootDir(p: Platform, w: World, dir: string): (World, Option<BootFault>)
    requires dir in w.manifests
  {
    var doc := w.manifests[dir];
    if !Accepted(doc) then (w, Some(BadManifest))
    else
      var app := doc.app;
      var (db, fault) := DbBooted(p, DbOf(w, app.id), app);
      var touched := WithDb(w, app.id, db);
      (if fault.Some? then touched else touched.(registry := w.registry[app.id := Registered(app, dir)]), fault)
  }

  function BootDirs(p: Platform, w: World, dirs: seq<string>): (r: World)
    requires forall d | d in dirs :: d in w.manifests
    ensures r.manifests == w.manifests
  {
    if dirs == [] then w else BootDir(p, BootDirs(p, w, dirs[..|dirs| - 1]), dirs[|dirs| - 1]).0
  }

  /** What Load reports of one directory: whether it created the database, and why it did not serve the app. */
  datatype LoadResult = LoadResult(dir: string, created: bool, fault: Option<BootFault>)

  function Report(p: Platform, w: World, dir: string): LoadResult
    requires dir in w.manifests
  {
    var doc := w.manifests[dir];
    LoadResult(dir, Accepted(doc) && doc.app.id !in w.dbs, BootDir(p, w, dir).1)
  }

  /** The reports of a boot, in the order the directories were booted. */
  function Reports(p: Platform, w: World, dirs: seq<string>): (r: seq<LoadResult>)
    requires forall d | d in dirs :: d in w.manifests
    ensures |r| == |dirs|
  {
    if dirs == [] then []
    else
      var n := |dirs| - 1;
      Reports(p, w, dirs[..n]) + [Report(p, BootDirs(p, w, dirs[..n]), dirs[n])]
  }

  /** Load starts from an empty registry. */
  function Unserved(w: World): World {
    w.(registry := map[])
  }
}

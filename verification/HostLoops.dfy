/** The boot and apply flows as the code runs them, on a host whose state they update in place. */
module HostLoops {
  import opened Results
  import opened Schema
  import opened Validation
  import opened Sql
  import opened Strings
  import opened Materialize
  import opened Changesets
  import opened Fingerprints
  import opened Diffs
  import opened Executor
  import opened ExecuteLoops
  import opened Gate
  import opened Hosts

  // ----- store.go: the column check -----

  /** diffColumnSets. */
  method DiffColumnSets(expected: seq<string>, actual: seq<string>) returns (missing: seq<string>, extra: seq<string>)
    ensures forall c :: c in missing <==> c in expected && c !in actual
    ensures forall c :: c in extra <==> c in actual && c !in expected
  {
    var expSet: map<string, bool> := map[];
    for i := 0 to |expected|
      invariant forall c :: c in expSet <==> c in expected[..i]
    {
      expSet := expSet[expected[i] := true];
    }
    var actSet: map<string, bool> := map[];
    for i := 0 to |actual|
      invariant forall c :: c in actSet <==> c in actual[..i]
    {
      actSet := actSet[actual[i] := true];
    }
    assert expected[..|expected|] == expected && actual[..|actual|] == actual;
    missing, extra := [], [];
    for i := 0 to |expected|
      invariant forall c :: c in missing <==> c in expected[..i] && c !in actual
    {
      assert expected[..i + 1] == expected[..i] + [expected[i]];
      if expected[i] !in actSet {
        missing := missing + [expected[i]];
      }
    }
    for i := 0 to |actual|
      invariant forall c :: c in extra <==> c in actual[..i] && c !in expected
    {
      assert actual[..i + 1] == actual[..i] + [actual[i]];
      if actual[i] !in expSet {
        extra := extra + [actual[i]];
      }
    }
  }

  /** tableColumns: the physical columns PRAGMA table_info lists, in some order. */
  method TableColumns(t: Table) returns (cols: seq<string>)
    ensures forall c :: c in cols <==> c in t.cols.Keys + PlatformColumns()
  {
    cols := ["id", "created_at", "updated_at"];
    var rest := t.cols.Keys;
    while rest != {}
      invariant rest <= t.cols.Keys
      invariant forall c :: c in cols <==> c in (t.cols.Keys - rest) + PlatformColumns()
      decreases |rest|
    {
      var c :| c in rest;
      rest := rest - {c};
      cols := cols + [c];
    }
  }

  /** expectedPhysicalColumns. */
  method ExpectedPhysicalColumns(e: Entity) returns (cols: seq<string>)
    ensures forall c :: c in cols <==> c in FieldIds(e.fields) + PlatformColumns()
  {
    cols := ["id", "created_at", "updated_at"];
    for i := 0 to |e.fields|
      invariant forall c :: c in cols <==> c in FieldIds(e.fields[..i]) + PlatformColumns()
    {
      assert FieldIds(e.fields[..i + 1]) == FieldIds(e.fields[..i]) + {e.fields[i].id} by {
        assert e.fields[..i + 1] == e.fields[..i] + [e.fields[i]];
      }
      cols := cols + [e.fields[i].id];
    }
    assert e.fields[..|e.fields|] == e.fields;
  }

  method VerifySchema(db: Db, app: App) returns (ok: bool)
    ensures ok == ColumnsVerified(db, app)
  {
    hide EntityVerified, AllVerified;
    var problems := 0;
    NothingToVerify(db);
    assert app.entities[..0] == [];
    for i := 0 to |app.entities|
      invariant problems >= 0
      invariant problems == 0 <==> AllVerified(db, app.entities[..i])
    {
      var e := app.entities[i];
      OneMoreVerified(db, app.entities, i);
      MissingTable(db, e);
      if e.id !in db.tables {
        problems := problems + 1;
      } else {
        var expected := ExpectedPhysicalColumns(e);
        var actual := TableColumns(db.tables[e.id]);
        var missing, extra := DiffColumnSets(expected, actual);
        SameColumns(db, e, expected, actual, missing, extra);
        if |missing| > 0 || |extra| > 0 {
          problems := problems + 1;
        }
      }
    }
    assert app.entities[..|app.entities|] == app.entities;
    ok := problems == 0;
  }

  lemma MissingTable(db: Db, e: Entity)
    ensures e.id !in db.tables ==> !EntityVerified(db, e)
  {
  }

  lemma NothingToVerify(db: Db)
    ensures AllVerified(db, [])
  {
  }

  lemma OneMoreVerified(db: Db, entities: seq<Entity>, i: nat)
    requires i < |entities|
    ensures AllVerified(db, entities[..i + 1]) <==> AllVerified(db, entities[..i]) && EntityVerified(db, entities[i])
  {
    assert entities[..i + 1] == entities[..i] + [entities[i]];
  }

  lemma SameColumns(db: Db, e: Entity, expected: seq<string>, actual: seq<string>, missing: seq<string>, extra: seq<string>)
    requires e.id in db.tables
    requires forall c :: c in expected <==> c in FieldIds(e.fields) + PlatformColumns()
    requires forall c :: c in actual <==> c in db.tables[e.id].cols.Keys + PlatformColumns()
    requires forall c :: c in missing <==> c in expected && c !in actual
    requires forall c :: c in extra <==> c in actual && c !in expected
    ensures missing == [] && extra == [] <==> EntityVerified(db, e)
  {
    var a, b := db.tables[e.id].cols.Keys + PlatformColumns(), FieldIds(e.fields) + PlatformColumns();
    if missing != [] {
      assert missing[0] in b && missing[0] !in a;
    } else if extra != [] {
      assert extra[0] in a && extra[0] !in b;
    } else {
      assert forall c :: c in a <==> c in b;
    }
  }

  // ----- store.go: ApplyDDL -----

  lemma {:induction false} DdlStops(p: Platform, stmts: seq<Stmt>, db: Db, i: nat)
    requires i <= |stmts| && DdlApplied(p, stmts[..i], db).1.Some?
    ensures DdlApplied(p, stmts, db) == DdlApplied(p, stmts[..i], db)
    decreases |stmts|
  {
    hide Run;
    if i == |stmts| {
      assert stmts[..i] == stmts;
    } else {
      assert stmts[..|stmts| - 1][..i] == stmts[..i];
      DdlStops(p, stmts[..|stmts| - 1], db, i);
    }
  }

  method ApplyDdl(p: Platform, stmts: seq<Stmt>, db: Db) returns (after: Db, fault: Option<Fault>)
    ensures (after, fault) == DdlApplied(p, stmts, db)
  {
    hide Run;
    after, fault := db, None;
    for i := 0 to |stmts|
      invariant fault == None && DdlApplied(p, stmts[..i], db) == (after, None)
    {
      assert stmts[..i + 1][..i] == stmts[..i];
      var r := Run(p, stmts[i], after);
      if r.Err? {
        fault := Some(r.error);
        assert DdlApplied(p, stmts[..i + 1], db) == (after, fault);
        DdlStops(p, stmts, db, i + 1);
        return;
      }
      after := r.value;
    }
    assert stmts[..|stmts|] == stmts;
  }

  /** The part of Load between opening a database and registering its app. */
  method OpenDatabase(p: Platform, db: Db, app: App) returns (after: Db, fault: Option<BootFault>)
    requires ValidApp(app)
    ensures (after, fault) == DbBooted(p, db, app)
  {
    hide CanonicalText, ColumnsVerified, DdlApplied, ValidApp;
    var stmts := Statements(app);
    var made, ddlFault := ApplyDdl(p, stmts, db);
    if ddlFault.Some? {
      return made, Some(DdlFailed(ddlFault.value));
    }
    var verified := VerifySchema(made, app);
    if !verified {
      return made, Some(ColumnsDiffer);
    }
    var text := Fingerprint(p.num, app);
    match made.fingerprint {
      case None =>
        return made.(fingerprint := Some(text)), None;
      case Some(applied) =>
        if applied != text {
          return made, Some(FingerprintDiffers);
        }
        return made, None;
    }
  }

  /** snapshot.go: Prune, over the names it lists oldest first. */
  method Prune(snaps: seq<Db>, keep: int) returns (kept: seq<Db>)
    ensures kept == if keep <= 0 then snaps else Pruned(snaps, keep)
  {
    if keep <= 0 || |snaps| <= keep {
      return snaps;
    }
    var excess := |snaps| - keep;
    kept := snaps;
    for i := 0 to excess
      invariant kept == snaps[i..]
    {
      kept := kept[1..];
    }
  }

  /** validate.Manifest. */
  method Validate(doc: Doc) returns (ok: bool)
    ensures ok == Accepted(doc)
  {
    hide Parsed, SemanticallyValid, ValidApp, DistinctEntityNames, ToolsOk;
    if doc.Malformed? {
      return false;
    }
    CheckedIsValid(doc.app);
    if !Parsed(doc.app) {
      return false;
    }
    var errs := Semantic(doc.app);
    return errs == [];
  }

  // ----- the host -----

  class Host {
    var manifests: map<string, Doc>
    var dbs: map<string, Db>
    var snaps: map<string, seq<Db>>
    var registry: map<string, Registered>
    const p: Platform

    constructor (p: Platform, manifests: map<string, Doc>)
      ensures this.p == p && Now() == World(manifests, map[], map[], map[])
    {
      this.p := p;
      this.manifests := manifests;
      dbs := map[];
      snaps := map[];
      registry := map[];
    }

    function Now(): World
      reads this
    {
      World(manifests, dbs, snaps, registry)
    }

    /** registry.Load, over the manifest directories found on disk, in sorted order. */
    method Load(dirs: seq<string>) returns (results: seq<LoadResult>)
      requires forall d | d in dirs :: d in manifests
      modifies this
      ensures multiset(SortedStrings(dirs)) == multiset(dirs)
      ensures forall d | d in SortedStrings(dirs) :: d in old(manifests)
      ensures Now() == BootDirs(p, Unserved(old(Now())), SortedStrings(dirs))
      ensures results == Reports(p, Unserved(old(Now())), SortedStrings(dirs))
    {
      hide BootDir, Report, SortedStrings;
      var sorted := SortedDirs(dirs);
      registry := map[];
      results := [];
      ghost var w0 := Now();
      for i := 0 to |sorted|
        invariant Now() == BootDirs(p, w0, sorted[..i])
        invariant results == Reports(p, w0, sorted[..i])
      {
        assert sorted[..i + 1][..i] == sorted[..i];
        var result := LoadDir(sorted[i]);
        results := results + [result];
      }
      assert sorted[..|sorted|] == sorted;
    }

    method LoadDir(dir: string) returns (result: LoadResult)
      requires dir in manifests
      modifies this
      ensures Now() == BootDir(p, old(Now()), dir).0
      ensures result == Report(p, old(Now()), dir)
    {
      hide DbBooted, ValidApp, DistinctEntityNames, ToolsOk;
      var doc := manifests[dir];
      var valid := Validate(doc);
      if !valid {
        return LoadResult(dir, false, Some(BadManifest));
      }
      var app := doc.app;
      var created := app.id !in dbs;
      var db := if created then EMPTY_DB else dbs[app.id];
      var after, fault := OpenDatabase(p, db, app);
      dbs := dbs[app.id := after];
      if fault.None? {
        registry := registry[app.id := Registered(app, dir)];
      }
      return LoadResult(dir, created, fault);
    }

    /** migrate.Apply. */
    method Apply(id: string, doc: Doc, opts: Options, luck: Luck) returns (outcome: Outcome)
      modifies this
      ensures (Now(), outcome) == Applied(p, old(Now()), id, doc, opts, luck)
    {
      hide DiffOps, Executed, GateOpen, HasDestructive, ValidApp, RunAndPromote, LacksWitness, DistinctEntityNames, ToolsOk;
      if id !in registry {
        return UnknownApp;
      }
      var ra := registry[id];
      var valid := Validate(doc);
      if !valid {
        return InvalidManifest;
      }
      if doc.app.id != id {
        return WrongId;
      }
      var diff := Diff(ra.app, doc.app);
      var cs := new Changeset(diff);
      cs.ClassifyAll();
      cs.Attach(opts.witnesses);
      if cs.ops == [] {
        return NoChange;
      }
      var destructive := cs.DestructiveOps();
      if destructive == [] {
        outcome := Run(id, doc.app, cs.ops, None, luck);
        return;
      }
      if !opts.confirm {
        return NeedsConfirmation;
      }
      var missing := cs.MissingWitnesses();
      GateIsEmpty(cs.ops, missing);
      if missing != [] {
        return NeedsWitness;
      }
      outcome := SnapshotAndRun(id, doc.app, cs.ops, luck);
    }

    method SnapshotAndRun(id: string, newApp: App, ops: seq<Operation>, luck: Luck) returns (outcome: Outcome)
      requires id in registry && ValidApp(newApp)
      modifies this
      ensures (Now(), outcome) ==
        match luck.snapshot
        case NoSnapshot => (old(Now()), SnapshotFailed)
        case TornSnapshot(left) => (WithSnapshot(old(Now()), old(registry)[id].dir, left), SnapshotFailed)
        case Taken =>
          var snapped := WithSnapshot(old(Now()), old(registry)[id].dir, DbOf(old(Now()), id));
          RunAndPromote(p, snapped, id, newApp, ops, true, luck)
    {
      hide RunAndPromote, ValidApp;
      var dir := registry[id].dir;
      var taken := if dir in snaps then snaps[dir] else [];
      match luck.snapshot {
        case NoSnapshot =>
          return SnapshotFailed;
        case TornSnapshot(left) =>
          snaps := snaps[dir := taken + [left]];
          return SnapshotFailed;
        case Taken =>
          var snapshot := if id in dbs then dbs[id] else EMPTY_DB;
          snaps := snaps[dir := taken + [snapshot]];
          outcome := Run(id, newApp, ops, Some(snapshot), luck);
      }
    }

    /** Execute, then promote and re-register; or restore the snapshot, if one was taken. */
    method Run(id: string, newApp: App, ops: seq<Operation>, snapshot: Option<Db>, luck: Luck) returns (outcome: Outcome)
      requires id in registry && ValidApp(newApp)
      requires snapshot.Some? ==>
        SnapsOf(Now(), registry[id].dir) != [] && SnapsOf(Now(), registry[id].dir)[|SnapsOf(Now(), registry[id].dir)| - 1] == snapshot.value
      modifies this
      ensures (Now(), outcome) == RunAndPromote(p, old(Now()), id, newApp, ops, snapshot.Some?, luck)
    {
      hide Executed, ValidApp, Promotion;
      var ra := registry[id];
      var st := new Store(p, if id in dbs then dbs[id] else EMPTY_DB);
      assert DistinctFields(newApp.entities) by {
        FieldsAreDistinct(newApp);
      }
      var fault := st.Execute(ra.app, newApp, ops, luck.commits);
      if fault.Some? {
        outcome := Undo(id, snapshot, luck.restore);
        return;
      }
      outcome := Promote(id, newApp, st.db, snapshot.Some?, luck);
    }

    method Promote(id: string, newApp: App, db: Db, snapped: bool, luck: Luck) returns (outcome: Outcome)
      requires id in registry && (snapped ==> registry[id].dir in snaps)
      modifies this
      ensures (Now(), outcome) == Promotion(old(Now()), id, newApp, db, snapped, luck)
    {
      var dir := registry[id].dir;
      dbs := dbs[id := db];
      manifests := WrittenDoc(manifests, dir, newApp, luck.write);
      if !luck.write.Written? {
        return PromoteFailed;
      }
      registry := registry[id := Registered(newApp, dir)];
      if snapped && luck.prunes {
        var kept := Prune(snaps[dir], DEFAULT_RETENTION);
        snaps := snaps[dir := kept];
      }
      return Promoted;
    }

    /** The failure path: nothing to restore after a rolled-back transaction without a snapshot. */
    method Undo(id: string, snapshot: Option<Db>, luck: RestoreLuck) returns (outcome: Outcome)
      modifies this
      ensures Now() == if snapshot.None? then old(Now())
                       else WithDb(old(Now()), id, RestoredDb(DbOf(old(Now()), id), snapshot.value, luck))
      ensures outcome == if snapshot.None? || luck.Restored? then RolledBack else RestoreFailed
    {
      if snapshot.None? {
        return RolledBack;
      }
      match luck {
        case Restored =>
          dbs := dbs[id := snapshot.value];
          return RolledBack;
        case CloseFails =>
          dbs := dbs[id := if id in dbs then dbs[id] else EMPTY_DB];
        case CopyFails(left) =>
          dbs := dbs[id := left];
        case ReopenFails =>
          dbs := dbs[id := snapshot.value];
      }
      return RestoreFailed;
    }
  }

  method SortedDirs(dirs: seq<string>) returns (sorted: seq<string>)
    ensures sorted == SortedStrings(dirs) && multiset(sorted) == multiset(dirs)
    ensures forall d | d in sorted :: d in dirs
  {
    sorted := SortedStrings(dirs);
    SortBySorts(dirs, (v: string) => v);
    assert forall d | d in sorted :: d in multiset(dirs);
  }

  lemma GateIsEmpty(ops: seq<Operation>, missing: seq<Operation>)
    requires forall op :: op in missing <==> op in ops && LacksWitness(op)
    ensures missing == [] <==> GateOpen(ops)
  {
    if missing != [] {
      assert missing[0] in ops;
    }
  }

  lemma FieldsAreDistinct(app: App)
    requires ValidApp(app)
    ensures DistinctFields(app.entities)
  {
    forall e | e in app.entities ensures DistinctFieldIds(e.fields) {
      assert ValidEntity(app.entities, e);
    }
  }
}

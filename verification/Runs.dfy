/** What holds of a host over whole runs of boots, applies and row writes. */
module Runs {
  import opened Results
  import opened Schema
  import opened Validation
  import opened Sql
  import opened Materialize
  import opened MaterializeFresh
  import opened Changesets
  import opened Fingerprints
  import opened FingerprintText
  import opened FingerprintSchema
  import opened FingerprintDiff
  import opened Diffs
  import opened Executor
  import opened NativePath
  import opened Views
  import opened Gate
  import opened Reach
  import opened Hosts

  // ----- one apply -----

  /** Catalogues, rows, fingerprints, manifests and registrations agree; snapshots may differ. */
  predicate SameButSnapshots(a: World, b: World) {
    a.manifests == b.manifests && a.dbs == b.dbs && a.registry == b.registry
  }

  function OpsFor(w: World, id: string, newApp: App, opts: Options): seq<Operation>
    requires id in w.registry
  {
    Prepared(w.registry[id].app.entities, newApp.entities, opts.witnesses)
  }

  /** The world an apply leaves when it runs to its end. */
  predicate IsPromotion(p: Platform, w: World, after: World, id: string, newApp: App, ops: seq<Operation>)
    requires id in w.registry
  {
    var ra := w.registry[id];
    var r := Executed(p, DbOf(w, id), ra.app, newApp, ops, true);
    && r.Ok? && after.dbs == w.dbs[id := r.value]
    && after.manifests == w.manifests[ra.dir := Manifest(newApp)]
    && after.registry == w.registry[id := Registered(newApp, ra.dir)]
  }

  lemma CommitsOrFails(p: Platform, db: Db, oldApp: App, newApp: App, ops: seq<Operation>, commits: bool)
    requires Executed(p, db, oldApp, newApp, ops, commits).Ok?
    ensures Executed(p, db, oldApp, newApp, ops, commits) == Executed(p, db, oldApp, newApp, ops, true)
  {
    hide ApplyOps, ForeignKeysHold, AllRenames;
  }

  lemma RunIsAllOrNothing(p: Platform, w: World, id: string, newApp: App, ops: seq<Operation>, snapped: bool, luck: Luck)
    requires id in w.registry && id in w.dbs
    requires snapped ==> var s := SnapsOf(w, w.registry[id].dir); s != [] && s[|s| - 1] == w.dbs[id]
    ensures var (after, outcome) := RunAndPromote(p, w, id, newApp, ops, snapped, luck);
            && (outcome.Promoted? || outcome.PromoteFailed? || outcome.RolledBack? || outcome.RestoreFailed?)
            && (outcome.Promoted? ==> IsPromotion(p, w, after, id, newApp, ops))
            && (outcome.RolledBack? ==> after == w)
            && (outcome.RestoreFailed? ==> after == w || (luck.restore.CopyFails? && after == WithDb(w, id, luck.restore.left)))
            && (outcome.PromoteFailed? ==>
                  var r := Executed(p, w.dbs[id], w.registry[id].app, newApp, ops, true);
                  r.Ok? && !luck.write.Written? && after ==
                    WithDb(w, id, r.value).(manifests := WrittenDoc(w.manifests, w.registry[id].dir, newApp, luck.write)))
  {
    hide Executed;
    var r := Executed(p, DbOf(w, id), w.registry[id].app, newApp, ops, luck.commits);
    if r.Ok? {
      CommitsOrFails(p, DbOf(w, id), w.registry[id].app, newApp, ops, luck.commits);
    } else {
      assert WithDb(w, id, w.dbs[id]) == w;
    }
  }

  lemma RunEnds(p: Platform, w: World, id: string, newApp: App, ops: seq<Operation>, snapped: bool, luck: Luck)
    requires id in w.registry
    ensures var outcome := RunAndPromote(p, w, id, newApp, ops, snapped, luck).1;
            outcome.Promoted? || outcome.PromoteFailed? || outcome.RolledBack? || outcome.RestoreFailed?
  {
    hide Executed;
  }

  /** Applied, in terms of where it stops. */
  lemma ApplyCases(p: Platform, w: World, id: string, doc: Doc, opts: Options, luck: Luck)
    ensures var (after, outcome) := Applied(p, w, id, doc, opts, luck);
            outcome.Promoted? || outcome.PromoteFailed? || outcome.RolledBack? || outcome.RestoreFailed? ==>
              && id in w.registry && Accepted(doc) && doc.app.id == id
              && var ops := OpsFor(w, id, doc.app, opts);
              && ops != []
              && (!HasDestructive(ops) ==> (after, outcome) == RunAndPromote(p, w, id, doc.app, ops, false, luck))
              && (HasDestructive(ops) ==>
                    && opts.confirm && GateOpen(ops) && luck.snapshot.Taken?
                    && var snapped := WithSnapshot(w, w.registry[id].dir, DbOf(w, id));
                       (after, outcome) == RunAndPromote(p, snapped, id, doc.app, ops, true, luck))
    ensures var (after, outcome) := Applied(p, w, id, doc, opts, luck);
            !(outcome.Promoted? || outcome.PromoteFailed? || outcome.RolledBack? || outcome.RestoreFailed?) ==>
              SameButSnapshots(w, after)
  {
    hide RunAndPromote, Prepared, ValidApp, HasDestructive, GateOpen, DistinctEntityNames, ToolsOk;
    if id in w.registry && Accepted(doc) {
      var ops := OpsFor(w, id, doc.app, opts);
      RunEnds(p, w, id, doc.app, ops, false, luck);
      RunEnds(p, WithSnapshot(w, w.registry[id].dir, DbOf(w, id)), id, doc.app, ops, true, luck);
    }
  }

  /**
   * Apply is all or nothing. Unless the manifest was promoted, or promoting it failed after the
   * commit, or the copy back of a snapshot failed, every database, recorded fingerprint, manifest
   * and registered schema is as before; a promotion changes exactly the app's own three.
   */
  lemma ApplyIsAllOrNothing(p: Platform, w: World, id: string, doc: Doc, opts: Options, luck: Luck)
    requires id in w.registry ==> id in w.dbs
    ensures var (after, outcome) := Applied(p, w, id, doc, opts, luck);
            && (outcome.Promoted? ==>
                  id in w.registry && doc.Manifest? && IsPromotion(p, w, after, id, doc.app, OpsFor(w, id, doc.app, opts)))
            && (!SameButSnapshots(w, after) ==>
                  outcome.Promoted? || outcome.PromoteFailed? || (outcome.RestoreFailed? && luck.restore.CopyFails?))
            && (outcome.PromoteFailed? || outcome.RestoreFailed? ==> after.registry == w.registry)
            && (forall other | other != id ::
                  (other in after.dbs <==> other in w.dbs) && (other in w.dbs ==> after.dbs[other] == w.dbs[other]))
  {
    hide Executed, Prepared, RunAndPromote, Applied, HasDestructive, GateOpen, ValidApp, DistinctEntityNames, ToolsOk;
    var (after, outcome) := Applied(p, w, id, doc, opts, luck);
    ApplyCases(p, w, id, doc, opts, luck);
    if outcome.Promoted? || outcome.PromoteFailed? || outcome.RolledBack? || outcome.RestoreFailed? {
      var ops := OpsFor(w, id, doc.app, opts);
      if HasDestructive(ops) {
        RunIsAllOrNothing(p, WithSnapshot(w, w.registry[id].dir, DbOf(w, id)), id, doc.app, ops, true, luck);
      } else {
        RunIsAllOrNothing(p, w, id, doc.app, ops, false, luck);
      }
    }
  }

  lemma SnapshotStays(p: Platform, w: World, id: string, newApp: App, ops: seq<Operation>, luck: Luck)
    requires id in w.registry && SnapsOf(w, w.registry[id].dir) != []
    ensures var before, s := SnapsOf(w, w.registry[id].dir),
                             SnapsOf(RunAndPromote(p, w, id, newApp, ops, true, luck).0, w.registry[id].dir);
            && s != [] && s[|s| - 1] == before[|before| - 1]
            && (s == before || (|s| == DEFAULT_RETENTION && s == before[|before| - DEFAULT_RETENTION..]))
  {
    hide Executed;
  }

  /**
   * No destructive operation takes effect unconfirmed, without its witnesses, or without a way
   * back: the newest snapshot then holds the app's previous database, whatever failed afterwards.
   */
  lemma DestructiveIsGuarded(p: Platform, w: World, id: string, doc: Doc, opts: Options, luck: Luck)
    requires id in w.registry && id in w.dbs && Accepted(doc)
    requires HasDestructive(OpsFor(w, id, doc.app, opts))
    ensures var after := Applied(p, w, id, doc, opts, luck).0;
            !SameButSnapshots(w, after) ==>
              && opts.confirm && GateOpen(OpsFor(w, id, doc.app, opts))
              && var s := SnapsOf(after, w.registry[id].dir);
                 s != [] && WithDb(after, id, s[|s| - 1]).dbs == w.dbs
  {
    hide Executed, Prepared, RunAndPromote, Applied, HasDestructive, GateOpen, ValidApp, DistinctEntityNames, ToolsOk;
    var (after, outcome) := Applied(p, w, id, doc, opts, luck);
    ApplyCases(p, w, id, doc, opts, luck);
    if !SameButSnapshots(w, after) {
      var ops := OpsFor(w, id, doc.app, opts);
      var snapped := WithSnapshot(w, w.registry[id].dir, DbOf(w, id));
      RunIsAllOrNothing(p, snapped, id, doc.app, ops, true, luck);
      SnapshotStays(p, snapped, id, doc.app, ops, luck);
      var s := SnapsOf(after, w.registry[id].dir);
      assert s[|s| - 1] == w.dbs[id];
      RestoredDbs(w.dbs, after.dbs, id);
    }
  }

  lemma RestoredDbs(dbs: map<string, Db>, after: map<string, Db>, id: string)
    requires id in dbs && after.Keys == dbs.Keys && forall x | x in dbs && x != id :: after[x] == dbs[x]
    ensures after[id := dbs[id]] == dbs
  {
  }
}

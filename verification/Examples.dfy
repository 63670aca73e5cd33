/** The inputs at which the engine does less than it says, each a valid manifest that passes the gate. */
module Examples {
  import opened Results
  import opened Schema
  import opened Validation
  import opened Sql
  import opened Materialize
  import opened MaterializeFresh
  import opened Changesets
  import opened Witnesses
  import opened Fingerprints
  import opened FingerprintText
  import opened FingerprintSchema
  import opened FingerprintDiff
  import opened Diffs
  import opened Executor
  import opened Naming
  import opened Views
  import opened NativePath
  import opened ChangesetShape
  import opened DiffMembers
  import opened Reach
  import opened Gate
  import opened Strings
  import opened Migration
  import opened FastSlow
  import opened Lossless
  import opened Meaning
  import opened Remaps
  import opened PathsAgree
  import opened Tightening
  import opened Findings
  import opened Hosts
  import opened Runs
  import opened WholeRuns
  import opened Restarts
  import opened Scenarios

  // ----- names -----

  const UNIQUE_B := Holding("a", [Optional("b", Text).(unique := true)])
  const INDEX_OF_B := Holding("ux_a_b", [Optional("c", Text)])

  lemma Identifiers()
    ensures IsIdentifier("a") && IsIdentifier("b") && IsIdentifier("c") && IsIdentifier("x") && IsIdentifier("mig_x")
    ensures IsIdentifier("ux_a_b") && IsIdentifier("order") && IsIdentifier("group") && IsIdentifier("sqlite_x")
  {
  }

  /** An index named like a table: the manifest is valid, no two indexes clash, and it never boots. */
  lemma IndexNamedLikeTable(p: Platform, db: Db)
    ensures var app := Serving([UNIQUE_B, INDEX_OF_B]);
            && Accepted(Manifest(app)) && NamesDistinct(UniquePairs(app.entities))
            && DbBooted(p, db, app).1.Some?
  {
    hide DbBooted, IsIdentifier, ValidField, ValidEntity, ToolsOk;
    var e, u := UNIQUE_B, INDEX_OF_B;
    Identifiers();
    OptionalIsValid([e, u], "b", Text);
    OneFieldIsValid([e, u], e, e.fields[0]);
    OptionalIsValid([e, u], "c", Text);
    OneFieldIsValid([e, u], u, u.fields[0]);
    TwoEntitiesAreAccepted(e, u);
    assert e in [e, u] && u in [e, u] && e.fields[0] in e.fields;
    assert ("a", "b") in UniquePairs([e, u]) && IndexName("a", "b") == u.id && u.id in EntityIds([e, u]);
    assert UniquePairs([e, u]) <= {("a", "b")};
    BootRefusesNames(p, db, Serving([e, u]));
  }

  const KEYWORDS := Holding("order", [Optional("group", Text)])

  /** Reserved words are legal ids, but not legal SQL. */
  lemma KeywordIds(p: Platform, db: Db)
    requires "order" in p.words || "group" in p.words
    ensures Accepted(Manifest(Serving([KEYWORDS]))) && DbBooted(p, db, Serving([KEYWORDS])).1.Some?
  {
    hide DbBooted, IsIdentifier, ValidField, ValidEntity, ToolsOk, ColumnDef;
    var e := KEYWORDS;
    Identifiers();
    OptionalIsValid([e], "group", Text);
    OneFieldIsValid([e], e, e.fields[0]);
    OneEntityIsAccepted(e);
    assert e in [e] && e.fields[0] in e.fields && "group" in Columns(e.fields);
    BootRefusesNames(p, db, Serving([e]));
  }

  const INTERNAL := Holding("sqlite_x", [Optional("c", Text)])

  /** So are names SQLite keeps to itself. */
  lemma InternalId(p: Platform, db: Db)
    ensures Accepted(Manifest(Serving([INTERNAL]))) && DbBooted(p, db, Serving([INTERNAL])).1.Some?
  {
    hide DbBooted, IsIdentifier, ValidField, ValidEntity, ToolsOk, UsableColumns;
    var e := INTERNAL;
    Identifiers();
    OptionalIsValid([e], "c", Text);
    OneFieldIsValid([e], e, e.fields[0]);
    OneEntityIsAccepted(e);
    assert e in [e] && IsInternal(e.id);
    BootRefusesNames(p, db, Serving([e]));
  }

  lemma ClashingAreValid()
    ensures Accepted(Manifest(Serving([CLASHING, CLASHED])))
  {
    hide IsIdentifier, ValidField, ValidEntity, ToolsOk;
    var e, u := CLASHING, CLASHED;
    assert IsIdentifier("a_b") && IsIdentifier("b_c") by { MoreIdentifiers(); }
    Identifiers();
    OptionalIsValid([e, u], "c", Text);
    OptionalIsValid([e, u], "b_c", Text);
    OneFieldIsValid([e, u], e, e.fields[0]);
    OneFieldIsValid([e, u], u, u.fields[0]);
    TwoEntitiesAreAccepted(e, u);
  }

  lemma MoreIdentifiers()
    ensures IsIdentifier("a_b") && IsIdentifier("b_c")
  {
  }

  const CLASHING := Holding("a_b", [Optional("c", Text).(unique := true)])
  const CLASHED := Holding("a", [Optional("b_c", Text).(unique := true)])

  /** Two unique fields that share an index name: the DDL runs through, and one field is left without its index. */
  lemma ClashingIndexNames(p: Platform)
    requires Plain(p)
    ensures var app := Serving([CLASHING, CLASHED]);
            && Accepted(Manifest(app))
            && RunAll(p, Ddl(app), EMPTY_DB).Ok? && !CatalogueIs(RunAll(p, Ddl(app), EMPTY_DB).value, app)
  {
    hide IsIdentifier, ValidEntity, ToolsOk, RunAll, CatalogueIs, UsableColumns, IndexName;
    var e, u := CLASHING, CLASHED;
    ClashingAreValid();
    ClashIsBootable(p);
    IndexNamesClash();
    assert e in [e, u] && u in [e, u] && e.fields[0] in e.fields && u.fields[0] in u.fields;
    assert ("a_b", "c") in UniquePairs([e, u]) && ("a", "b_c") in UniquePairs([e, u]);
    assert "a_b" != "a" by { assert |"a_b"| != |"a"|; }
    BootableReachesCatalogue(p, Serving([e, u]));
  }

  lemma ClashIsBootable(p: Platform)
    requires Plain(p)
    ensures Bootable(p, Serving([CLASHING, CLASHED]))
  {
    hide UsableColumns, IndexName, Bootable, Columns;
    var e, u := CLASHING, CLASHED;
    assert '_' in "a_b" && '_' in "b_c";
    SpellableColumns(p, e);
    SpellableColumns(p, u);
    forall x | x in UniquePairs([e, u]) ensures IndexName(x.0, x.1) !in EntityIds([e, u]) && Readable(p, x.1) {
      IndexNamesStart(x.0, x.1);
      assert EntityIds([e, u]) == {"a_b", "a"};
    }
    ReadableIsBootable(p, Serving([e, u]));
  }

  lemma IndexNamesStart(eid: string, id: string)
    ensures |IndexName(eid, id)| > 0 && IndexName(eid, id)[0] == 'u'
  {
  }

  // ----- one field -----

  /** An app whose one entity `a` has the one field. */
  function OneField(f: Field): App {
    Serving([Holding("a", [f])])
  }

  /** The ids the examples use mean nothing else in SQL. */
  predicate Plain(p: Platform) {
    p.words + p.tableWords + p.unreadable + p.clock.Keys !! {"a", "b", "c", "x", "b_c"}
  }

  lemma OneFieldBoots(p: Platform, f: Field)
    requires Plain(p) && f.id == "b" && (f.name == "b" || f.name == "c") && !f.typ.Reference? && ValidField([Holding("a", [f])], f)
    ensures BootsClean(p, OneField(f))
  {
    hide ValidField, IsIdentifier, BootsClean;
    var e := Holding("a", [f]);
    Identifiers();
    OneFieldIsValid([e], e, f);
    OneEntityBoots(p, e);
  }

  // ----- bounds -----

  const COUNT := Optional("b", Integer)
  const BOUNDED := COUNT.(max := Some(9.0))
  const RENAMED_AND_BOUNDED := BOUNDED.(name := "c")

  lemma CountsBoot(p: Platform)
    requires Plain(p)
    ensures BootsClean(p, OneField(COUNT)) && BootsClean(p, OneField(BOUNDED)) && BootsClean(p, OneField(RENAMED_AND_BOUNDED))
  {
    hide BootsClean;
    OneFieldBoots(p, COUNT);
    OneFieldBoots(p, BOUNDED);
    OneFieldBoots(p, RENAMED_AND_BOUNDED);
  }

  lemma CountsAreTold(p: Platform, f: Field)
    requires f == BOUNDED || f == RENAMED_AND_BOUNDED
    requires Prints(p.num, {9.0})
    ensures TellsApart(p, OneField(COUNT), OneField(f))
    ensures !AllBoundsKept(OneField(COUNT).entities, OneField(f).entities)
  {
    var e, u := Holding("a", [COUNT]), Holding("a", [f]);
    assert u in [u] && f in u.fields && EntityById([e], "a") == Some(e) && FieldById([COUNT], "b") == Some(COUNT);
    assert AllBounds([e]) == {} && AllBounds([u]) <= {9.0};
  }

  /** A moved bound alone is no change, and a file edited by hand is refused. */
  lemma MovedBoundAlone(p: Platform)
    requires Plain(p) && Prints(p.num, {9.0})
    ensures Accepted(Manifest(OneField(BOUNDED)))
    ensures var w := Booted(p, OneField(COUNT));
            && Attempt(p, w, "app", OneField(BOUNDED), map[]) == (w, NoChange)
            && "app" in w.dbs && DbBooted(p, w.dbs["app"], OneField(BOUNDED)).1.Some?
  {
    hide Kept, DbBooted, DiffOps, EntityChanges, TellsApart, AllBoundsKept, Applied, ValidApp, ToolsOk;
    var e, u := Holding("a", [COUNT]), Holding("a", [BOUNDED]);
    CountsBoot(p);
    CountsAreTold(p, BOUNDED);
    FirstBoot(p, OneField(COUNT), false);
    DiffOfOne(e, u);
    ChangesOfOne(e, u, COUNT, BOUNDED);
    BoundsNeverMoveAlone(p, Booted(p, OneField(COUNT)), "app", Manifest(OneField(BOUNDED)), Options(true, map[]), GOOD_LUCK);
  }

  lemma OnlyARename()
    ensures var ops := Prepared(OneField(COUNT).entities, OneField(RENAMED_AND_BOUNDED).entities, map[]);
            ops != [] && AllRenames(ops) && GateOpen(ops)
    ensures NoNameClash(OneField(COUNT).entities, OneField(RENAMED_AND_BOUNDED).entities)
  {
    hide Prepared, EntityChanges, NoNameClash;
    PreparedOfOne(Holding("a", [COUNT]), Holding("a", [RENAMED_AND_BOUNDED]), COUNT, RENAMED_AND_BOUNDED, map[]);
    NoUniqueNoClash(OneField(COUNT).entities, OneField(RENAMED_AND_BOUNDED).entities);
  }

  /** A moved bound beside a rename is promoted, and the next boot refuses what was promoted. */
  lemma MovedBoundAndRename(p: Platform)
    requires Plain(p) && Prints(p.num, {9.0})
    ensures var (after, outcome) := Attempt(p, Booted(p, OneField(COUNT)), "app", OneField(RENAMED_AND_BOUNDED), map[]);
            && GateOpen(Prepared(OneField(COUNT).entities, OneField(RENAMED_AND_BOUNDED).entities, map[]))
            && outcome == Promoted
            && after.manifests == map["d" := Manifest(OneField(RENAMED_AND_BOUNDED))]
            && !Serves(p, after, ["d"], "d")
  {
    hide BootsClean, TellsApart, NoNameClash, AllBoundsKept, Prepared, AllRenames, GateOpen, Serves, Booted, Attempt;
    var old_, new_ := OneField(COUNT), OneField(RENAMED_AND_BOUNDED);
    CountsBoot(p);
    CountsAreTold(p, RENAMED_AND_BOUNDED);
    OnlyARename();
    RenameIsRefused(p, old_, new_);
  }

  lemma RenameIsRefused(p: Platform, old_: App, new_: App)
    requires BootsClean(p, old_) && BootsClean(p, new_) && old_.id == new_.id && TellsApart(p, old_, new_)
    requires NoNameClash(old_.entities, new_.entities) && !AllBoundsKept(old_.entities, new_.entities)
    requires var ops := Prepared(old_.entities, new_.entities, map[]); ops != [] && AllRenames(ops) && GateOpen(ops)
    ensures var (after, outcome) := Attempt(p, Booted(p, old_), old_.id, new_, map[]);
            && outcome == Promoted && after.manifests == map["d" := Manifest(new_)] && !Serves(p, after, ["d"], "d")
  {
    hide Kept, DbBooted, TellsApart, AllBoundsKept, Applied, ValidApp, DistinctEntityNames, ToolsOk, Prepared, Serves, NoNameClash, ApplyOps, Bootable,
      NamesDistinct, UniquePairs, AllRenames, GateOpen, Booted;
    var w := Booted(p, old_);
    FirstBoot(p, old_, false);
    Attempted(p, w, old_, new_, map[]);
    assert Distinct(["d"]);
    PromotedManifestBoots(p, w, old_.id, Manifest(new_), Options(true, map[]), GOOD_LUCK, ["d"]);
  }

  lemma NoUniqueNoClash(olds: seq<Entity>, news: seq<Entity>)
    requires forall e, f | e in olds + news && f in e.fields :: !f.unique
    ensures NoNameClash(olds, news)
  {
  }

  // ----- drops -----

  const CODE := Optional("b", Text).(unique := true)
  const NOTE := Optional("c", Text)
  const WITH_CODE := Holding("a", [CODE, NOTE])
  const WITHOUT_CODE := Holding("a", [NOTE])

  lemma CodesBoot(p: Platform)
    requires Plain(p)
    ensures BootsClean(p, Serving([WITH_CODE])) && BootsClean(p, Serving([WITHOUT_CODE]))
  {
    hide BootsClean, ValidField, IsIdentifier;
    Identifiers();
    OptionalIsValid([WITH_CODE], "b", Text);
    OptionalIsValid([WITH_CODE], "c", Text);
    OptionalIsValid([WITHOUT_CODE], "c", Text);
    TwoFieldsAreValid([WITH_CODE], WITH_CODE, CODE, NOTE);
    OneFieldIsValid([WITHOUT_CODE], WITHOUT_CODE, NOTE);
    OneEntityBoots(p, WITH_CODE);
    OneEntityBoots(p, WITHOUT_CODE);
  }

  lemma CodeChanges()
    ensures EntityChanges(WITH_CODE, WITHOUT_CODE) == [Op("a", "b", DropField(CODE))]
  {
    hide FieldChanges;
    assert FieldChanges("a", NOTE, NOTE) == [] by { NoteStays(); }
    assert FieldById([CODE, NOTE], "c") == Some(NOTE) && FieldIds([NOTE]) == {"c"};
    assert [NOTE][..0] == [] && [CODE, NOTE][..1] == [CODE] && [CODE][..0] == [];
    assert FieldsOps("a", [CODE, NOTE], []) == [] && FieldsOps("a", [CODE, NOTE], [NOTE]) == [];
    assert DropOps("a", [], [NOTE]) == [] && DropOps("a", [CODE], [NOTE]) == [Op("a", "b", DropField(CODE))];
    assert DropOps("a", [CODE, NOTE], [NOTE]) == [Op("a", "b", DropField(CODE))];
  }

  /** The one change drops a field that boot left in use: it passes the gate, and is rolled back. */
  lemma DropIsRolledBack(p: Platform, oe: Entity, ne: Entity, f: Field)
    requires BootsClean(p, Serving([oe])) && BootsClean(p, Serving([ne])) && oe.id == ne.id
    requires DistinctFieldIds(oe.fields) && DistinctFieldIds(ne.fields)
    requires EntityChanges(oe, ne) == [Op(ne.id, f.id, DropField(f))] && UniquePairs([ne]) <= UniquePairs([oe])
    requires f in oe.fields && f.id !in FieldIds(ne.fields) && (f.unique || f.typ.Reference?)
    ensures GateOpen(Prepared([oe], [ne], map[]))
    ensures Attempt(p, Booted(p, Serving([oe])), "app", Serving([ne]), map[]).1 == RolledBack
  {
    hide Prepared, EntityChanges, Booted, GateOpen, AllRenames, NeedsRebuild, DbBooted, BootsClean, Kept, InStep, NativeOps, Executed, DbOk, CatalogueIs, UniquePairs, Shaped, Named, NamesDistinct, Matches, MatchesButBounds, Lawful, FieldIds, Applied;
    var old_, new_ := Serving([oe]), Serving([ne]);
    FirstBoot(p, old_, true);
    FirstDatabase(p, old_);
    OneNativeChange(oe, ne, Op(ne.id, f.id, DropField(f)));
    var db, ops := DbBooted(p, EMPTY_DB, old_).0, Prepared([oe], [ne], map[]);
    CleanTable(p, db, oe);
    assert Undroppable(db.tables[ne.id], f);
    UndroppableFieldNeverDrops(p, db, oe, ne, ops, f, UniquePairs([oe]));
    ExecutesOne(p, db, old_, new_, ops, oe, ne);
    CleanIsAccepted(p, new_);
    Attempted(p, Booted(p, old_), old_, new_, map[]);
  }

  /** Dropping a unique field of an entity that is not rebuilt is gated, confirmed, and always fails. */
  lemma DroppedUniqueField(p: Platform)
    requires Plain(p)
    ensures GateOpen(Prepared([WITH_CODE], [WITHOUT_CODE], map[]))
    ensures Attempt(p, Booted(p, Serving([WITH_CODE])), "app", Serving([WITHOUT_CODE]), map[]).1 == RolledBack
  {
    hide Prepared, EntityChanges, GateOpen, BootsClean, Attempt, Booted;
    CodesBoot(p);
    CodeChanges();
    NoPairs(WITHOUT_CODE);
    assert CODE in WITH_CODE.fields && "b" !in FieldIds(WITHOUT_CODE.fields);
    DropIsRolledBack(p, WITH_CODE, WITHOUT_CODE, CODE);
  }

  const LINK := Optional("b", Reference).(target := "a")
  const NOTED := Holding("a", [NOTE])
  const LINKED := Holding("a", [NOTE, LINK])

  lemma LinksBoot(p: Platform)
    requires Plain(p)
    ensures BootsClean(p, Serving([NOTED])) && BootsClean(p, Serving([LINKED]))
  {
    hide BootsClean, ValidField, IsIdentifier;
    Identifiers();
    OptionalIsValid([NOTED], "c", Text);
    OptionalIsValid([LINKED], "c", Text);
    LinkIsValid();
    OneFieldIsValid([NOTED], NOTED, NOTE);
    TwoFieldsAreValid([LINKED], LINKED, NOTE, LINK);
    OneEntityBoots(p, NOTED);
    OneEntityBoots(p, LINKED);
  }

  lemma LinkIsValid()
    ensures ValidField([LINKED], LINK)
  {
    assert LINKED in [LINKED] && "a" in EntityIds([LINKED]);
  }

  /** A difference of one change: nothing is missing, and no table is rebuilt. */
  lemma OneNativeChange(oe: Entity, ne: Entity, op: Operation)
    requires oe.id == ne.id && EntityChanges(oe, ne) == [op] && Native(op.change)
    requires !IsRename(op) && WitnessNeeded(op.change).None? && !RebuildOnly(op.change)
    ensures var ops := Prepared([oe], [ne], map[]);
            && SameChanges(ops, [op]) && SameChanges(ops, EntityChanges(oe, ne)) && ops != []
            && GateOpen(ops) && !AllRenames(ops) && !NeedsRebuild(ops)
  {
    hide Prepared, EntityChanges;
    DiffOfOne(oe, ne);
    PreparedIsDiff([oe], [ne], map[]);
    var ops := Prepared([oe], [ne], map[]);
    assert ops[0] in ops;
  }

  lemma OneNativeRun(p: Platform, db: Db, eid: string, ops: seq<Operation>, op: Operation)
    requires SameChanges(ops, [op])
    ensures NativeOps(p, db, eid, ops) == NativeOp(p, db, eid, op.change)
  {
    hide NativeOp, NativeOps;
    NativeOpsOfSameChanges(p, db, eid, ops, [op]);
    OneNativeOp(p, db, eid, op);
  }

  lemma LinkChanges()
    ensures EntityChanges(NOTED, LINKED) == [Op("a", "b", AddField(LINK))]
    ensures EntityChanges(LINKED, NOTED) == [Op("a", "b", DropField(LINK))]
  {
    hide FieldChanges;
    assert FieldById([NOTE], "b").None? && FieldById([NOTE], "c") == Some(NOTE) && FieldById([NOTE, LINK], "c") == Some(NOTE);
    assert FieldChanges("a", NOTE, NOTE) == [] by { NoteStays(); }
    assert [NOTE, LINK][..1] == [NOTE] && [NOTE][..0] == [];
    assert FieldsOps("a", [NOTE], []) == [] && FieldsOps("a", [NOTE, LINK], []) == [];
    assert FieldsOps("a", [NOTE], [NOTE]) == [] && FieldsOps("a", [NOTE, LINK], [NOTE]) == [];
    assert FieldsOps("a", [NOTE], [NOTE, LINK]) == [Op("a", "b", AddField(LINK))];
    assert FieldIds([NOTE]) == {"c"} && FieldIds([NOTE, LINK]) == {"b", "c"};
    assert DropOps("a", [], [NOTE]) == [] && DropOps("a", [], [NOTE, LINK]) == [];
    assert DropOps("a", [NOTE], [NOTE]) == [] && DropOps("a", [NOTE], [NOTE, LINK]) == [];
    assert DropOps("a", [NOTE, LINK], [NOTE]) == [Op("a", "b", DropField(LINK))];
  }

  lemma NoteStays()
    ensures FieldChanges("a", NOTE, NOTE) == []
  {
  }

  lemma LinkIsAdded(p: Platform, db: Db)
    requires Plain(p) && "a" in db.tables && Shaped(db.tables["a"]) && db.tables["a"].rows == map[] && "b" !in db.tables["a"].cols
    ensures NativeOp(p, db, "a", AddField(LINK)).Ok?
    ensures NativeOp(p, NativeOp(p, db, "a", AddField(LINK)).value, "a", DropField(LINK)) == Ok(db)
  {
    assert UsableColumn(p, "b", ColumnDef(LINK));
    AddedFieldDrops(p, db, "a", LINK);
  }

  lemma NoRowsNoKeys(db: Db)
    requires forall t | t in db.tables :: db.tables[t].rows == map[]
    ensures ForeignKeysHold(db)
  {
  }

  lemma SameTablesSameDrop(a: Db, b: Db, name: string, col: string)
    requires a.tables == b.tables && RunDropColumn(a, name, col).Ok?
    ensures RunDropColumn(b, name, col).Ok? && RunDropColumn(b, name, col).value.tables == RunDropColumn(a, name, col).value.tables
  {
    hide Narrowed, InUse;
  }

  lemma CleanNotedTable(p: Platform, db: Db)
    requires BootsClean(p, Serving([NOTED])) && CatalogueIs(db, Serving([NOTED])) && InStep(p, db, Serving([NOTED]), true) && JustCreated(db)
    ensures db.tables.Keys == {"a"} && Shaped(db.tables["a"]) && db.tables["a"].rows == map[] && "b" !in db.tables["a"].cols
  {
    hide BootsClean, InStep, ColumnDef;
    CleanTable(p, db, NOTED);
    assert NOTED in [NOTED] && "a" in EntityIds([NOTED]) && EntityIds([NOTED]) == {"a"};
    assert FieldIds([NOTE]) == {"c"};
  }

  /** What adding the reference and dropping it again does to a database without rows. */
  lemma LinkComesAndGoes(p: Platform, db: Db)
    requires Plain(p) && db.tables.Keys == {"a"} && Shaped(db.tables["a"]) && db.tables["a"].rows == map[] && "b" !in db.tables["a"].cols
    ensures var adds, drops := Prepared([NOTED], [LINKED], map[]), Prepared([LINKED], [NOTED], map[]);
            && GateOpen(adds) && adds != [] && GateOpen(drops) && drops != []
            && var mid := Executed(p, db, Serving([NOTED]), Serving([LINKED]), adds, true);
            && mid.Ok? && Executed(p, mid.value, Serving([LINKED]), Serving([NOTED]), drops, true).Ok?
  {
    hide Prepared, EntityChanges, GateOpen, AllRenames, NeedsRebuild, Executed, NativeOps, ForeignKeysHold, Shaped;
    var adds, drops := Prepared([NOTED], [LINKED], map[]), Prepared([LINKED], [NOTED], map[]);
    LinkChanges();
    OneNativeChange(NOTED, LINKED, Op("a", "b", AddField(LINK)));
    OneNativeChange(LINKED, NOTED, Op("a", "b", DropField(LINK)));
    OneNativeRun(p, db, "a", adds, Op("a", "b", AddField(LINK)));
    LinkIsAdded(p, db);
    var added := NativeOp(p, db, "a", AddField(LINK)).value;
    assert added.tables.Keys == {"a"} && added.tables["a"].rows == map[];
    NoRowsNoKeys(added);
    ExecutesOne(p, db, Serving([NOTED]), Serving([LINKED]), adds, NOTED, LINKED);
    var mid := Executed(p, db, Serving([NOTED]), Serving([LINKED]), adds, true).value;
    OneNativeRun(p, mid, "a", drops, Op("a", "b", DropField(LINK)));
    SameTablesSameDrop(added, mid, "a", "b");
    NoRowsNoKeys(RunDropColumn(mid, "a", "b").value);
    ExecutesOne(p, mid, Serving([LINKED]), Serving([NOTED]), drops, LINKED, NOTED);
  }

  /** A reference added by one migration is dropped by the next. */
  lemma AddedReferenceIsDropped(p: Platform)
    requires Plain(p)
    ensures var (mid, added) := Attempt(p, Booted(p, Serving([NOTED])), "app", Serving([LINKED]), map[]);
            added == Promoted && Attempt(p, mid, "app", Serving([NOTED]), map[]).1 == Promoted
  {
    hide Prepared, Booted, GateOpen, DbBooted, BootsClean, Kept, InStep, Executed, DbOk, JustCreated, CatalogueIs, Shaped, Applied;
    LinksBoot(p);
    FirstBoot(p, Serving([NOTED]), true);
    FirstDatabase(p, Serving([NOTED]));
    var db := DbBooted(p, EMPTY_DB, Serving([NOTED])).0;
    CleanNotedTable(p, db);
    LinkComesAndGoes(p, db);
    CleanIsAccepted(p, Serving([NOTED]));
    CleanIsAccepted(p, Serving([LINKED]));
    Attempted(p, Booted(p, Serving([NOTED])), Serving([NOTED]), Serving([LINKED]), map[]);
    var mid := Attempt(p, Booted(p, Serving([NOTED])), "app", Serving([LINKED]), map[]).0;
    Attempted(p, mid, Serving([LINKED]), Serving([NOTED]), map[]);
  }

  /** The same reference, declared when the table was created, is never dropped. */
  lemma BootedReferenceIsNotDropped(p: Platform)
    requires Plain(p)
    ensures GateOpen(Prepared([LINKED], [NOTED], map[]))
    ensures Attempt(p, Booted(p, Serving([LINKED])), "app", Serving([NOTED]), map[]).1 == RolledBack
  {
    hide Prepared, EntityChanges, GateOpen, BootsClean, Attempt, Booted;
    LinksBoot(p);
    LinkChanges();
    NoPairs(NOTED);
    assert LINK in LINKED.fields && FieldIds([NOTE]) == {"c"};
    DropIsRolledBack(p, LINKED, NOTED, LINK);
  }

  // ----- remaps -----

  function Level(values: seq<string>): Field {
    Optional("b", Enum).(values := values)
  }

  const LOW := Level(["x"])
  const LOW_HIGH := Level(["x", "y"])

  function Remapping(remap: map<string, string>): map<string, Witness> {
    map["b" := Witness(WitnessRemap, CoerceFail, Nil, remap)]
  }

  lemma LevelsBoot(p: Platform)
    requires Plain(p)
    ensures BootsClean(p, OneField(LOW)) && BootsClean(p, OneField(LOW_HIGH))
  {
    hide BootsClean;
    OneFieldBoots(p, LOW);
    OneFieldBoots(p, LOW_HIGH);
  }

  /** The difference that adds enum values is one safe operation; a declared remap is attached to it. */
  lemma GrowthIsPrepared(of: Field, nf: Field, remap: map<string, string>)
    requires of.typ.Enum? && nf.typ.Enum? && of.id == "b" && nf == of.(values := nf.values)
    requires !SameStrings(of.values, nf.values) && !RemovesValues(of, nf)
    ensures var ops := Prepared([Holding("a", [of])], [Holding("a", [nf])], Remapping(remap));
            && |ops| == 1 && ops[0].change == ChangeEnum(of, nf) && ops[0].witness_ == Some(Remapping(remap)["b"])
            && SameChanges(ops, EntityChanges(Holding("a", [of]), Holding("a", [nf])))
            && GateOpen(ops) && !HasDestructive(ops) && NeedsRebuild(ops) && !AllRenames(ops)
            && WitnessOf(ops, "b") == Some(Remapping(remap)["b"])
  {
    hide Prepared, EntityChanges, SameStrings, RemovesValues;
    PreparedOfOne(Holding("a", [of]), Holding("a", [nf]), of, nf, Remapping(remap));
    var ops := Prepared([Holding("a", [of])], [Holding("a", [nf])], Remapping(remap));
    assert |FieldChanges("a", of, nf)| == 1;
    assert ops[0] in ops;
  }

  /** A remap without pairs, on a safe change, passes the gate and always fails. */
  lemma EmptyRemapFails(p: Platform)
    requires Plain(p)
    ensures GateOpen(Prepared(OneField(LOW).entities, OneField(LOW_HIGH).entities, Remapping(map[])))
    ensures Attempt(p, Booted(p, OneField(LOW)), "app", OneField(LOW_HIGH), Remapping(map[])).1 == RolledBack
  {
    hide Prepared, EntityChanges, Booted, GateOpen, AllRenames, NeedsRebuild, DbBooted, BootsClean, Kept, InStep, Rebuild, Executed, JustCreated, DbOk, CatalogueIs, WitnessOf;
    var oe, ne := Holding("a", [LOW]), Holding("a", [LOW_HIGH]);
    var ops := Prepared([oe], [ne], Remapping(map[]));
    LevelsBoot(p);
    FirstBoot(p, OneField(LOW), true);
    GrowthIsPrepared(LOW, LOW_HIGH, map[]);
    var db := DbBooted(p, EMPTY_DB, OneField(LOW)).0;
    assert FieldById(oe.fields, "b") == Some(LOW) && LOW_HIGH in ne.fields;
    EmptyRemapNeverRuns(p, db, oe, ne, ops, ops[0], LOW, LOW_HIGH);
    ExecutesOne(p, db, OneField(LOW), OneField(LOW_HIGH), ops, oe, ne);
    CleanIsAccepted(p, OneField(LOW_HIGH));
    Attempted(p, Booted(p, OneField(LOW)), OneField(LOW), OneField(LOW_HIGH), Remapping(map[]));
  }

  const ALL_LEVELS := Level(["x", "y", "z"])
  const MERGING := Remapping(map["x" := "y"])
  const ESCAPING := Remapping(map["x" := "q"])

  lemma AllLevelsBoot(p: Platform)
    requires Plain(p)
    ensures BootsClean(p, OneField(LOW_HIGH)) && BootsClean(p, OneField(ALL_LEVELS))
  {
    hide BootsClean;
    OneFieldBoots(p, LOW_HIGH);
    OneFieldBoots(p, ALL_LEVELS);
  }

  /** A safe change with one remap attached. */
  lemma RemapsArePrepared(remap: map<string, string>)
    ensures var ops := Prepared(OneField(LOW_HIGH).entities, OneField(ALL_LEVELS).entities, Remapping(remap));
            && AllSafe(ops) && OnlyRemaps(ops) && GateOpen(ops) && NeedsRebuild(ops) && !AllRenames(ops)
            && SameChanges(ops, DiffOps(OneField(LOW_HIGH).entities, OneField(ALL_LEVELS).entities))
            && SameChanges(ops, EntityChanges(Holding("a", [LOW_HIGH]), Holding("a", [ALL_LEVELS])))
            && OpsOf(ops, "a") == ops && WitnessOf(ops, "b") == Some(Remapping(remap)["b"])
  {
    hide Prepared, EntityChanges, DiffOps, GateOpen, NeedsRebuild, AllRenames, WitnessOf;
    GrowthIsPrepared(LOW_HIGH, ALL_LEVELS, remap);
    PreparedIsDiff(OneField(LOW_HIGH).entities, OneField(ALL_LEVELS).entities, Remapping(remap));
    AllOpsAreIts(Prepared(OneField(LOW_HIGH).entities, OneField(ALL_LEVELS).entities, Remapping(remap)),
                 Holding("a", [LOW_HIGH]), Holding("a", [ALL_LEVELS]));
  }

  lemma MergedRowFits(p: Platform, t: Table, ops: seq<Operation>, r: string)
    requires Matches(t, Holding("a", [LOW_HIGH])) && TableOk(p, t) && r in t.rows && WitnessOf(ops, "b") == Some(MERGING["b"]) && Plain(p)
    ensures RowOk(p, Columns([ALL_LEVELS]), RebuiltRow(p, [LOW_HIGH], [ALL_LEVELS], ops, t.rows[r]))
  {
    hide TableOk, Matches, RebuiltRow, WitnessOf, Stored, Declared, ColumnDef, Satisfies, IsIdentifier, Columns, ValidField, RowOk;
    var oe := Holding("a", [LOW_HIGH]);
    Identifiers();
    LevelIsValid([oe], LOW_HIGH);
    OneFieldIsValid([oe], oe, LOW_HIGH);
    OldCell(p, [oe], oe, t, LOW_HIGH, r);
    TextColumns();
    assert FieldById([LOW_HIGH], "b") == Some(LOW_HIGH);
    RebuiltRowCell(p, [LOW_HIGH], [ALL_LEVELS], ops, t.rows[r], ALL_LEVELS);
    RebuiltParts(p, [LOW_HIGH], [ALL_LEVELS], ops, t.rows[r]);
    MergedCellFits(p, Cell(t.rows[r].cells, "b"));
    OneCellRow(p, ALL_LEVELS, RebuiltRow(p, [LOW_HIGH], [ALL_LEVELS], ops, t.rows[r]));
  }

  lemma LevelIsValid(entities: seq<Entity>, f: Field)
    requires f == LOW_HIGH || f == ALL_LEVELS
    ensures ValidField(entities, f)
  {
  }

  lemma TextColumns()
    ensures ColumnDef(LOW_HIGH).affinity == TextAffinity
  {
  }

  /** The remapped rows fit the new column. */
  lemma MergedFits(p: Platform, t: Table, ops: seq<Operation>)
    requires Matches(t, Holding("a", [LOW_HIGH])) && TableOk(p, t) && WitnessOf(ops, "b") == Some(MERGING["b"]) && Plain(p)
    ensures TableOk(p, RebuiltTable(p, Holding("a", [LOW_HIGH]), Holding("a", [ALL_LEVELS]), ops, t))
  {
    hide TableOk, Matches, RebuiltRow, WitnessOf, RowOk, Columns, Indexes;
    var oe, ne := Holding("a", [LOW_HIGH]), Holding("a", [ALL_LEVELS]);
    var rows := RebuiltRows(p, oe.fields, ne.fields, ops, t.rows);
    forall r | r in rows ensures RowOk(p, Columns(ne.fields), rows[r]) {
      MergedRowFits(p, t, ops, r);
    }
    NoIndexesOk(p, ne, RebuiltTable(p, oe, ne, ops, t));
  }

  lemma MergedCellFits(p: Platform, v: Value)
    requires Satisfies(p, "b", ColumnDef(LOW_HIGH), v) && Stored(p, TextAffinity, v) == v && Plain(p)
    ensures var after := Stored(p, ColumnDef(ALL_LEVELS).affinity, Declared(p, Some(LOW_HIGH), ALL_LEVELS, Some(MERGING["b"]), v));
            Satisfies(p, "b", ColumnDef(ALL_LEVELS), after) && Stored(p, ColumnDef(ALL_LEVELS).affinity, after) == after
  {
  }

  lemma OneCellRow(p: Platform, f: Field, row: Row)
    requires row.cells.Keys == FieldIds([f]) && f.id in row.cells
    requires Satisfies(p, f.id, ColumnDef(f), row.cells[f.id]) && Stored(p, ColumnDef(f).affinity, row.cells[f.id]) == row.cells[f.id]
    ensures RowOk(p, Columns([f]), row)
  {
    hide ColumnDef, Satisfies, Stored;
  }

  lemma NoIndexesOk(p: Platform, e: Entity, t: Table)
    requires forall f | f in e.fields :: !f.unique
    requires t.indexes == Indexes(e.id, e.fields) && t.inline == {} && forall r | r in t.rows :: RowOk(p, t.cols, t.rows[r])
    ensures TableOk(p, t)
  {
    hide RowOk;
  }

  lemma OldTables(p: Platform, db: Db, e: Entity)
    requires OldDb(p, db, Serving([e])) && NamesDistinct(UniquePairs([e]))
    ensures db.tables.Keys == {e.id} && Matches(db.tables[e.id], e) && TableOk(p, db.tables[e.id])
    ensures Ready(db, e.id, UniquePairs([e]))
  {
    hide Matches, TableOk, NamesDistinct, UniquePairs;
    assert e in [e] && e.id in EntityIds([e]) && EntityIds([e]) == {e.id};
    OkIsShaped(p, db.tables[e.id]);
    forall x | x in Serving([e]).entities ensures x == e {
    }
    ExactMatches(db.tables[e.id], e);
    CatalogueIsNamed(db, Serving([e]), UniquePairs([e]));
  }

  /** A remap that merges two values succeeds on every old database, and forgets which rows held which. */
  lemma MergingRemap(p: Platform, db: Db, r: string)
    requires Plain(p) && OldDb(p, db, OneField(LOW_HIGH)) && Lawful(p, db) && "a" in db.tables
    requires r in db.tables["a"].rows && Cell(db.tables["a"].rows[r].cells, "b") == TEXT("x")
    ensures var ops := Prepared(OneField(LOW_HIGH).entities, OneField(ALL_LEVELS).entities, MERGING);
            && AllSafe(ops) && GateOpen(ops) && Accepted(Manifest(OneField(ALL_LEVELS)))
            && Executed(p, db, OneField(LOW_HIGH), OneField(ALL_LEVELS), ops, true).Ok?
            && !Recoverable(p, db, OneField(LOW_HIGH), OneField(ALL_LEVELS), ops, true)
  {
    hide Prepared, EntityChanges, GateOpen, AllRenames, NeedsRebuild, BootsClean, Executed, OldDb, Lawful, WitnessOf, AllSafe, OnlyRemaps, DiffOps, Recoverable, BlursHeld;
    var oe, ne := Holding("a", [LOW_HIGH]), Holding("a", [ALL_LEVELS]);
    var ops := Prepared([oe], [ne], MERGING);
    AllLevelsBoot(p);
    RemapsArePrepared(map["x" := "y"]);
    MergingSucceeds(p, db);
    CleanIsAccepted(p, OneField(LOW_HIGH));
    CleanIsAccepted(p, OneField(ALL_LEVELS));
    assert EntityById([oe], "a") == Some(oe) && ne in [ne];
    MergesX(p, db.tables["a"], ops, r);
    BlurredIsLost(p, db, OneField(LOW_HIGH), OneField(ALL_LEVELS), ops, true, oe, ne);
  }

  lemma MergesX(p: Platform, t: Table, ops: seq<Operation>, r: string)
    requires NeedsRebuild(ops) && WitnessOf(ops, "b") == Some(MERGING["b"])
    requires r in t.rows && Cell(t.rows[r].cells, "b") == TEXT("x")
    ensures BlursHeld(p, t, Holding("a", [LOW_HIGH]), Holding("a", [ALL_LEVELS]), ops)
  {
    hide WitnessOf, NeedsRebuild;
    assert "y" in LOW_HIGH.values && MapsTo(map["x" := "y"], "y") == MapsTo(map["x" := "y"], "x");
    assert MergesCell(LOW_HIGH, ALL_LEVELS, WitnessOf(ops, "b"), TEXT("x"));
    assert ALL_LEVELS in [ALL_LEVELS] && FieldById([LOW_HIGH], "b") == Some(LOW_HIGH);
  }

  lemma MergingSucceeds(p: Platform, db: Db)
    requires Plain(p) && OldDb(p, db, OneField(LOW_HIGH)) && Lawful(p, db)
    ensures Executed(p, db, OneField(LOW_HIGH), OneField(ALL_LEVELS),
                     Prepared(OneField(LOW_HIGH).entities, OneField(ALL_LEVELS).entities, MERGING), true).Ok?
  {
    hide Prepared, EntityChanges, AllRenames, NeedsRebuild, Executed, OldDb, Rebuild, Lawful, WitnessOf, OnlyRemaps, DiffOps, AllSafe, GateOpen, RebuiltTable, ForeignKeysHold;
    var oe, ne := Holding("a", [LOW_HIGH]), Holding("a", [ALL_LEVELS]);
    var ops := Prepared([oe], [ne], MERGING);
    RemapsArePrepared(map["x" := "y"]);
    MergingRebuilds(p, db, ops);
    ExecutesOne(p, db, OneField(LOW_HIGH), OneField(ALL_LEVELS), ops, oe, ne);
  }

  lemma MergingRebuilds(p: Platform, db: Db, ops: seq<Operation>)
    requires Plain(p) && OldDb(p, db, OneField(LOW_HIGH)) && Lawful(p, db) && WitnessOf(ops, "b") == Some(MERGING["b"])
    ensures var r := Rebuild(p, db, Holding("a", [LOW_HIGH]), Holding("a", [ALL_LEVELS]), ops); r.Ok? && ForeignKeysHold(r.value)
  {
    hide Rebuild, Matches, TableOk, OldDb, Lawful, WitnessOf, RebuiltTable, UsableColumns, ForeignKeysHold, NamesDistinct, Selectable, HasEmptyRemap, LosesInformation;
    var oe, ne := Holding("a", [LOW_HIGH]), Holding("a", [ALL_LEVELS]);
    NoPairs(oe);
    OldTables(p, db, oe);
    MergedFits(p, db.tables["a"], ops);
    SpellableColumns(p, ne);
    MergeNotRefused(p, db.tables["a"], ops);
    LoneTableRebuilds(p, db, oe, ne, ops);
  }

  /** Without indexes and foreign keys, a rebuild of the only table succeeds once nothing refuses its rows. */
  lemma LoneTableRebuilds(p: Platform, db: Db, oe: Entity, ne: Entity, ops: seq<Operation>)
    requires db.tables.Keys == {"a"} && ne.id == "a" && Ready(db, "a", {}) && Lawful(p, db) && UsableColumns(p, Columns(ne.fields))
    requires (forall f | f in ne.fields :: !f.unique && !f.typ.Reference?) && DistinctFieldIds(ne.fields)
    requires db.tables["a"].cols.Keys == FieldIds(oe.fields) && TableOk(p, RebuiltTable(p, oe, ne, ops, db.tables["a"]))
    requires Selectable(oe.fields, ne.fields, ops) && !HasEmptyRemap(oe.fields, ne.fields, ops) && !HasUnreadable(p, oe.fields, ne.fields)
    requires !LosesInformation(p, db.tables["a"], oe.fields, ne.fields, ops)
    ensures var r := Rebuild(p, db, oe, ne, ops); r.Ok? && ForeignKeysHold(r.value)
  {
    hide Rebuild, TableOk, Lawful, RebuiltTable, NamesAccepted, UsableColumns, Columns, FieldIds, ForeignKeysHold, Named, NamesDistinct, Shaped, Selectable, HasEmptyRemap, HasUnreadable, LosesInformation;
    var t := db.tables["a"];
    NoPairs(ne);
    assert TempName("a") != "a" by { assert |TempName("a")| == 5; }
    RebuildNames(p, db, ne, {});
    RebuildSucceeds(p, db, oe, ne, ops, RebuiltTable(p, oe, ne, ops, t), {});
    RebuildOutcome(p, db, oe, ne, ops, {});
    NoForeignKeys(p, Rebuild(p, db, oe, ne, ops).value, oe, ne, ops, t);
  }

  lemma NoPairs(e: Entity)
    requires forall f | f in e.fields :: !f.unique
    ensures UniquePairs([e]) == {} && NamesDistinct({})
  {
  }

  lemma MergeNotRefused(p: Platform, t: Table, ops: seq<Operation>)
    requires WitnessOf(ops, "b") == Some(MERGING["b"]) && Matches(t, Holding("a", [LOW_HIGH]))
    ensures t.cols.Keys == FieldIds([LOW_HIGH])
    ensures Selectable([LOW_HIGH], [ALL_LEVELS], ops) && !HasEmptyRemap([LOW_HIGH], [ALL_LEVELS], ops)
    ensures !LosesInformation(p, t, [LOW_HIGH], [ALL_LEVELS], ops)
  {
    hide WitnessOf, LossyRows, ColumnDef, Indexes;
    ColumnsOfFields([LOW_HIGH]);
    assert FieldById([LOW_HIGH], "b") == Some(LOW_HIGH);
    assert "x" in MERGING["b"].remap;
  }

  lemma NoForeignKeys(p: Platform, db: Db, oe: Entity, ne: Entity, ops: seq<Operation>, t: Table)
    requires db.tables.Keys == {ne.id} && db.tables[ne.id] == RebuiltTable(p, oe, ne, ops, t)
    requires forall f | f in ne.fields :: !f.typ.Reference?
    ensures ForeignKeysHold(db)
  {
    hide RebuiltRows, Indexes, ColumnDef;
    forall f | f in ne.fields {
      TargetOf(f);
    }
  }

  /** A remap out of the new value set passes the gate and fails on every database that holds the value. */
  lemma EscapingRemap(p: Platform, db: Db, r: string)
    requires Plain(p) && OldDb(p, db, OneField(LOW_HIGH)) && "a" in db.tables
    requires r in db.tables["a"].rows && Cell(db.tables["a"].rows[r].cells, "b") == TEXT("x")
    ensures var ops := Prepared(OneField(LOW_HIGH).entities, OneField(ALL_LEVELS).entities, ESCAPING);
            && AllSafe(ops) && GateOpen(ops) && Accepted(Manifest(OneField(ALL_LEVELS)))
            && Executed(p, db, OneField(LOW_HIGH), OneField(ALL_LEVELS), ops, true).Err?
  {
    hide Prepared, EntityChanges, GateOpen, AllRenames, NeedsRebuild, BootsClean, Executed, OldDb, WitnessOf, AllSafe, OnlyRemaps, DiffOps, NoNameClash, WellShaped, ValidEntity, ToolsOk, CatalogueButBounds;
    var oe, ne := Holding("a", [LOW_HIGH]), Holding("a", [ALL_LEVELS]);
    var ops := Prepared([oe], [ne], ESCAPING);
    AllLevelsBoot(p);
    RemapsArePrepared(map["x" := "q"]);
    CleanIsAccepted(p, OneField(LOW_HIGH));
    CleanIsAccepted(p, OneField(ALL_LEVELS));
    NoUniqueNoClash([oe], [ne]);
    assert EntityById([oe], "a") == Some(oe) && FieldById([LOW_HIGH], "b") == Some(LOW_HIGH) && ne in [ne] && ALL_LEVELS in ne.fields;
    assert IsRemapped(ALL_LEVELS, WitnessOf(ops, "b")) && MapsTo(map["x" := "q"], "x") !in ALL_LEVELS.values;
    RemapOutsideIsRefused(p, db, OneField(LOW_HIGH), OneField(ALL_LEVELS), ops, true, oe, ne, LOW_HIGH, ALL_LEVELS, r, "x");
  }

  const MERGED_OUTSIDE := Remapping(map["x" := "q", "y" := "q"])

  lemma HeldLevel(p: Platform, v: Value)
    requires HeldBy(p, LOW_HIGH, v) && v.TEXT? && Plain(p)
    ensures v.s == "x" || v.s == "y"
  {
  }

  /** The rows that remap takes out of the new value set are never migrated, so nothing is ever merged. */
  lemma OutsideMergesNothing(p: Platform, db: Db, ops: seq<Operation>)
    requires OldDb(p, db, OneField(LOW_HIGH)) && WitnessOf(ops, "b") == Some(MERGED_OUTSIDE["b"]) && NeedsRebuild(ops) && Plain(p)
    requires OpsOf(ops, "a") == ops && "a" in db.tables
    requires forall r | r in db.tables["a"].rows :: Cell(db.tables["a"].rows[r].cells, "b") != TEXT("x")
    requires forall r | r in db.tables["a"].rows :: Cell(db.tables["a"].rows[r].cells, "b") != TEXT("y")
    ensures !BlursAny(p, db, OneField(LOW_HIGH).entities, OneField(ALL_LEVELS).entities, ops)
  {
    hide WitnessOf, NeedsRebuild, OldDb, ColumnDef, Stored, Satisfies, Matches, TableOk, IsIdentifier, ValidField, ParsedEntity, MergesValue, HeldBy, Ready;
    var oe, ne := Holding("a", [LOW_HIGH]), Holding("a", [ALL_LEVELS]);
    Identifiers();
    LevelIsValid([oe], LOW_HIGH);
    OneFieldIsValid([oe], oe, LOW_HIGH);
    NoPairs(oe);
    OldTables(p, db, oe);
    assert FieldById([LOW_HIGH], "b") == Some(LOW_HIGH) && EntityById([oe], "a") == Some(oe);
    var t := db.tables["a"];
    forall r | r in t.rows ensures !BlursCell(p, LOW_HIGH, ALL_LEVELS, WitnessOf(ops, "b"), Cell(t.rows[r].cells, "b")) {
      OldCell(p, [oe], oe, t, LOW_HIGH, r);
      HeldIs(p, LOW_HIGH, Cell(t.rows[r].cells, "b"));
      if Cell(t.rows[r].cells, "b").TEXT? {
        HeldLevel(p, Cell(t.rows[r].cells, "b"));
      }
    }
  }

  /**
   * A remap need not be injective for every old database that migrates to be recoverable: this one
   * takes both values to a third that the new enum lacks, and the CHECK refuses every row that holds one.
   */
  lemma MergedOutsideIsRecoverable(p: Platform, db: Db)
    requires Plain(p) && OldDb(p, db, OneField(LOW_HIGH)) && "a" in db.tables
    ensures !Injective(LOW_HIGH, MERGED_OUTSIDE["b"].remap)
    ensures var ops := Prepared(OneField(LOW_HIGH).entities, OneField(ALL_LEVELS).entities, MERGED_OUTSIDE);
            && AllSafe(ops) && GateOpen(ops)
            && (Executed(p, db, OneField(LOW_HIGH), OneField(ALL_LEVELS), ops, true).Ok? ==>
                  Recoverable(p, db, OneField(LOW_HIGH), OneField(ALL_LEVELS), ops, true))
  {
    hide Prepared, EntityChanges, GateOpen, AllRenames, NeedsRebuild, BootsClean, Executed, OldDb, WitnessOf, AllSafe, OnlyRemaps, DiffOps, NoNameClash, BlursAny, Recoverable, ValidApp, ToolsOk;
    var remap := map["x" := "q", "y" := "q"];
    var ops := Prepared(OneField(LOW_HIGH).entities, OneField(ALL_LEVELS).entities, MERGED_OUTSIDE);
    assert "x" in LOW_HIGH.values && "y" in LOW_HIGH.values && MapsTo(remap, "x") == MapsTo(remap, "y");
    AllLevelsBoot(p);
    RemapsArePrepared(remap);
    CleanIsAccepted(p, OneField(LOW_HIGH));
    CleanIsAccepted(p, OneField(ALL_LEVELS));
    NoUniqueNoClash(OneField(LOW_HIGH).entities, OneField(ALL_LEVELS).entities);
    if Executed(p, db, OneField(LOW_HIGH), OneField(ALL_LEVELS), ops, true).Ok? {
      forall r | r in db.tables["a"].rows
        ensures Cell(db.tables["a"].rows[r].cells, "b") != TEXT("x") && Cell(db.tables["a"].rows[r].cells, "b") != TEXT("y")
      {
        OutsideIsNotHeld(p, db, ops, r, "x");
        OutsideIsNotHeld(p, db, ops, r, "y");
      }
      OutsideMergesNothing(p, db, ops);
      RemapsOnSafeChanges(p, db, OneField(LOW_HIGH), OneField(ALL_LEVELS), ops, true);
    }
  }

  lemma OutsideIsNotHeld(p: Platform, db: Db, ops: seq<Operation>, r: string, x: string)
    requires ValidApp(OneField(LOW_HIGH)) && ValidApp(OneField(ALL_LEVELS)) && OldDb(p, db, OneField(LOW_HIGH))
    requires SameChanges(ops, DiffOps(OneField(LOW_HIGH).entities, OneField(ALL_LEVELS).entities))
    requires OpsOf(ops, "a") == ops && NeedsRebuild(ops) && WitnessOf(ops, "b") == Some(MERGED_OUTSIDE["b"])
    requires "a" in db.tables && r in db.tables["a"].rows && (x == "x" || x == "y") && Plain(p)
    requires Executed(p, db, OneField(LOW_HIGH), OneField(ALL_LEVELS), ops, true).Ok?
    ensures Cell(db.tables["a"].rows[r].cells, "b") != TEXT(x)
  {
    hide Executed, OldDb, NeedsRebuild, WitnessOf, DiffOps, NoNameClash, ValidApp;
    var oe, ne := Holding("a", [LOW_HIGH]), Holding("a", [ALL_LEVELS]);
    NoUniqueNoClash([oe], [ne]);
    assert EntityById([oe], "a") == Some(oe) && FieldById([LOW_HIGH], "b") == Some(LOW_HIGH) && ne in [ne] && ALL_LEVELS in ne.fields;
    assert MapsTo(map["x" := "q", "y" := "q"], x) == "q" && "q" !in ALL_LEVELS.values;
    if Cell(db.tables["a"].rows[r].cells, "b") == TEXT(x) {
      RemapOutsideIsRefused(p, db, OneField(LOW_HIGH), OneField(ALL_LEVELS), ops, true, oe, ne, LOW_HIGH, ALL_LEVELS, r, x);
    }
  }

  // ----- rebuilds -----

  const OPEN := Optional("b", Text)
  const REQUIRED := OPEN.(required := true)
  const OPEN_X := Holding("x", [OPEN])
  const REQUIRED_X := Holding("x", [REQUIRED])
  const TEMP_OF_X := Holding("mig_x", [NOTE])

  const FILLING := map["b" := Witness(WitnessBackfill, CoerceFail, Str("n"), map[])]

  lemma TwoTablesBoot(p: Platform, e: Entity)
    requires Plain(p) && (e == OPEN_X || e == REQUIRED_X)
    ensures BootsClean(p, Serving([e, TEMP_OF_X]))
  {
    hide IsIdentifier, ValidField, ValidEntity, UsableColumns, ToolsOk, Bootable;
    Identifiers();
    OptionalIsValid([e, TEMP_OF_X], "b", Text);
    OptionalIsValid([e, TEMP_OF_X], "c", Text);
    RequiredIsValid([e, TEMP_OF_X]);
    OneFieldIsValid([e, TEMP_OF_X], e, e.fields[0]);
    OneFieldIsValid([e, TEMP_OF_X], TEMP_OF_X, NOTE);
    TwoEntitiesAreAccepted(e, TEMP_OF_X);
    SpellableColumns(p, e);
    SpellableColumns(p, TEMP_OF_X);
    assert '_' in "mig_x" && !IsInternal("x") && !IsInternal("mig_x");
    assert UniquePairs([e, TEMP_OF_X]) == {};
    ReadableIsBootable(p, Serving([e, TEMP_OF_X]));
  }

  lemma RequiredIsValid(entities: seq<Entity>)
    ensures ValidField(entities, REQUIRED)
  {
  }

  lemma TighteningDiff()
    ensures DiffOps([OPEN_X, TEMP_OF_X], [REQUIRED_X, TEMP_OF_X]) == [Op("x", "b", ChangeRequired(OPEN, REQUIRED))]
  {
    hide EntityChanges, FieldChanges, EntityDropOps;
    var olds, news := [OPEN_X, TEMP_OF_X], [REQUIRED_X, TEMP_OF_X];
    assert EntityById(olds, "x") == Some(OPEN_X);
    assert EntityById(olds, "mig_x") == Some(TEMP_OF_X) by { assert EntityById(olds[1..], "mig_x") == Some(TEMP_OF_X); }
    ChangesOfOne(OPEN_X, REQUIRED_X, OPEN, REQUIRED);
    TighteningAlone();
    NothingChanges();
    assert news[..1] == [REQUIRED_X] && [REQUIRED_X][..0] == [];
    assert EntitiesOps(olds, []) == [];
    assert EntitiesOps(olds, [REQUIRED_X]) == EntityOps(olds, REQUIRED_X);
    assert EntitiesOps(olds, news) == EntityOps(olds, REQUIRED_X) + EntityOps(olds, TEMP_OF_X);
    assert EntityIds(olds) == {"x", "mig_x"} && EntityIds(news) == {"x", "mig_x"};
    NoOtherEntities(olds, news);
  }

  lemma TighteningIsPrepared()
    ensures var olds, news := [OPEN_X, TEMP_OF_X], [REQUIRED_X, TEMP_OF_X];
            var ops := Prepared(olds, news, FILLING);
            && |ops| == 1 && ops[0].change == ChangeRequired(OPEN, REQUIRED) && ops[0].entityId == "x"
            && ops[0].witness_ == Some(FILLING["b"]) && SameChanges(ops, DiffOps(olds, news))
            && GateOpen(ops) && !AllRenames(ops) && OpsOf(ops, "x") == ops && NeedsRebuild(ops)
  {
    hide DiffOps;
    var ops := Prepared([OPEN_X, TEMP_OF_X], [REQUIRED_X, TEMP_OF_X], FILLING);
    TighteningDiff();
    OneOperation(ops);
    assert ops[0] in ops;
  }

  lemma OneOperation(ops: seq<Operation>)
    requires |ops| == 1 && ops[0].entityId == "x"
    ensures OpsOf(ops, "x") == ops
  {
    assert ops[..0] == [];
  }

  lemma TighteningAlone()
    ensures FieldChanges("x", OPEN, REQUIRED) == [Op("x", "b", ChangeRequired(OPEN, REQUIRED))]
  {
  }

  lemma NothingChanges()
    ensures EntityChanges(TEMP_OF_X, TEMP_OF_X) == []
  {
    hide FieldChanges;
    ChangesOfOne(TEMP_OF_X, TEMP_OF_X, NOTE, NOTE);
    assert FieldChanges("mig_x", NOTE, NOTE) == [] by { NoteOfTempStays(); }
  }

  lemma NoteOfTempStays()
    ensures FieldChanges("mig_x", NOTE, NOTE) == []
  {
  }

  /** An entity named like the temporary table of another keeps that one from ever being rebuilt. */
  lemma TakenTempName(p: Platform)
    requires Plain(p)
    ensures GateOpen(Prepared([OPEN_X, TEMP_OF_X], [REQUIRED_X, TEMP_OF_X], FILLING))
    ensures Attempt(p, Booted(p, Serving([OPEN_X, TEMP_OF_X])), "app", Serving([REQUIRED_X, TEMP_OF_X]), FILLING).1 == RolledBack
  {
    hide Prepared, Booted, GateOpen, AllRenames, NeedsRebuild, DbBooted, BootsClean, Kept, InStep, Rebuild, Executed, JustCreated, DbOk, CatalogueIs, DiffOps, OpsOf, CatalogueButBounds;
    var old_, new_ := Serving([OPEN_X, TEMP_OF_X]), Serving([REQUIRED_X, TEMP_OF_X]);
    var ops := Prepared(old_.entities, new_.entities, FILLING);
    TwoTablesBoot(p, OPEN_X);
    TwoTablesBoot(p, REQUIRED_X);
    FirstBoot(p, old_, true);
    FirstDatabase(p, old_);
    TighteningIsPrepared();
    var db := DbBooted(p, EMPTY_DB, old_).0;
    ExactButBounds(db, old_);
    assert TEMP_OF_X in old_.entities && TempName("x") == "mig_x";
    TakenTempNameBlocksRebuild(p, db, old_, OPEN_X, REQUIRED_X, ops, TEMP_OF_X);
    assert EntityById(old_.entities, "x") == Some(OPEN_X);
    NothingAdded(p, db, new_.entities, ops) by { OneChangeAddsNothing(ops); }
    FirstEntityFails(p, db, old_, new_, ops, OPEN_X, [TEMP_OF_X], REQUIRED_X);
    CleanIsAccepted(p, new_);
    Attempted(p, Booted(p, old_), old_, new_, FILLING);
  }

  lemma OneChangeAddsNothing(ops: seq<Operation>)
    requires |ops| == 1 && !ops[0].change.AddEntity?
    ensures forall eid :: !Adds(ops, eid)
  {
  }

  const MEASURE := Optional("b", Real)
  const REQUIRED_COUNT := COUNT.(required := true)

  /** Narrowed and tightened at once: no witness opens the gate. */
  lemma NarrowedAndTightened(witnesses: map<string, Witness>)
    ensures Accepted(Manifest(OneField(MEASURE))) && Accepted(Manifest(OneField(REQUIRED_COUNT)))
    ensures !GateOpen(Prepared(OneField(MEASURE).entities, OneField(REQUIRED_COUNT).entities, witnesses))
  {
    hide Prepared, GateOpen, IsIdentifier, ValidField, ValidEntity, ToolsOk;
    var oe, ne := Holding("a", [MEASURE]), Holding("a", [REQUIRED_COUNT]);
    Identifiers();
    OptionalIsValid([oe], "b", Real);
    CountIsValid([ne]);
    OneFieldIsValid([oe], oe, MEASURE);
    OneFieldIsValid([ne], ne, REQUIRED_COUNT);
    OneEntityIsAccepted(oe);
    OneEntityIsAccepted(ne);
    assert EntityById([oe], "a") == Some(oe) && FieldById([MEASURE], "b") == Some(MEASURE) && ne in [ne] && REQUIRED_COUNT in ne.fields;
    NarrowedAndTightenedNeverPasses([oe], [ne], witnesses, oe, ne, MEASURE, REQUIRED_COUNT);
  }

  lemma CountIsValid(entities: seq<Entity>)
    ensures ValidField(entities, REQUIRED_COUNT)
  {
  }

  const NEEDED_MEASURE := MEASURE.(required := true)
  const ZEROES := map["b" := Witness(WitnessBackfill, CoerceFail, Float(0.0), map[])]

  lemma MeasuresAreValid()
    ensures ValidEntity([Holding("a", [COUNT])], Holding("a", [COUNT]))
    ensures ValidEntity([Holding("a", [NEEDED_MEASURE])], Holding("a", [NEEDED_MEASURE]))
  {
    hide IsIdentifier, ValidField;
    var oe, ne := Holding("a", [COUNT]), Holding("a", [NEEDED_MEASURE]);
    Identifiers();
    OptionalIsValid([oe], "b", Integer);
    assert ValidField([ne], NEEDED_MEASURE) by { MeasureIsValid([ne]); }
    OneFieldIsValid([oe], oe, COUNT);
    OneFieldIsValid([ne], ne, NEEDED_MEASURE);
  }

  lemma MeasureIsValid(entities: seq<Entity>)
    ensures ValidField(entities, NEEDED_MEASURE)
  {
  }

  lemma MeasureIsOnlyChange()
    ensures OnlyChange(Holding("a", [COUNT]), Holding("a", [NEEDED_MEASURE]), COUNT, NEEDED_MEASURE)
  {
    assert FieldById([COUNT], "b") == Some(COUNT) && FieldIds([COUNT]) == {"b"} && FieldIds([NEEDED_MEASURE]) == {"b"};
  }

  lemma MeasureRebuilds(p: Platform, db: Db)
    requires Plain(p) && OldDb(p, db, OneField(COUNT)) && Lawful(p, db) && "a" in db.tables
    ensures db.tables.Keys == {"a"} && Ready(db, "a", {})
    ensures var oe, ne := Holding("a", [COUNT]), Holding("a", [NEEDED_MEASURE]);
            var ops := Prepared([oe], [ne], ZEROES);
            && GateOpen(ops) && NeedsRebuild(ops) && SameChanges(ops, EntityChanges(oe, ne))
            && (Rebuild(p, db, oe, ne, ops).Ok? <==> NoNulls(db.tables["a"], "b"))
  {
    hide Prepared, EntityChanges, GateOpen, NeedsRebuild, Rebuild, OldDb, Lawful, OnlyChange, ValidEntity, NoNulls, NoRemap, Named, NamesDistinct, UniquePairs, Shaped, Matches, TableOk, DiffOps, OpsOf;
    var oe, ne := Holding("a", [COUNT]), Holding("a", [NEEDED_MEASURE]);
    var ops := Prepared([oe], [ne], ZEROES);
    MeasuresAreValid();
    MeasureIsOnlyChange();
    NoPairs(oe);
    NoPairs(ne);
    OldTables(p, db, oe);
    PreparedOfOne(oe, ne, COUNT, NEEDED_MEASURE, ZEROES);
    AllOpsAreIts(ops, oe, ne);
    assert EntityById([oe], "a") == Some(oe) && ne in [ne];
    assert TempName("a") != "a" by { assert |TempName("a")| == 5; }
    NoEnumNoRemap(ne, ops);
    WidenedAndTightenedNeedsNoNulls(p, db, [oe], [ne], ZEROES, oe, ne, COUNT, NEEDED_MEASURE, {});
  }

  /** Widened and tightened at once: the backfill opens the gate, and one null fails the migration all the same. */
  lemma UnusedBackfill(p: Platform, db: Db)
    requires Plain(p) && OldDb(p, db, OneField(COUNT)) && Lawful(p, db) && "a" in db.tables
    ensures Accepted(Manifest(OneField(NEEDED_MEASURE)))
    ensures var ops := Prepared(OneField(COUNT).entities, OneField(NEEDED_MEASURE).entities, ZEROES);
            && GateOpen(ops)
            && (Executed(p, db, OneField(COUNT), OneField(NEEDED_MEASURE), ops, true).Ok? <==> NoNulls(db.tables["a"], "b"))
  {
    hide Prepared, EntityChanges, GateOpen, AllRenames, NeedsRebuild, Executed, Rebuild, OldDb, Lawful, ForeignKeysHold, ValidEntity, NoNulls, ToolsOk, RebuiltTable, Ready;
    var oe, ne := Holding("a", [COUNT]), Holding("a", [NEEDED_MEASURE]);
    var ops := Prepared([oe], [ne], ZEROES);
    MeasuresAreValid();
    OneEntityIsAccepted(ne);
    MeasureRebuilds(p, db);
    RebuildIsNotRename(ops);
    ExecutesOne(p, db, OneField(COUNT), OneField(NEEDED_MEASURE), ops, oe, ne);
    if Rebuild(p, db, oe, ne, ops).Ok? {
      NoPairs(ne);
      RebuildOutcome(p, db, oe, ne, ops, {});
      NoForeignKeys(p, Rebuild(p, db, oe, ne, ops).value, oe, ne, ops, db.tables["a"]);
    }
  }

  lemma RebuildIsNotRename(ops: seq<Operation>)
    requires NeedsRebuild(ops)
    ensures !AllRenames(ops)
  {
  }

  lemma NoEnumNoRemap(ne: Entity, ops: seq<Operation>)
    requires forall f | f in ne.fields :: !f.typ.Enum?
    ensures NoRemap(ne.fields, ops)
  {
  }

  // ----- a bound beside a native change -----

  const COUNTED := Holding("a", [COUNT])
  const BOUNDED_AND_NOTED := Holding("a", [BOUNDED, NOTE])

  lemma NoteIsAdded()
    ensures EntityChanges(COUNTED, BOUNDED_AND_NOTED) == [Op("a", "c", AddField(NOTE))]
  {
    hide FieldChanges;
    assert FieldById([COUNT], "c").None? && FieldById([COUNT], "b") == Some(COUNT);
    assert FieldChanges("a", COUNT, BOUNDED) == [] by { BoundIsNoChange(); }
    assert [BOUNDED, NOTE][..1] == [BOUNDED] && [BOUNDED][..0] == [] && [COUNT][..0] == [];
    assert FieldsOps("a", [COUNT], []) == [] && FieldsOps("a", [COUNT], [BOUNDED]) == [];
    assert FieldsOps("a", [COUNT], [BOUNDED, NOTE]) == [Op("a", "c", AddField(NOTE))];
    assert FieldIds([BOUNDED, NOTE]) == {"b", "c"};
    assert DropOps("a", [], [BOUNDED, NOTE]) == [] && DropOps("a", [COUNT], [BOUNDED, NOTE]) == [];
  }

  lemma BoundIsNoChange()
    ensures FieldChanges("a", COUNT, BOUNDED) == []
  {
  }

  lemma NoteColumnIsAdded(p: Platform, db: Db)
    requires Plain(p) && db.tables.Keys == {"a"} && "c" !in db.tables["a"].cols && db.tables["a"].rows == map[]
    ensures var r := NativeOp(p, db, "a", AddField(NOTE)); r.Ok? && ForeignKeysHold(r.value)
  {
    assert UsableColumn(p, "c", ColumnDef(NOTE));
    NoRowsNoKeys(NativeOp(p, db, "a", AddField(NOTE)).value);
  }

  lemma BoundedNotedBoots(p: Platform)
    requires Plain(p)
    ensures BootsClean(p, Serving([COUNTED])) && BootsClean(p, Serving([BOUNDED_AND_NOTED]))
  {
    hide BootsClean, ValidField, IsIdentifier;
    Identifiers();
    CountsBoot(p);
    assert ValidField([BOUNDED_AND_NOTED], BOUNDED) by { BoundIsValid(); }
    OptionalIsValid([BOUNDED_AND_NOTED], "c", Text);
    TwoFieldsAreValid([BOUNDED_AND_NOTED], BOUNDED_AND_NOTED, BOUNDED, NOTE);
    OneEntityBoots(p, BOUNDED_AND_NOTED);
  }

  lemma BoundIsValid()
    ensures ValidField([BOUNDED_AND_NOTED], BOUNDED)
  {
  }

  lemma CountedTable(p: Platform, db: Db)
    requires BootsClean(p, Serving([COUNTED])) && CatalogueIs(db, Serving([COUNTED])) && InStep(p, db, Serving([COUNTED]), true) && JustCreated(db)
    ensures db.tables.Keys == {"a"} && db.tables["a"].rows == map[] && "c" !in db.tables["a"].cols
  {
    hide BootsClean, InStep, ColumnDef;
    CleanTable(p, db, COUNTED);
    assert COUNTED in [COUNTED] && "a" in EntityIds([COUNTED]) && EntityIds([COUNTED]) == {"a"};
    assert FieldIds([COUNT]) == {"b"};
  }

  /** A new maximum beside an added field: promoted, and the table keeps the old CHECKs. */
  lemma StaleCheck(p: Platform)
    requires Plain(p)
    ensures GateOpen(Prepared([COUNTED], [BOUNDED_AND_NOTED], map[]))
    ensures var (after, outcome) := Attempt(p, Booted(p, Serving([COUNTED])), "app", Serving([BOUNDED_AND_NOTED]), map[]);
            outcome == Promoted && "app" in after.dbs && !CatalogueIs(after.dbs["app"], Serving([BOUNDED_AND_NOTED]))
  {
    hide Prepared, EntityChanges, Booted, GateOpen, AllRenames, NeedsRebuild, DbBooted, BootsClean, Kept, InStep, NativeOps, NativeOp, Executed, DbOk, JustCreated, CatalogueIs, ForeignKeysHold, Applied;
    var old_, new_, ops := Serving([COUNTED]), Serving([BOUNDED_AND_NOTED]), Prepared([COUNTED], [BOUNDED_AND_NOTED], map[]);
    BoundedNotedBoots(p);
    FirstBoot(p, old_, true);
    FirstDatabase(p, old_);
    var db := DbBooted(p, EMPTY_DB, old_).0;
    CountedTable(p, db);
    NoteIsAdded();
    OneNativeChange(COUNTED, BOUNDED_AND_NOTED, Op("a", "c", AddField(NOTE)));
    OneNativeRun(p, db, "a", ops, Op("a", "c", AddField(NOTE)));
    NoteColumnIsAdded(p, db);
    ExecutesOne(p, db, old_, new_, ops, COUNTED, BOUNDED_AND_NOTED);
    CleanIsAccepted(p, old_);
    CleanIsAccepted(p, new_);
    Attempted(p, Booted(p, old_), old_, new_, map[]);
    BoundIsNotReached(p, db, old_, new_, ops);
  }

  lemma BoundIsNotReached(p: Platform, db: Db, old_: App, new_: App, ops: seq<Operation>)
    requires old_ == Serving([COUNTED]) && new_ == Serving([BOUNDED_AND_NOTED]) && ValidApp(old_) && ValidApp(new_)
    requires InStep(p, db, old_, true) && SameChanges(ops, EntityChanges(COUNTED, BOUNDED_AND_NOTED)) && !NeedsRebuild(ops)
    requires Executed(p, db, old_, new_, ops, true).Ok?
    ensures !CatalogueIs(Executed(p, db, old_, new_, ops, true).value, new_)
  {
    hide EntityChanges, NeedsRebuild, Executed, ValidApp, CatalogueIs, CanonicalText, Lawful, CatalogueButBounds, WellShaped;
    DiffOfOne(COUNTED, BOUNDED_AND_NOTED);
    AllOpsAreIts(ops, COUNTED, BOUNDED_AND_NOTED);
    NoUniqueNoClash(old_.entities, new_.entities);
    InStepButBounds(p, db, old_, true);
    MigrationReachesTarget(p, db, old_, new_, ops, true);
    assert EntityById([COUNTED], "a") == Some(COUNTED) && FieldById([COUNT], "b") == Some(COUNT);
    assert BOUNDED in BOUNDED_AND_NOTED.fields && !BoundsKept(COUNTED, BOUNDED_AND_NOTED);
    assert BOUNDED_AND_NOTED in new_.entities && !BoundsReach(old_.entities, BOUNDED_AND_NOTED, ops);
  }

  // ----- enum values with commas -----

  const JOINED := Level(["a,b"])
  const APART := Level(["a", "b"])

  lemma SameFieldLine(num: real -> string)
    ensures FieldLine(num, JOINED) == FieldLine(num, APART)
  {
    hide TypeText, BoolText, BoundsText, Join, SortedStrings;
    CommasCollide(JOINED, APART);
    assert BoundsText(num, JOINED) == BoundsText(num, APART) by { NoBounds(num); }
  }

  lemma NoBounds(num: real -> string)
    ensures BoundsText(num, JOINED) == BoundsText(num, APART)
  {
  }

  lemma JoinedPrintAlike(num: real -> string)
    ensures CanonicalText(num, OneField(JOINED)) == CanonicalText(num, OneField(APART))
  {
    hide FieldLine, CanonicalText, OneField;
    SameFieldLine(num);
    OneFieldPrints(num, JOINED);
    OneFieldPrints(num, APART);
  }

  lemma OnlyField(s: seq<Field>, f: Field)
    requires DistinctFieldIds(s) && f in s
    ensures s == [f] || exists g :: g in s && g != f
  {
    if |s| >= 2 {
      assert s[0] in s && s[1] in s && s[0].id != s[1].id;
    }
  }

  lemma OnlyEntity(s: seq<Entity>, e: Entity)
    requires DistinctEntityIds(s) && e in s
    ensures s == [e] || exists u :: u in s && u != e
  {
    if |s| >= 2 {
      assert s[0] in s && s[1] in s && s[0].id != s[1].id;
    }
  }

  lemma OneFieldPrints(num: real -> string, f: Field)
    ensures CanonicalText(num, OneField(f)) == Unlines(["entity a", FieldLine(num, f)])
  {
    hide FieldLine, Unlines, SortedFields, SortedEntities;
    var e := Holding("a", [f]);
    assert f in [f] && e in [e];
    SortedFieldsFacts([f]);
    SortedEntitiesFacts([e]);
    OnlyField(SortedFields([f]), f);
    OnlyEntity(SortedEntities([e]), e);
    assert SortedFields([f]) == [f] && SortedEntities([e]) == [e];
    assert [f][..0] == [] && FieldLines(num, []) == [];
    assert FieldLines(num, [f]) == [FieldLine(num, f)];
    assert [e][1..] == [] && Lines(num, []) == [];
    assert "entity " + "a" == "entity a";
    assert EntityLines(num, e) == ["entity a", FieldLine(num, f)];
    assert Lines(num, [e]) == EntityLines(num, e) + [];
    assert Lines(num, [e]) == ["entity a", FieldLine(num, f)];
    assert CanonicalText(num, OneField(f)) == Unlines(Lines(num, [e]));
  }

  /** A value `a,b` split in two by hand: the next boot serves a manifest whose enum the database does not hold. */
  lemma CommaIsNotNoticed(p: Platform)
    requires Plain(p)
    ensures Accepted(Manifest(OneField(JOINED))) && Accepted(Manifest(OneField(APART)))
    ensures DiffOps(OneField(JOINED).entities, OneField(APART).entities) != []
    ensures var db := DbBooted(p, EMPTY_DB, OneField(JOINED)).0;
            DbBooted(p, db, OneField(APART)) == (db, None) && !CatalogueButBounds(db, OneField(APART))
  {
    hide BootsClean, DiffOps, EntityChanges, DbBooted, CatalogueButBounds, CatalogueIs, InStep, JustCreated, DbOk, Accepted;
    OneFieldBoots(p, JOINED);
    OneFieldBoots(p, APART);
    CleanIsAccepted(p, OneField(JOINED));
    CleanIsAccepted(p, OneField(APART));
    FirstDatabase(p, OneField(JOINED));
    var db := DbBooted(p, EMPTY_DB, OneField(JOINED)).0;
    var oe, ne := Holding("a", [JOINED]), Holding("a", [APART]);
    DiffOfOne(oe, ne);
    ChangesOfOne(oe, ne, JOINED, APART);
    assert |multiset(JOINED.values)| == 1 && |multiset(APART.values)| == 2;
    CleanTable(p, db, oe);
    AlikeBoots(p, db);
  }

  lemma AlikeBoots(p: Platform, db: Db)
    requires BootsClean(p, OneField(APART)) && InStep(p, db, OneField(JOINED), true)
    ensures DbBooted(p, db, OneField(APART)) == (db, None) && !CatalogueButBounds(db, OneField(APART))
  {
    hide CanonicalText, DdlApplied, BootsClean, InStep, ColumnsVerified, CatalogueButBounds;
    JoinedPrintAlike(p.num);
    InStepFingerprint(p, db, OneField(JOINED), true);
    JoinedColumns(p, db);
    DdlIsDone(p, db, Holding("a", [APART]));
  }

  lemma JoinedColumns(p: Platform, db: Db)
    requires InStep(p, db, OneField(JOINED), true)
    ensures db.tables.Keys == {"a"}
    ensures ColumnsVerified(db, OneField(APART)) && !CatalogueButBounds(db, OneField(APART))
  {
    hide CanonicalText, Lawful, WellShaped, Indexes, ColumnDef, Columns;
    var e, u := Holding("a", [JOINED]), Holding("a", [APART]);
    assert e in [e] && "a" in EntityIds([e]) && EntityIds([e]) == {"a"} && u in [u];
    ColumnsOfFields([JOINED]);
    ColumnsOfFields([APART]);
    assert FieldIds([JOINED]) == {"b"} && FieldIds([APART]) == {"b"};
    DomainsDiffer();
    assert WithoutBounds(db.tables["a"].cols["b"]) != WithoutBounds(Columns([APART])["b"]);
  }

  lemma DomainsDiffer()
    ensures WithoutBounds(ColumnDef(JOINED)) != WithoutBounds(ColumnDef(APART))
  {
    var long, joined, apart := "a,b", set v | v in JOINED.values, set v | v in APART.values;
    assert |long| == 3 && forall v | v in APART.values :: |v| == 1;
    assert long in JOINED.values && long in joined && long !in apart;
    assert ColumnDef(JOINED).domain == OneOf(joined) && ColumnDef(APART).domain == OneOf(apart);
  }

  /** Boot's DDL has nothing to do for an entity that has a table and no unique field. */
  lemma DdlIsDone(p: Platform, db: Db, e: Entity)
    requires BootsClean(p, Serving([e])) && e.id in db.tables && forall f | f in e.fields :: !f.unique
    ensures DdlApplied(p, Ddl(Serving([e])), db) == (db, None)
  {
    hide CreateStmts, AllIndexStmts, RunAll, DdlApplied, Accepted, NamesDistinct, UniquePairs;
    assert EntityIds([e]) == {e.id};
    CreatesAreNoOps(p, [e], db);
    AllIndexStmtsArePairs([e]);
    NoPairs(e);
    FirstStmtIsMember(AllIndexStmts([e]));
    assert CreateStmts([e]) + [] == CreateStmts([e]);
    DdlRunsThrough(p, Ddl(Serving([e])), db);
  }

  lemma FirstStmtIsMember(stmts: seq<Stmt>)
    ensures stmts == [] || stmts[0] in stmts
  {
  }
}

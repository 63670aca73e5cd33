/** Ids that mean something else in SQL, and ids that two entities share, each in a valid manifest. */
module WordExamples {
  import opened Results
  import opened Schema
  import opened Validation
  import opened Sql
  import opened Materialize
  import opened MaterializeFresh
  import opened Changesets
  import opened Witnesses
  import opened Diffs
  import opened Executor
  import opened Naming
  import opened Views
  import opened NativePath
  import opened ChangesetShape
  import opened DiffMembers
  import opened Migration
  import opened Reach
  import opened FastSlow
  import opened Lossless
  import opened Remaps
  import opened Gate
  import opened Hosts
  import opened WholeRuns
  import opened Scenarios
  import opened Examples

  lemma WordIdentifiers()
    ensures IsIdentifier("current_date") && IsIdentifier("cast") && IsIdentifier("if")
  {
  }

  lemma OneNameIsDistinct(x: (string, string), pairs: set<(string, string)>)
    requires pairs <= {x}
    ensures NamesDistinct(pairs)
  {
  }

  // ----- a unique field that reads as the clock -----

  const CLOCK_INDEX := Holding("a", [Optional("current_date", Text).(unique := true)])

  lemma ClockIndexIsAccepted()
    ensures Accepted(Manifest(Serving([CLOCK_INDEX])))
    ensures ("a", "current_date") in UniquePairs([CLOCK_INDEX]) && NamesDistinct(UniquePairs([CLOCK_INDEX]))
  {
    hide IsIdentifier, ValidField, ValidEntity, ToolsOk;
    var e := CLOCK_INDEX;
    Identifiers();
    WordIdentifiers();
    OptionalIsValid([e], "current_date", Text);
    OneFieldIsValid([e], e, e.fields[0]);
    OneEntityIsAccepted(e);
    assert e in [e] && e.fields[0] in e.fields;
    OneNameIsDistinct(("a", "current_date"), UniquePairs([e]));
  }

  /** A unique `current_date`: CREATE TABLE runs, its index does not, and the app never boots. */
  lemma ClockIndex(p: Platform, db: Db)
    requires "current_date" in p.clock && Begun(p, db, Serving([CLOCK_INDEX]))
    ensures Accepted(Manifest(Serving([CLOCK_INDEX]))) && DbBooted(p, db, Serving([CLOCK_INDEX])).1.Some?
  {
    hide DbBooted, Begun, Accepted, NamesDistinct, NamesUsable, ClocksShadowed, UniquePairs, CLOCK_INDEX;
    ClockIndexIsAccepted();
    DistinctNamesCastNoShadow(p, [CLOCK_INDEX]);
    BootRefusesClocks(p, db, Serving([CLOCK_INDEX]));
  }

  // ----- a word that cannot name a table -----

  const IF_ENTITY := Holding("if", [Optional("b", Text)])
  const IF_FIELD := Holding("a", [Optional("if", Text)])

  /** `if` names no table, and any field. */
  lemma IfIsNoTable(p: Platform, db: Db)
    requires "if" in p.tableWords
    ensures Accepted(Manifest(Serving([IF_ENTITY]))) && DbBooted(p, db, Serving([IF_ENTITY])).1.Some?
    ensures Plain(p) && "if" !in p.words && Readable(p, "if") ==> BootsClean(p, Serving([IF_FIELD]))
  {
    hide DbBooted, IsIdentifier, ValidField, ValidEntity, ToolsOk, UsableColumns, BootsClean;
    var e, u := IF_ENTITY, IF_FIELD;
    Identifiers();
    WordIdentifiers();
    OptionalIsValid([e], "b", Text);
    OptionalIsValid([u], "if", Text);
    OneFieldIsValid([e], e, e.fields[0]);
    OneFieldIsValid([u], u, u.fields[0]);
    OneEntityIsAccepted(e);
    assert e in [e] && !UsableTable(p, e.id);
    BootRefusesNames(p, db, Serving([e]));
    if Plain(p) && "if" !in p.words && Readable(p, "if") {
      OneEntityBoots(p, u);
    }
  }

  // ----- a column that is no expression -----

  const FLAG := Holding("a", [Optional("cast", Boolean)])

  /** A boolean `cast` has a CHECK that is not SQL: the app never boots. */
  lemma CheckedCast(p: Platform, db: Db)
    requires "cast" in p.unreadable
    ensures Accepted(Manifest(Serving([FLAG]))) && DbBooted(p, db, Serving([FLAG])).1.Some?
  {
    hide DbBooted, IsIdentifier, ValidField, ValidEntity, ToolsOk;
    var e := FLAG;
    Identifiers();
    WordIdentifiers();
    OptionalIsValid([e], "cast", Boolean);
    OneFieldIsValid([e], e, e.fields[0]);
    OneEntityIsAccepted(e);
    assert e in [e] && e.fields[0] in e.fields && "cast" in Columns(e.fields);
    assert !UsableColumn(p, "cast", Columns(e.fields)["cast"]);
    BootRefusesNames(p, db, Serving([e]));
  }

  const CAST := Optional("cast", Text)
  const CASTING := Holding("a", [CAST, OPEN])
  const CASTING_MORE := Holding("a", [CAST, REQUIRED])

  lemma CastsBoot(p: Platform)
    requires Plain(p) && "cast" !in p.words
    ensures BootsClean(p, Serving([CASTING])) && BootsClean(p, Serving([CASTING_MORE]))
  {
    CastBoots(p, OPEN);
    CastBoots(p, REQUIRED);
  }

  lemma CastBoots(p: Platform, f: Field)
    requires Plain(p) && "cast" !in p.words && (f == OPEN || f == REQUIRED)
    ensures BootsClean(p, Serving([Holding("a", [CAST, f])]))
  {
    hide IsIdentifier, ValidField, ValidEntity, ToolsOk, Bootable, ColumnDef, IndexName;
    var e := Holding("a", [CAST, f]);
    Identifiers();
    WordIdentifiers();
    OptionalIsValid([e], "cast", Text);
    OptionalIsValid([e], "b", Text);
    RequiredIsValid([e]);
    TwoFieldsAreValid([e], e, CAST, f);
    OneEntityIsAccepted(e);
    NoPairs(e);
    assert UsableColumns(p, Columns(e.fields)) by { CastingColumns(p, f); }
    assert e in [e] && !IsInternal("a");
    ReadableIsBootable(p, Serving([e]));
  }

  lemma UncheckedColumns(p: Platform, fields: seq<Field>)
    requires forall f | f in fields :: f.id !in p.words && !HasCheck(ColumnDef(f)) && ColumnDef(f).fk == None
    ensures UsableColumns(p, Columns(fields))
  {
    hide HasCheck, ColumnDef;
    forall id | id in FieldIds(fields) ensures UsableColumn(p, id, Columns(fields)[id]) {
    }
  }

  lemma CastingColumns(p: Platform, f: Field)
    requires Plain(p) && "cast" !in p.words && (f == OPEN || f == REQUIRED)
    ensures UsableColumns(p, Columns([CAST, f]))
  {
    UncheckedColumns(p, [CAST, f]);
  }

  lemma CastingChanges()
    ensures EntityChanges(CASTING, CASTING_MORE) == [Op("a", "b", ChangeRequired(OPEN, REQUIRED))]
  {
    hide EntityChanges;
    ChangesOfSecond(CASTING, CASTING_MORE, CAST, OPEN, REQUIRED);
  }

  /** A text `cast` boots, and keeps its entity from ever being rebuilt. */
  lemma CastIsNeverRebuilt(p: Platform)
    requires Plain(p) && "cast" !in p.words && "cast" in p.unreadable
    ensures GateOpen(Prepared([CASTING], [CASTING_MORE], FILLING))
    ensures Attempt(p, Booted(p, Serving([CASTING])), "app", Serving([CASTING_MORE]), FILLING).1 == RolledBack
  {
    hide Prepared, EntityChanges, Booted, AllRenames, DbBooted, BootsClean, Kept, InStep, Rebuild, Executed, JustCreated, DbOk, CatalogueIs, WitnessOf, OpsOf, Applied, DiffOps;
    var old_, new_ := Serving([CASTING]), Serving([CASTING_MORE]);
    var ops := Prepared([CASTING], [CASTING_MORE], FILLING);
    CastsBoot(p);
    FirstBoot(p, old_, true);
    CastingChanges();
    PreparedSingle(CASTING, CASTING_MORE, Op("a", "b", ChangeRequired(OPEN, REQUIRED)), FILLING);
    assert ops[0] in ops && NeedsRebuild(ops);
    RebuildIsNotRename(ops);
    var db := DbBooted(p, EMPTY_DB, old_).0;
    assert CAST in CASTING_MORE.fields && CAST in CASTING.fields && Unread(p, CASTING.fields, CAST);
    UnreadableIsRefused(p, db, CASTING, CASTING_MORE, ops);
    ExecutesOne(p, db, old_, new_, ops, CASTING, CASTING_MORE);
    CleanIsAccepted(p, new_);
    Attempted(p, Booted(p, old_), old_, new_, FILLING);
  }

  // ----- a column that reads as the clock -----

  const DATE := Optional("current_date", Text)
  const DATED_COUNT := Holding("a", [DATE, COUNT])
  const DATED_MEASURE := Holding("a", [DATE, MEASURE])

  lemma DatedAreValid()
    ensures Accepted(Manifest(Serving([DATED_COUNT]))) && Accepted(Manifest(Serving([DATED_MEASURE])))
  {
    hide IsIdentifier, ValidField, ValidEntity, ToolsOk;
    Identifiers();
    WordIdentifiers();
    OptionalIsValid([DATED_COUNT], "current_date", Text);
    OptionalIsValid([DATED_COUNT], "b", Integer);
    OptionalIsValid([DATED_MEASURE], "current_date", Text);
    OptionalIsValid([DATED_MEASURE], "b", Real);
    TwoFieldsAreValid([DATED_COUNT], DATED_COUNT, DATE, COUNT);
    TwoFieldsAreValid([DATED_MEASURE], DATED_MEASURE, DATE, MEASURE);
    OneEntityIsAccepted(DATED_COUNT);
    OneEntityIsAccepted(DATED_MEASURE);
  }

  lemma WideningIsPrepared()
    ensures var ops := Prepared([DATED_COUNT], [DATED_MEASURE], map[]);
            && AllSafe(ops) && GateOpen(ops) && NeedsRebuild(ops) && !AllRenames(ops) && OpsOf(ops, "a") == ops
            && SameChanges(ops, EntityChanges(DATED_COUNT, DATED_MEASURE)) && SameChanges(ops, DiffOps([DATED_COUNT], [DATED_MEASURE]))
            && forall id :: WitnessOf(ops, id) == None
  {
    hide Prepared, EntityChanges, DiffOps, OpsOf;
    ChangesOfSecond(DATED_COUNT, DATED_MEASURE, DATE, COUNT, MEASURE);
    PreparedSingle(DATED_COUNT, DATED_MEASURE, Op("a", "b", ChangeType(COUNT, MEASURE)), map[]);
    var ops := Prepared([DATED_COUNT], [DATED_MEASURE], map[]);
    assert ops[0] in ops;
    forall id ensures WitnessOf(ops, id) == None {
      NoWitnessFound(ops, id);
    }
  }

  /** An optional field without bounds takes any value. */
  lemma AnythingFits(p: Platform, f: Field, v: Value)
    requires f == DATE || f == MEASURE
    ensures Satisfies(p, f.id, ColumnDef(f), v)
  {
  }

  lemma DatedRowFits(p: Platform, ops: seq<Operation>, row: Row)
    ensures RowOk(p, Columns(DATED_MEASURE.fields), RebuiltRow(p, DATED_COUNT.fields, DATED_MEASURE.fields, ops, row))
  {
    hide RebuiltRow, ColumnDef, Stored, Satisfies, Declared, WitnessOf, Seen, Cell, Columns, FieldIds;
    var after := RebuiltRow(p, DATED_COUNT.fields, DATED_MEASURE.fields, ops, row);
    RebuiltParts(p, DATED_COUNT.fields, DATED_MEASURE.fields, ops, row);
    forall f | f in DATED_MEASURE.fields
      ensures Stored(p, ColumnDef(f).affinity, Cell(after.cells, f.id)) == Cell(after.cells, f.id)
      ensures Satisfies(p, f.id, ColumnDef(f), Cell(after.cells, f.id))
    {
      RebuiltRowCell(p, DATED_COUNT.fields, DATED_MEASURE.fields, ops, row, f);
      CellOf(after.cells, f.id);
      AnythingFits(p, f, Cell(after.cells, f.id));
      StoredIsStable(p, ColumnDef(f).affinity,
                     Declared(p, FieldById(DATED_COUNT.fields, f.id), f, WitnessOf(ops, f.id), Seen(p, f.id, Cell(row.cells, f.id))));
    }
    CellsMakeRowOk(p, DATED_MEASURE.fields, after);
  }

  lemma DatedFits(p: Platform, ops: seq<Operation>, t: Table)
    ensures TableOk(p, RebuiltTable(p, DATED_COUNT, DATED_MEASURE, ops, t))
  {
    hide RebuiltRow, RowOk, Columns;
    forall r | r in t.rows {
      DatedRowFits(p, ops, t.rows[r]);
    }
    NoIndexesOk(p, DATED_MEASURE, RebuiltTable(p, DATED_COUNT, DATED_MEASURE, ops, t));
  }

  lemma DatedIsNotRefused(p: Platform, t: Table, ops: seq<Operation>)
    requires (forall id :: WitnessOf(ops, id) == None) && Matches(t, DATED_COUNT) && "current_date" !in p.unreadable && Plain(p)
    ensures t.cols.Keys == FieldIds(DATED_COUNT.fields) && !HasUnreadable(p, DATED_COUNT.fields, DATED_MEASURE.fields)
    ensures Selectable(DATED_COUNT.fields, DATED_MEASURE.fields, ops) && !HasEmptyRemap(DATED_COUNT.fields, DATED_MEASURE.fields, ops)
    ensures !LosesInformation(p, t, DATED_COUNT.fields, DATED_MEASURE.fields, ops)
  {
    hide WitnessOf, LossyRows, ColumnDef, Indexes, FieldIds;
    ColumnsOfFields(DATED_COUNT.fields);
    assert FieldById([DATE, COUNT], "current_date") == Some(DATE);
    assert FieldById([DATE, COUNT], "b") == Some(COUNT) by { assert [DATE, COUNT][1..] == [COUNT]; }
  }

  lemma DatedColumns(p: Platform)
    requires Plain(p) && "current_date" !in p.words
    ensures UsableColumns(p, Columns(DATED_MEASURE.fields))
  {
    UncheckedColumns(p, DATED_MEASURE.fields);
  }

  lemma DatedRebuilds(p: Platform, db: Db, ops: seq<Operation>)
    requires Plain(p) && "current_date" !in p.words && "current_date" !in p.unreadable && OldDb(p, db, Serving([DATED_COUNT]))
    requires forall id :: WitnessOf(ops, id) == None
    ensures var r := Rebuild(p, db, DATED_COUNT, DATED_MEASURE, ops); r.Ok? && ForeignKeysHold(r.value)
  {
    hide Rebuild, Matches, TableOk, OldDb, Lawful, WitnessOf, RebuiltTable, UsableColumns, Columns, FieldIds, ForeignKeysHold, NamesDistinct, Named, Shaped, Selectable, HasEmptyRemap, HasUnreadable, LosesInformation;
    var oe, ne := DATED_COUNT, DATED_MEASURE;
    NoPairs(oe);
    OldTables(p, db, oe);
    OldIsLawful(p, db, Serving([oe]));
    DatedFits(p, ops, db.tables["a"]);
    DatedColumns(p);
    DatedIsNotRefused(p, db.tables["a"], ops);
    LoneTableRebuilds(p, db, oe, ne, ops);
  }

  lemma OldIsLawful(p: Platform, db: Db, app: App)
    requires OldDb(p, db, app)
    ensures Lawful(p, db)
  {
  }

  /**
   * A text `current_date` beside an integer that becomes a real: safe, unconfirmed and successful on
   * every old database, and every row's text is the date of the migration afterwards.
   */
  lemma SafeChangeWritesTheDate(p: Platform, db: Db, r: string)
    requires Plain(p) && "current_date" !in p.words && "current_date" !in p.unreadable && "current_date" in p.clock
    requires OldDb(p, db, Serving([DATED_COUNT])) && "a" in db.tables && r in db.tables["a"].rows
    ensures Accepted(Manifest(Serving([DATED_MEASURE])))
    ensures var ops := Prepared([DATED_COUNT], [DATED_MEASURE], map[]);
            var after := Executed(p, db, Serving([DATED_COUNT]), Serving([DATED_MEASURE]), ops, true);
            && AllSafe(ops) && GateOpen(ops) && after.Ok? && "a" in after.value.tables && r in after.value.tables["a"].rows
            && Cell(after.value.tables["a"].rows[r].cells, "current_date") == TEXT(p.clock["current_date"])
  {
    hide Prepared, EntityChanges, GateOpen, AllRenames, NeedsRebuild, Executed, OldDb, Rebuild, WitnessOf, AllSafe, DiffOps, OpsOf, NoNameClash, WellShaped, CatalogueButBounds, ForeignKeysHold, ValidEntity, ToolsOk;
    var oe, ne, old_, new_ := DATED_COUNT, DATED_MEASURE, Serving([DATED_COUNT]), Serving([DATED_MEASURE]);
    var ops := Prepared([oe], [ne], map[]);
    DatedAreValid();
    WideningIsPrepared();
    DatedRebuilds(p, db, ops);
    ExecutesOne(p, db, old_, new_, ops, oe, ne);
    OldDbIsShaped(p, db, old_);
    NoUniqueNoClash([oe], [ne]);
    assert EntityById([oe], "a") == Some(oe) && ne in [ne] && DATE in ne.fields && FieldById(oe.fields, "current_date") == Some(DATE);
    ClockColumnIsOverwritten(p, db, old_, new_, ops, true, oe, ne, DATE, DATE, r);
  }

  // ----- a field id that two entities share -----

  const SHARED := [Holding("a", [OPEN]), Holding("c", [MEASURE])]
  const SHARED_MORE := [Holding("a", [REQUIRED]), Holding("c", [COUNT])]

  lemma SharedDiff()
    ensures DiffOps(SHARED, SHARED_MORE) == [Op("a", "b", ChangeRequired(OPEN, REQUIRED)), Op("c", "b", ChangeType(MEASURE, COUNT))]
  {
    hide EntityChanges, EntityDropOps;
    var olds, news := SHARED, SHARED_MORE;
    assert EntityById(olds, "a") == Some(olds[0]);
    assert EntityById(olds, "c") == Some(olds[1]) by { assert EntityById(olds[1..], "c") == Some(olds[1]); }
    ChangesOfOne(olds[0], news[0], OPEN, REQUIRED);
    ChangesOfOne(olds[1], news[1], MEASURE, COUNT);
    assert FieldChanges("a", OPEN, REQUIRED) == [Op("a", "b", ChangeRequired(OPEN, REQUIRED))];
    assert FieldChanges("c", MEASURE, COUNT) == [Op("c", "b", ChangeType(MEASURE, COUNT))];
    assert news[..1] == [news[0]] && [news[0]][..0] == [];
    assert EntitiesOps(olds, []) == [];
    assert EntitiesOps(olds, [news[0]]) == EntityOps(olds, news[0]);
    assert EntitiesOps(olds, news) == EntityOps(olds, news[0]) + EntityOps(olds, news[1]);
    assert EntityIds(olds) == {"a", "c"} && EntityIds(news) == {"a", "c"};
    NoOtherEntities(olds, news);
  }

  lemma SharedAreAccepted()
    ensures Accepted(Manifest(Serving(SHARED))) && Accepted(Manifest(Serving(SHARED_MORE)))
  {
    hide IsIdentifier, ValidField, ValidEntity, ToolsOk;
    Identifiers();
    OptionalIsValid(SHARED, "b", Text);
    OptionalIsValid(SHARED, "b", Real);
    OptionalIsValid(SHARED_MORE, "b", Integer);
    RequiredIsValid(SHARED_MORE);
    OneFieldIsValid(SHARED, SHARED[0], OPEN);
    OneFieldIsValid(SHARED, SHARED[1], MEASURE);
    OneFieldIsValid(SHARED_MORE, SHARED_MORE[0], REQUIRED);
    OneFieldIsValid(SHARED_MORE, SHARED_MORE[1], COUNT);
    TwoEntitiesAreAccepted(SHARED[0], SHARED[1]);
    TwoEntitiesAreAccepted(SHARED_MORE[0], SHARED_MORE[1]);
  }

  const TRUNCATING := map["b" := Witness(WitnessCoerce, CoerceTruncate, Nil, map[])]

  lemma SharedIdNeverPasses(witnesses: map<string, Witness>)
    ensures !GateOpen(Prepared(SHARED, SHARED_MORE, witnesses))
  {
    hide Prepared, DiffOps, GateOpen, SHARED, SHARED_MORE;
    SharedDiff();
    PreparedIsDiff(SHARED, SHARED_MORE, witnesses);
    var ops := Prepared(SHARED, SHARED_MORE, witnesses);
    assert ops[0] in ops && ops[1] in ops;
    SharedIdSharesWitness(SHARED, SHARED_MORE, witnesses, ops[0], ops[1]);
  }

  lemma FilledAlone()
    ensures GateOpen(Prepared([SHARED[0]], [SHARED_MORE[0]], FILLING))
  {
    hide Prepared, EntityChanges, OpsOf, DiffOps, WitnessOf;
    ChangesOfOne(SHARED[0], SHARED_MORE[0], OPEN, REQUIRED);
    PreparedSingle(SHARED[0], SHARED_MORE[0], Op("a", "b", ChangeRequired(OPEN, REQUIRED)), FILLING);
  }

  lemma TruncatedAlone()
    ensures GateOpen(Prepared([SHARED[1]], [SHARED_MORE[1]], TRUNCATING))
  {
    hide Prepared, EntityChanges, OpsOf, DiffOps, WitnessOf;
    ChangesOfOne(SHARED[1], SHARED_MORE[1], MEASURE, COUNT);
    PreparedSingle(SHARED[1], SHARED_MORE[1], Op("c", "b", ChangeType(MEASURE, COUNT)), TRUNCATING);
  }

  /**
   * Entities `a` and `c` each have a field `b`. One is to be filled and the other truncated: either
   * change alone passes the gate with its witness, and both together pass with none.
   */
  lemma SharedFieldId(witnesses: map<string, Witness>)
    ensures Accepted(Manifest(Serving(SHARED))) && Accepted(Manifest(Serving(SHARED_MORE)))
    ensures GateOpen(Prepared([SHARED[0]], [SHARED_MORE[0]], FILLING))
    ensures GateOpen(Prepared([SHARED[1]], [SHARED_MORE[1]], TRUNCATING))
    ensures !GateOpen(Prepared(SHARED, SHARED_MORE, witnesses))
  {
    hide Accepted, Prepared, GateOpen;
    SharedAreAccepted();
    SharedIdNeverPasses(witnesses);
    FilledAlone();
    TruncatedAlone();
  }
}

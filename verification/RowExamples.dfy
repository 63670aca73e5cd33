/** The inputs at which rows and tools do less than the documentation says. */
module RowExamples {
  import opened Results
  import opened Schema
  import opened Validation
  import opened Sql
  import opened Materialize
  import opened Changesets
  import opened Witnesses
  import opened Diffs
  import opened Executor
  import opened Naming
  import opened Views
  import opened NativePath
  import opened ChangesetShape
  import opened DiffMembers
  import opened Reach
  import opened Gate
  import opened Remaps
  import opened Hosts
  import opened RowCodec
  import opened Listing
  import opened DomainOps
  import opened Tools
  import opened ToolSound
  import opened DataFlow
  import opened Defaults
  import opened Scenarios
  import opened Examples

  // ----- a datetime default -----

  const DAY := Optional("b", Datetime).(default := Some(Str("2024-01-01T00:00:00Z")))
  const DATED := Holding("a", [NOTE, DAY])

  lemma DayIsValid()
    ensures ValidField([DATED], DAY)
  {
  }

  lemma DatesBoot(p: Platform)
    requires Plain(p)
    ensures BootsClean(p, Serving([NOTED])) && BootsClean(p, Serving([DATED]))
  {
    hide BootsClean, ValidField, IsIdentifier;
    Identifiers();
    OptionalIsValid([NOTED], "c", Text);
    OptionalIsValid([DATED], "c", Text);
    DayIsValid();
    OneFieldIsValid([NOTED], NOTED, NOTE);
    TwoFieldsAreValid([DATED], DATED, NOTE, DAY);
    OneEntityBoots(p, NOTED);
    OneEntityBoots(p, DATED);
  }

  lemma DayIsAdded()
    ensures EntityChanges(NOTED, DATED) == [Op("a", "b", AddField(DAY))]
  {
    hide FieldChanges;
    assert FieldById([NOTE], "b").None? && FieldById([NOTE], "c") == Some(NOTE);
    assert FieldChanges("a", NOTE, NOTE) == [] by { NoteStays(); }
    assert [NOTE, DAY][..1] == [NOTE] && [NOTE][..0] == [];
    assert FieldsOps("a", [NOTE], []) == [] && FieldsOps("a", [NOTE], [NOTE]) == [];
    assert FieldsOps("a", [NOTE], [NOTE, DAY]) == [Op("a", "b", AddField(DAY))];
    assert FieldIds([NOTE, DAY]) == {"b", "c"};
    assert DropOps("a", [], [NOTE, DAY]) == [] && DropOps("a", [NOTE], [NOTE, DAY]) == [];
  }

  lemma DayColumnIsAdded(p: Platform, db: Db)
    requires Plain(p) && db.tables.Keys == {"a"} && "b" !in db.tables["a"].cols
    requires forall c | c in db.tables["a"].cols :: db.tables["a"].cols[c].fk.None?
    ensures var r := NativeOp(p, db, "a", AddField(DAY)); r.Ok? && ForeignKeysHold(r.value)
  {
    hide Widened, ForeignKeysHold, ColumnDef, DefaultLiteral, Stored, Satisfies;
    DayFits(p);
    var t := db.tables["a"];
    WidenedColumns(p, t, "b", ColumnDef(DAY), DefaultLiteral(p, DAY));
    NoKeysHold(WithTable(db, "a", Widened(p, t, "b", ColumnDef(DAY), DefaultLiteral(p, DAY))));
  }

  lemma DayFits(p: Platform)
    requires Plain(p)
    ensures UsableColumn(p, "b", ColumnDef(DAY)) && ColumnDef(DAY).fk.None?
    ensures Satisfies(p, "b", ColumnDef(DAY), Stored(p, ColumnDef(DAY).affinity, DefaultLiteral(p, DAY)))
  {
  }

  lemma WidenedColumns(p: Platform, t: Table, col: string, def: Column, dflt: Value)
    ensures Widened(p, t, col, def, dflt).cols == t.cols[col := def]
  {
  }

  lemma NoKeysHold(db: Db)
    requires forall t, c | t in db.tables && c in db.tables[t].cols :: db.tables[t].cols[c].fk.None?
    ensures ForeignKeysHold(db)
  {
  }

  lemma NotedTable(p: Platform, db: Db)
    requires OldDb(p, db, Serving([NOTED]))
    ensures db.tables.Keys == {"a"} && "b" !in db.tables["a"].cols
    ensures forall c | c in db.tables["a"].cols :: db.tables["a"].cols[c].fk.None?
  {
    hide TableOk, Indexes, ColumnDef;
    NoPairs(NOTED);
    OldTables(p, db, NOTED);
    TargetOf(NOTE);
    assert FieldIds([NOTE]) == {"c"} && FieldById([NOTE], "c") == Some(NOTE);
  }

  lemma DayMigrates(p: Platform, db: Db)
    requires Plain(p) && OldDb(p, db, Serving([NOTED]))
    ensures var ops := Prepared([NOTED], [DATED], map[]);
            && GateOpen(ops) && SameChanges(ops, DiffOps([NOTED], [DATED]))
            && Executed(p, db, Serving([NOTED]), Serving([DATED]), ops, true).Ok?
  {
    hide Prepared, EntityChanges, GateOpen, AllRenames, NeedsRebuild, Executed, NativeOps, NativeOp, ForeignKeysHold, OldDb, DiffOps;
    var ops := Prepared([NOTED], [DATED], map[]);
    DayIsAdded();
    OneNativeChange(NOTED, DATED, Op("a", "b", AddField(DAY)));
    PreparedIsDiff([NOTED], [DATED], map[]);
    NotedTable(p, db);
    DayColumnIsAdded(p, db);
    OneNativeRun(p, db, "a", ops, Op("a", "b", AddField(DAY)));
    ExecutesOne(p, db, Serving([NOTED]), Serving([DATED]), ops, NOTED, DATED);
  }

  /** The database a migration to the dated manifest leaves. */
  function WithDates(p: Platform, db: Db): Result<Db, Fault> {
    Executed(p, db, Serving([NOTED]), Serving([DATED]), Prepared([NOTED], [DATED], map[]), true)
  }

  /** A datetime with a default, added to any old database: old rows and new rows read differently. */
  lemma DayReadsTwoWays(env: Env, db: Db, r: string, body: map<string, Json>, stamp: Stamp)
    requires Plain(env.p) && OldDb(env.p, db, Serving([NOTED])) && "a" in db.tables && r in db.tables["a"].rows
    requires env.p.canonical("2024-01-01T00:00:00Z") == Some("2024-01-01T00:00:00.000Z") && "b" !in body
    ensures GateOpen(Prepared([NOTED], [DATED], map[])) && Accepted(Manifest(Serving([DATED]))) && WithDates(env.p, db).Ok?
    ensures var after := WithDates(env.p, db).value;
            var created := Created(env, after, Serving([DATED]), DATED, body, stamp).1;
            created.Ok? ==>
              && "b" in created.value && "a" in after.tables && r in after.tables["a"].rows
              && "b" in ReadRow(DATED, r, after.tables["a"].rows[r])
              && ReadRow(DATED, r, after.tables["a"].rows[r])["b"] != created.value["b"]
  {
    hide Prepared, GateOpen, Executed, OldDb, DiffOps, BootsClean, Accepted, Created, ReadRow, NoNameClash, WellShaped, CatalogueButBounds, NamedFields, ValidApp, Plain;
    DatesBoot(env.p);
    DayMigrates(env.p, db);
    CleanIsAccepted(env.p, Serving([NOTED]));
    CleanIsAccepted(env.p, Serving([DATED]));
    if Created(env, WithDates(env.p, db).value, Serving([DATED]), DATED, body, stamp).1.Ok? {
      NotedIsValid(env.p);
      OldDbIsShaped(env.p, db, Serving([NOTED]));
      NoUniqueNoClash([NOTED], [DATED]);
      assert EntityById([NOTED], "a") == Some(NOTED) && DATED in [DATED] && DAY in DATED.fields && FieldIds([NOTE]) == {"c"};
      AddedDefaultReadsAlike(env, db, Serving([NOTED]), Serving([DATED]), Prepared([NOTED], [DATED], map[]), true,
                             NOTED, DATED, DAY, r, body, stamp);
    }
  }

  lemma NotedIsValid(p: Platform)
    requires Plain(p)
    ensures ValidApp(Serving([NOTED])) && ValidApp(Serving([DATED]))
  {
    hide ValidEntity, Bootable;
    DatesBoot(p);
  }

  // ----- a reference to a field the result lacks -----

  const LISTING := ToolStep("s", List, "a", None, map[], map[])
  const COPYING := ToolStep("", Create, "a", None, map["b" := Some(StepValue("steps.s.b", JNull))], map[])
  const COPY := Tool("t", "t", [], [LISTING, COPYING])
  const COPIER := App("app", "app", 1, [Holding("a", [OPEN])], [COPY])

  lemma CopiedRef()
    ensures Cut("steps.s.b") == ("steps", "s.b") && Cut("s.b") == ("s", "b")
  {
    hide Cut;
    CutAtDot("steps", "s.b");
    CutAtDot("s", "b");
    assert "steps" + "." + "s.b" == "steps.s.b" && "s" + "." + "b" == "s.b";
  }

  lemma CopierIsAccepted()
    ensures Accepted(Manifest(COPIER))
  {
    hide IsIdentifier, ValidField, ValidEntity, Cut;
    var e := Holding("a", [OPEN]);
    Identifiers();
    OptionalIsValid([e], "b", Text);
    OneFieldIsValid([e], e, OPEN);
    OneEntityIsAccepted(e);
    CopiedRef();
    assert EntityById([e], "a") == Some(e) && FieldByName([OPEN], "b") == Some(OPEN);
    assert StepIds([]) == {} && StepIds([LISTING]) == {"s"};
    assert COPY.steps[..0] == [] && COPY.steps[..1] == [LISTING];
    assert StepOk(COPIER, {}, {}, LISTING) && StepOk(COPIER, {}, {"s"}, COPYING);
    assert FieldNames(COPY.params) == {};
  }

  lemma ListingRuns(env: Env, db: Db, stamps: nat -> Stamp)
    requires "a" in db.tables
    ensures var r := StepsRun(env, db, COPIER, [LISTING], map[], stamps);
            r.Ok? && r.value.db == db && r.value.results.Keys == {"s"} && r.value.results["s"].Keys == {"rows", "total"}
  {
    hide FullList, ReadAll, Page, ResolveFilter;
    var e := Holding("a", [OPEN]);
    assert EntityById([e], "a") == Some(e) && [LISTING][..0] == [];
    assert StepsRun(env, db, COPIER, [], map[], stamps) == Ok(Progress(db, map[], map[]));
    assert FilterIssues(map[], map[], map[]) == {} && Filters(map[], map[], map[]) == {};
  }

  lemma CopyingFails(env: Env, db: Db, results: StepResults, stamp: Stamp)
    requires "s" in results && "b" !in results["s"]
    ensures StepRun(env, db, COPIER, Holding("a", [OPEN]), COPYING, map[], results, stamp) == (db, Err(Validation({Issue("b", NoSuchStepField)})))
  {
    hide Cut, Created;
    CopiedRef();
    assert Resolve(COPYING.set_["b"], map[], results) == Err(NoSuchStepField);
    assert SetIssues(COPYING.set_, map[], results) == {Issue("b", NoSuchStepField)};
  }

  lemma CopyRunFails(env: Env, db: Db, stamps: nat -> Stamp)
    requires "a" in db.tables
    ensures StepsRun(env, db, COPIER, COPY.steps, map[], stamps) == Err(StepFailure(1, Validation({Issue("b", NoSuchStepField)})))
  {
    hide StepRun;
    var e := Holding("a", [OPEN]);
    assert EntityById([e], "a") == Some(e) && COPY.steps[..1] == [LISTING];
    ListingRuns(env, db, stamps);
    CopyingFails(env, db, StepsRun(env, db, COPIER, [LISTING], map[], stamps).value.results, stamps(1));
  }

  /** The checker accepts the reference, and every call of the tool that reaches it fails. */
  lemma ReferenceToAbsentField(env: Env, db: Db, stamps: nat -> Stamp, commits: bool)
    requires "a" in db.tables
    ensures Accepted(Manifest(COPIER))
    ensures ToolRun(env, db, COPIER, "t", map[], stamps, true, commits)
            == (db, Err(StepFailed(StepFailure(1, Validation({Issue("b", NoSuchStepField)})))))
  {
    hide StepsRun, Accepted;
    CopierIsAccepted();
    CopyRunFails(env, db, stamps);
    assert ToolById([COPY], "t") == Some(COPY);
    assert Params(env, db, COPIER, COPY, map[]) == Ok(map[]);
  }
}

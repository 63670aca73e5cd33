/** The engine's plainest promises, each at one literal manifest. */
module PromiseExamples {
  import opened Results
  import opened Schema
  import opened Validation
  import opened Sql
  import opened Strings
  import opened Materialize
  import opened Changesets
  import opened Diffs
  import opened Executor
  import opened NativePath
  import opened Reach
  import opened References
  import opened Gate
  import opened Hosts
  import opened Runs
  import opened WholeRuns
  import opened Fingerprints
  import opened RowCodec
  import opened Listing
  import opened ListOrder
  import opened DomainOps
  import opened DomainSound
  import opened FieldMeaning
  import opened SentValues
  import opened WriteOutcomes
  import opened Tools
  import opened DataFlow
  import opened ServedColumns
  import opened Confirmation
  import opened Scenarios
  import opened Examples

  // ----- a reference pointed elsewhere -----

  const TO_A := Optional("b", Reference).(target := "a")
  const TO_C := Optional("b", Reference).(target := "c")
  const AIMED := [Holding("a", [NOTE]), Holding("c", [NOTE]), Holding("x", [TO_A])]
  const RETARGETED := [Holding("a", [NOTE]), Holding("c", [NOTE]), Holding("x", [TO_C])]

  lemma ThreeEntitiesAreAccepted(entities: seq<Entity>)
    requires |entities| == 3 && forall e | e in entities :: ValidEntity(entities, e)
    requires entities[0].id == entities[0].name == "a" && entities[1].id == entities[1].name == "c" && entities[2].id == entities[2].name == "x"
    ensures Accepted(Manifest(Serving(entities)))
  {
    hide ValidEntity;
  }

  lemma ReferenceIsValid(entities: seq<Entity>, f: Field)
    requires f == TO_A || f == TO_C
    requires "a" in EntityIds(entities) && "c" in EntityIds(entities)
    ensures ValidField(entities, f)
  {
  }

  lemma AimedAreAccepted()
    ensures Accepted(Manifest(Serving(AIMED))) && Accepted(Manifest(Serving(RETARGETED)))
  {
    EntitiesAreAccepted(AIMED, TO_A);
    EntitiesAreAccepted(RETARGETED, TO_C);
  }

  lemma EntitiesAreAccepted(entities: seq<Entity>, f: Field)
    requires f == TO_A || f == TO_C
    requires entities == [Holding("a", [NOTE]), Holding("c", [NOTE]), Holding("x", [f])]
    ensures Accepted(Manifest(Serving(entities)))
  {
    hide IsIdentifier, ValidField, ValidEntity, Accepted;
    Identifiers();
    assert entities[0] in entities && entities[1] in entities;
    assert "a" in EntityIds(entities) && "c" in EntityIds(entities);
    OptionalIsValid(entities, "c", Text);
    ReferenceIsValid(entities, f);
    OneFieldIsValid(entities, entities[0], NOTE);
    OneFieldIsValid(entities, entities[1], NOTE);
    OneFieldIsValid(entities, entities[2], f);
    ThreeEntitiesAreAccepted(entities);
  }

  lemma RetargetingIsADifference()
    ensures !Unchanged(AIMED, RETARGETED) && !Unwitnessed(AIMED, RETARGETED, map[])
  {
    var oe, ne := AIMED[2], RETARGETED[2];
    assert oe in AIMED && ne in RETARGETED && oe.id == ne.id;
    assert TO_A in oe.fields && TO_C in ne.fields && !FieldSame(TO_A, TO_C);
    assert !EntitySame(oe, ne);
    forall oe, ne | oe in AIMED && ne in RETARGETED && oe.id == ne.id ensures !EntityUnwitnessed(oe, ne, map[]) {
      assert forall of, nf | of in oe.fields && nf in ne.fields && of.id == nf.id :: !FieldUnwitnessed(of, nf, map[]);
    }
  }

  lemma RetargetingFails(p: Platform, db: Db, ops: seq<Operation>, r: string, s: string)
    requires Plain(p) && CatalogueIs(db, Serving(AIMED)) && DbOk(p, db) && ForeignKeysHold(db)
    requires SameChanges(ops, DiffOps(AIMED, RETARGETED))
    requires "x" in db.tables && r in db.tables["x"].rows && Cell(db.tables["x"].rows[r].cells, "b") == TEXT(s)
    requires "c" in db.tables && s !in db.tables["c"].rows
    ensures Executed(p, db, Serving(AIMED), Serving(RETARGETED), ops, true).Err?
  {
    hide DbOk, CatalogueIs, CatalogueButBounds, ForeignKeysHold, ReferencesHold, DiffOps, Executed, WellShaped, ValidEntity, NoNameClash, ToolsOk;
    AimedAreAccepted();
    OkRowsAreShaped(p, db);
    ExactButBounds(db, Serving(AIMED));
    CheckIsOfReferences(db, Serving(AIMED));
    NoUniqueNoClash(AIMED, RETARGETED);
    var oe, ne := AIMED[2], RETARGETED[2];
    assert oe in AIMED && ne in RETARGETED;
    assert EntityById(AIMED, "x") == Some(oe) by {
      AimedIsWellFormed();
      EntityByIdFinds(AIMED, oe);
    }
    assert FieldById(oe.fields, "b") == Some(TO_A);
    DanglingReferenceFails(p, db, Serving(AIMED), Serving(RETARGETED), ops, true, oe, ne, TO_A, TO_C, r, s);
  }

  lemma AimedIsWellFormed()
    ensures DistinctEntityIds(AIMED)
  {
  }

  /**
   * Field `b` of `x` is pointed from `a` to `c` while a row of `x` names a row of `a` that `c` does not
   * have: confirmed and through the gate, the migration is undone, and nothing but a snapshot is added.
   */
  lemma RetargetingIsUndone(p: Platform, w: World, r: string, s: string)
    requires Plain(p) && "app" in w.registry && "app" in w.dbs && w.registry["app"].app == Serving(AIMED)
    requires CatalogueIs(w.dbs["app"], Serving(AIMED)) && DbOk(p, w.dbs["app"]) && ForeignKeysHold(w.dbs["app"])
    requires var db := w.dbs["app"];
             && "x" in db.tables && r in db.tables["x"].rows && Cell(db.tables["x"].rows[r].cells, "b") == TEXT(s)
             && "c" in db.tables && s !in db.tables["c"].rows
    ensures Accepted(Manifest(Serving(RETARGETED))) && GateOpen(Prepared(AIMED, RETARGETED, map[]))
    ensures var (after, outcome) := Attempt(p, w, "app", Serving(RETARGETED), map[]);
            outcome == RolledBack && SameButSnapshots(w, after)
  {
    hide DbOk, CatalogueIs, ForeignKeysHold, DiffOps, Executed, Prepared, GateOpen, Accepted, Applied, Unchanged, Unwitnessed, AIMED, RETARGETED;
    AimedAreAccepted();
    RetargetingIsADifference();
    AcceptedIsWellFormed(AIMED);
    AcceptedIsWellFormed(RETARGETED);
    GateAsksForWitnesses(AIMED, RETARGETED, map[]);
    EmptyDifference(AIMED, RETARGETED);
    PreparedIsDestructive(AIMED, RETARGETED, map[]);
    PreparedIsDiff(AIMED, RETARGETED, map[]);
    RetargetingFails(p, w.dbs["app"], Prepared(AIMED, RETARGETED, map[]), r, s);
    Attempted(p, w, Serving(AIMED), Serving(RETARGETED), map[]);
    ApplyIsAllOrNothing(p, w, "app", Manifest(Serving(RETARGETED)), Options(true, map[]), GOOD_LUCK);
  }

  lemma AcceptedIsWellFormed(entities: seq<Entity>)
    requires Accepted(Manifest(Serving(entities)))
    ensures WellFormed(entities)
  {
    hide ValidEntity, ToolsOk;
    ValidIsWellFormed(Serving(entities));
  }

  // ----- a database from before fingerprints -----

  const GROWN := Holding("a", [OPEN, NOTE])

  /**
   * Table `a` has a column `b` and nothing is recorded, and the manifest declares `b` and `c`: the app
   * is not served, its table is as it was, and nothing is recorded.
   */
  lemma OldTableIsRefused(p: Platform, w: World)
    requires w.manifests == map["d" := Manifest(Serving([GROWN]))] && "app" in w.dbs
    requires "a" in w.dbs["app"].tables && w.dbs["app"].tables["a"].cols.Keys == {"b"} && w.dbs["app"].fingerprint == None
    ensures Accepted(Manifest(Serving([GROWN])))
    ensures var after := BootDirs(p, Unserved(w), ["d"]);
            && "app" !in after.registry && "app" in after.dbs && after.dbs["app"].fingerprint == None
            && "a" in after.dbs["app"].tables && after.dbs["app"].tables["a"].cols.Keys == {"b"}
  {
    hide IsIdentifier, ValidField, ValidEntity, DbBooted, Accepted, HasColumns;
    Identifiers();
    OptionalIsValid([GROWN], "b", Text);
    OptionalIsValid([GROWN], "c", Text);
    TwoFieldsAreValid([GROWN], GROWN, OPEN, NOTE);
    OneEntityIsAccepted(GROWN);
    var t := w.dbs["app"].tables["a"];
    LacksColumn(t);
    assert GROWN in Serving([GROWN]).entities;
    MismatchIsRefused(p, w.dbs["app"], Serving([GROWN]), GROWN);
    assert ["d"][..0] == [];
    assert BootDirs(p, Unserved(w), []) == Unserved(w);
    BootDirOutcome(p, Unserved(w), "d");
  }

  lemma LacksColumn(t: Table)
    requires t.cols.Keys == {"b"}
    ensures !HasColumns(t, GROWN)
  {
    assert NOTE in GROWN.fields && NOTE.id == "c" && !IsReserved("c") && "c" !in t.cols;
  }

  // ----- a value that is sent -----

  const DONE := Optional("b", Boolean)
  const TASK := Holding("a", [DONE])

  lemma TaskIsValid()
    ensures ValidEntity([TASK], TASK) && Accepted(Manifest(Serving([TASK])))
  {
    hide IsIdentifier, ValidField, ValidEntity;
    Identifiers();
    OptionalIsValid([TASK], "b", Boolean);
    OneFieldIsValid([TASK], TASK, DONE);
    OneEntityIsAccepted(TASK);
  }

  lemma BooleanIsAcceptable(env: Env, db: Db, body: map<string, Json>, sent: bool)
    requires body == map["b" := JBool(sent)]
    ensures Acceptable(env, db, Serving([TASK]), TASK, body, true)
  {
    forall f, problem | f in TASK.fields ensures !Wrong(env, db, Serving([TASK]), f, body, true, problem) {
      assert Takes(env, db, Serving([TASK]), f, body["b"], Bool(sent));
    }
  }

  lemma NothingIsTaken(env: Env, db: Db, app: App, e: Entity, body: map<string, Json>)
    requires e.id in db.tables && forall f | f in e.fields :: !f.unique
    ensures !InitialIsTaken(env, db, app, e, body)
  {
  }

  /** A boolean that is sent as true, or as false, is answered as it was sent and stored as 1, or 0. */
  lemma BooleanIsKept(env: Env, db: Db, sent: bool, stamp: Stamp)
    requires Sound(env.p, db, Serving([TASK])) && "a" in db.tables && stamp.id !in db.tables["a"].rows
    ensures Accepted(Manifest(Serving([TASK])))
    ensures var (after, r) := Created(env, db, Serving([TASK]), TASK, map["b" := JBool(sent)], stamp);
            && r.Ok? && "b" in r.value && r.value["b"] == Bool(sent)
            && "a" in after.tables && stamp.id in after.tables["a"].rows
            && Cell(after.tables["a"].rows[stamp.id].cells, "b") == INTEGER(if sent then 1 else 0)
  {
    hide Sound, ValidEntity, ToolsOk, Created, Acceptable, InitialIsTaken, ListsIssues, Initial, DbOk;
    var app, body := Serving([TASK]), map["b" := JBool(sent)];
    TaskIsValid();
    BooleanIsAcceptable(env, db, body, sent);
    NothingIsTaken(env, db, app, TASK, body);
    assert TASK in app.entities && DONE in TASK.fields;
    CreateOutcome(env, db, app, TASK, body, stamp);
    CreateKeepsWhatWasSent(env, db, app, TASK, body, stamp);
    var (after, r) := Created(env, db, app, TASK, body, stamp);
    BooleanIsInitial(env, db, app, body, sent, r.value["b"]);
    CreateOnlyConflicts(env, db, app, TASK, body, stamp);
    ReadBoolean(env.p, after, app, stamp.id, sent);
  }

  lemma BooleanIsInitial(env: Env, db: Db, app: App, body: map<string, Json>, sent: bool, v: GoValue)
    requires body == map["b" := JBool(sent)] && Initial(env, db, app, DONE, body, v)
    ensures v == Bool(sent)
  {
  }

  lemma ReadBoolean(p: Platform, db: Db, app: App, id: string, sent: bool)
    requires app == Serving([TASK]) && Accepted(Manifest(app)) && Sound(p, db, app)
    requires Got(db, TASK, id).Ok? && "b" in Got(db, TASK, id).value && Got(db, TASK, id).value["b"] == Bool(sent)
    ensures Cell(db.tables["a"].rows[id].cells, "b") == INTEGER(if sent then 1 else 0)
  {
    hide Sound, ValidEntity, ToolsOk, Decode, ReadRow, Columns, RowOk, InDomain;
    var x := Entry(id, db.tables["a"].rows[id]);
    assert TASK in app.entities && DONE in TASK.fields;
    ValidMember(app, TASK);
    SoundIsReadable(p, db, app, TASK);
    RowOfTable(p, db, app, TASK, id);
    ReadField(TASK, id, x.row, DONE);
    assert StoredRow(p, TASK, x);
    BooleanCell(p, TASK, x, DONE);
    DecodedBoolean(x.row, sent);
  }

  lemma DecodedBoolean(row: Row, sent: bool)
    requires InDomain(ZeroOrOne, Physical("", row, "b")) && Decode(TASK, "b", Cell(row.cells, "b")) == Bool(sent)
    ensures Cell(row.cells, "b") == INTEGER(if sent then 1 else 0)
  {
  }

  // ----- a value through a tool -----

  const KEEP := Tool("t", "t", [Optional("t", Text)], [KEEPING])
  const KEEPING := ToolStep("", Create, "a", None, map["b" := Some(StepValue("params.t", JNull))], map[])
  const SHELF := Holding("a", [OPEN])
  const KEEPER := App("app", "app", 1, [SHELF], [KEEP])

  lemma ParamOfTool()
    ensures Cut("params.t") == ("params", "t")
  {
    hide Cut;
    ParamRef("t");
    assert "params." + "t" == "params.t";
  }

  lemma KeeperIsAccepted()
    ensures Accepted(Manifest(KEEPER)) && ValidEntity([SHELF], SHELF)
  {
    hide IsIdentifier, ValidField, ValidEntity, Cut;
    Identifiers();
    OptionalIsValid([SHELF], "b", Text);
    OneFieldIsValid([SHELF], SHELF, OPEN);
    OneEntityIsAccepted(SHELF);
    ParamOfTool();
    assert EntityById([SHELF], "a") == Some(SHELF) && FieldByName([OPEN], "b") == Some(OPEN);
    assert KEEP.steps[..0] == [] && StepIds([]) == {};
    assert FieldNames(KEEP.params) == {"t"};
    assert StepOk(KEEPER, {"t"}, {}, KEEPING);
  }

  lemma KeptParams(env: Env, db: Db, text: string)
    ensures Params(env, db, KEEPER, KEEP, map["t" := JString(text)]) == Ok(map["t" := Str(text)])
  {
    assert KEEP.params[..0] == [];
    assert DeclaredValues(env, db, KEEPER, [], map["t" := JString(text)]) == Body(map[], []);
    assert FieldByName(KEEP.params, "t").Some?;
    assert UndeclaredIssues(KEEP.params, map["t" := JString(text)]) == {};
  }

  lemma KeepingResolves(text: string)
    ensures var params: GoRow := map["t" := Str(text)];
            SetIssues(KEEPING.set_, params, map[]) == {} && SetBody(KEEPING.set_, params, map[]) == map["b" := JString(text)]
  {
    hide Cut;
    ParamOfTool();
    assert Resolve(KEEPING.set_["b"], map["t" := Str(text)], map[]) == Ok(JString(text));
  }

  lemma TextIsAcceptable(env: Env, db: Db, text: string)
    ensures Acceptable(env, db, KEEPER, SHELF, map["b" := JString(text)], true)
  {
    var body := map["b" := JString(text)];
    forall f, problem | f in SHELF.fields ensures !Wrong(env, db, KEEPER, f, body, true, problem) {
      assert Takes(env, db, KEEPER, f, body["b"], Str(text));
    }
  }

  lemma KeepingCreates(env: Env, db: Db, text: string, stamp: Stamp)
    requires Sound(env.p, db, KEEPER) && "a" in db.tables && stamp.id !in db.tables["a"].rows
    ensures StepRun(env, db, KEEPER, SHELF, KEEPING, map["t" := Str(text)], map[], stamp).1.Ok?
  {
    hide Sound, ValidEntity, ToolsOk, Created, Acceptable, InitialIsTaken, ListsIssues, SetIssues, SetBody, DbOk;
    KeeperIsAccepted();
    KeepingResolves(text);
    TextIsAcceptable(env, db, text);
    NothingIsTaken(env, db, KEEPER, SHELF, map["b" := JString(text)]);
    CreateOutcome(env, db, KEEPER, SHELF, map["b" := JString(text)], stamp);
  }

  /** A tool that creates a row from its parameter `t` stores the text it was called with, and answers it. */
  lemma ParameterIsStored(env: Env, db: Db, text: string, stamps: nat -> Stamp)
    requires FaithfulDeletes(env) && FaithfulScans(env) && Sound(env.p, db, KEEPER)
    requires "a" in db.tables && stamps(0).id !in db.tables["a"].rows
    ensures Accepted(Manifest(KEEPER))
    ensures var (after, r) := ToolRun(env, db, KEEPER, "t", map["t" := JString(text)], stamps, true, true);
            && r.Ok? && "b" in r.value.result && r.value.result["b"] == Str(text)
            && Got(after, SHELF, stamps(0).id) == Ok(r.value.result)
  {
    hide Sound, ValidEntity, ToolsOk, FaithfulDeletes, FaithfulScans, StepRun, Fills, Params, DbOk;
    KeeperIsAccepted();
    KeptParams(env, db, text);
    KeepingCreates(env, db, text, stamps(0));
    var params: GoRow := map["t" := Str(text)];
    assert KEEP.steps[..0] == [];
    NoSteps(env, db, KEEPER, params, stamps);
    assert EntityById([SHELF], "a") == Some(SHELF);
    assert ToolById([KEEP], "t") == Some(KEEP);
    CreateStepFills(env, db, KEEPER, SHELF, KEEPING, params, map[], stamps(0));
    var (after, r) := ToolRun(env, db, KEEPER, "t", map["t" := JString(text)], stamps, true, true);
    FilledWithParam(env, db, after, text, stamps(0), r.value.result);
  }

  lemma FilledWithParam(env: Env, db: Db, after: Db, text: string, stamp: Stamp, reply: GoRow)
    requires Fills(env, db, after, KEEPER, SHELF, KEEPING, map["t" := Str(text)], map[], stamp, reply)
    ensures "b" in reply && reply["b"] == Str(text) && Got(after, SHELF, stamp.id) == Ok(reply)
  {
    hide OnlyRow, FieldNames;
    assert OPEN in SHELF.fields && "params." + "t" == "params.t";
    assert IsParam(KEEPING.set_["b"], "t");
  }

  // ----- a list that is sorted -----

  const RANKED := Holding("a", [COUNT])

  /** Rows of rank 1 and 2 come in that order when the sort ascends, and in the other when it descends. */
  lemma RanksAreSorted(p: Platform, like: (Value, Value) -> bool, stored: seq<Entry>, rows: map<string, Row>, desc: bool, i: nat, j: nat)
    requires Plain(p) && Tabled(p, RANKED, stored, rows)
    requires var full := FullList(p, like, RANKED, {}, [Sort("b", desc)], stored);
             && i < |full| && Cell(full[i].row.cells, "b") == INTEGER(1)
             && j < |full| && Cell(full[j].row.cells, "b") == INTEGER(2)
    ensures if desc then j < i else i < j
  {
    hide FullList, Tabled, ReadRow, IsIdentifier, ValidField, Decode;
    var full, sorts := FullList(p, like, RANKED, {}, [Sort("b", desc)], stored), [Sort("b", desc)];
    Identifiers();
    OptionalIsValid([RANKED], "b", Integer);
    OneFieldIsValid([RANKED], RANKED, COUNT);
    ValidIsNamed([RANKED], RANKED);
    assert COUNT in RANKED.fields && Known(RANKED, "b") by { assert COUNT.name in FieldNames(RANKED.fields); }
    RankReads(full[i], 1);
    RankReads(full[j], 2);
    if i < j {
      ListIsInRequestedOrder(p, like, RANKED, {}, sorts, stored, rows, i, j);
    } else if j < i {
      ListIsInRequestedOrder(p, like, RANKED, {}, sorts, stored, rows, j, i);
    }
  }

  lemma RankReads(x: Entry, rank: int)
    requires NamedFields(RANKED) && Cell(x.row.cells, "b") == INTEGER(rank)
    ensures "b" in ReadRow(RANKED, x.id, x.row) && ReadRow(RANKED, x.id, x.row)["b"] == Int(rank)
  {
    hide ReadRow;
    assert COUNT in RANKED.fields && FieldByName(RANKED.fields, "b") == Some(COUNT);
    ReadField(RANKED, x.id, x.row, COUNT);
  }
}

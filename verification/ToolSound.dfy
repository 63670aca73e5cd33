/** What the static checker of tools guarantees of every run, and what a run can do at all. */
module ToolSound {
  import opened Results
  import opened Schema
  import opened Sql
  import opened Materialize
  import opened Validation
  import opened RowCodec
  import opened Listing
  import opened DomainOps
  import opened DomainSound
  import opened Tools

  // ----- parameters -----

  /** Parameters resolved without an issue hold a value for exactly the declared names. */
  lemma {:induction false} DeclaredNames(env: Env, db: Db, app: App, params: seq<Field>, provided: map<string, Json>)
    requires DeclaredValues(env, db, app, params, provided).issues == []
    ensures DeclaredValues(env, db, app, params, provided).values.Keys == FieldNames(params)
  {
    hide CoerceValue, DefaultStoreValue;
    if params != [] {
      var n := |params| - 1;
      assert params == params[..n] + [params[n]];
      DeclaredNames(env, db, app, params[..n], provided);
      assert FieldNames(params) == FieldNames(params[..n]) + {params[n].name};
    }
  }

  lemma ParamsAreDeclared(env: Env, db: Db, app: App, tool: Tool, provided: map<string, Json>)
    requires Params(env, db, app, tool, provided).Ok?
    ensures Params(env, db, app, tool, provided).value.Keys == FieldNames(tool.params)
  {
    hide DeclaredValues, UndeclaredIssues;
    NoIssues(DeclaredValues(env, db, app, tool.params, provided).issues);
    DeclaredNames(env, db, app, tool.params, provided);
  }

  // ----- templates -----

  /** The step and field a `steps.` reference names. */
  predicate NamesStepField(sv: Option<StepValue>, stepId: string, field: string) {
    sv.Some? && sv.value.ref != "" && Cut(sv.value.ref).0 == "steps" && Cut(Cut(sv.value.ref).1) == (stepId, field)
  }

  /**
   * A checked template resolves unless it names a field the earlier step's result does not have:
   * that is the only way it can fail, and it always fails then.
   */
  lemma CheckedRefFailsOnlyOnField(sv: Option<StepValue>, params: GoRow, results: StepResults)
    requires RefOk(params.Keys, results.Keys, sv)
    ensures Resolve(sv, params, results).Err? <==>
            exists id, field :: NamesStepField(sv, id, field) && id in results && field !in results[id]
    ensures Resolve(sv, params, results).Err? ==> Resolve(sv, params, results).error == NoSuchStepField
  {
    hide Cut, Marshal;
    if sv.Some? && sv.value.ref != "" && Cut(sv.value.ref).0 == "steps" {
      var (id, field) := Cut(Cut(sv.value.ref).1);
      assert NamesStepField(sv, id, field);
    }
  }

  predicate Misresolved(problem: Problem) {
    problem == ParamNotProvided || problem == StepHasNotRun || problem == BadReference
  }

  /** The error is not a reference the checker was there to rule out. */
  predicate Expected(error: OpError) {
    && error != EntityNotFound
    && (error.Validation? ==> forall issue | issue in error.issues :: !Misresolved(issue.problem))
  }

  lemma CheckedValueResolves(sv: Option<StepValue>, params: GoRow, results: StepResults)
    requires RefOk(params.Keys, results.Keys, sv)
    ensures Resolve(sv, params, results).Err? ==> !Misresolved(Resolve(sv, params, results).error)
    ensures ResolveId(sv, params, results).Err? ==> !Misresolved(ResolveId(sv, params, results).error)
    ensures ResolveFilter(sv, params, results).Err? ==> !Misresolved(ResolveFilter(sv, params, results).error)
  {
    hide Resolve, RefOk;
    CheckedRefFailsOnlyOnField(sv, params, results);
  }

  lemma CheckedValuesResolve(values: map<string, Option<StepValue>>, params: GoRow, results: StepResults)
    requires RefsOk(params.Keys, results.Keys, values)
    ensures forall issue | issue in SetIssues(values, params, results) :: !Misresolved(issue.problem)
    ensures forall issue | issue in FilterIssues(values, params, results) :: !Misresolved(issue.problem)
  {
    hide Resolve, RefOk, ResolveFilter;
    forall name | name in values
      ensures Resolve(values[name], params, results).Err? ==> !Misresolved(Resolve(values[name], params, results).error)
      ensures ResolveFilter(values[name], params, results).Err? ==> !Misresolved(ResolveFilter(values[name], params, results).error)
    {
      CheckedValueResolves(values[name], params, results);
    }
  }

  // ----- one step -----

  lemma {:induction false} FieldIssues(env: Env, db: Db, app: App, fields: seq<Field>, body: map<string, Json>, onCreate: bool)
    ensures forall issue | issue in FieldValues(env, db, app, fields, body, onCreate).issues :: !Misresolved(issue.problem)
  {
    hide CoerceValue, DefaultStoreValue;
    if fields != [] {
      FieldIssues(env, db, app, fields[..|fields| - 1], body, onCreate);
    }
  }

  lemma WriteFaultExpected(p: Platform, db: Db, table: string, id: string, row: Row)
    ensures WriteFault(p, db, table, id, row).Some? ==> Expected(WriteFault(p, db, table, id, row).value)
  {
    hide RowOk, RowRefers, NoDuplicates;
  }

  lemma CreateExpected(env: Env, db: Db, app: App, e: Entity, body: map<string, Json>, stamp: Stamp)
    ensures Created(env, db, app, e, body, stamp).1.Err? ==> Expected(Created(env, db, app, e, body, stamp).1.error)
  {
    hide FieldValues, WriteFault, ReadRow, InsertedCells;
    FieldIssues(env, db, app, e.fields, body, true);
    var row := Row(stamp.now, stamp.now, InsertedCells(env.p, e, FieldValues(env, db, app, e.fields, body, true).values));
    WriteFaultExpected(env.p, db, e.id, stamp.id, row);
  }

  lemma UpdateExpected(env: Env, db: Db, app: App, e: Entity, id: string, body: map<string, Json>, stamp: Stamp)
    ensures Updated(env, db, app, e, id, body, stamp).1.Err? ==> Expected(Updated(env, db, app, e, id, body, stamp).1.error)
  {
    hide FieldValues, WriteFault, ReadRow, UpdatedCells;
    if e.id in db.tables && id in db.tables[e.id].rows {
      var before := db.tables[e.id].rows[id];
      FieldIssues(env, db, app, e.fields, body, false);
      var values := FieldValues(env, db, app, e.fields, body, false).values;
      WriteFaultExpected(env.p, db, e.id, id, Row(before.created, stamp.now, UpdatedCells(env.p, e, values, before.cells)));
    }
  }

  lemma StepExpected(env: Env, db: Db, app: App, e: Entity, step: ToolStep, params: GoRow, results: StepResults, stamp: Stamp)
    requires StepRefsOk(params.Keys, results.Keys, step)
    ensures var r := StepRun(env, db, app, e, step, params, results, stamp).1; r.Err? ==> Expected(r.error)
  {
    hide RefOk, RefsOk, Created, Updated, SetIssues, FilterIssues, SetBody, Filters, ResolveId, Misresolved, FullList, ReadRow;
    CheckedValueResolves(step.rowId, params, results);
    CheckedValuesResolve(step.set_, params, results);
    CheckedValuesResolve(step.filter, params, results);
    match step.op {
      case Create => CreateExpected(env, db, app, e, SetBody(step.set_, params, results), stamp);
      case Update =>
        var id := ResolveId(step.rowId, params, results);
        if id.Ok? {
          UpdateExpected(env, db, app, e, id.value, SetBody(step.set_, params, results), stamp);
        }
      case _ =>
    }
  }

  // ----- a whole run -----

  predicate StepsCheck(app: App, params: set<string>, steps: seq<ToolStep>) {
    forall i | 0 <= i < |steps| :: StepOk(app, params, StepIds(steps[..i]), steps[i])
  }

  lemma PrefixChecks(app: App, params: set<string>, steps: seq<ToolStep>)
    requires StepsCheck(app, params, steps) && steps != []
    ensures StepsCheck(app, params, steps[..|steps| - 1])
  {
    hide StepOk, StepIds;
    var rest := steps[..|steps| - 1];
    forall i | 0 <= i < |rest| ensures StepOk(app, params, StepIds(rest[..i]), rest[i]) {
      assert rest[..i] == steps[..i] && rest[i] == steps[i];
    }
  }

  lemma StepIdsOfLast(steps: seq<ToolStep>)
    requires steps != []
    ensures StepIds(steps) == StepIds(steps[..|steps| - 1]) + (if steps[|steps| - 1].id != "" then {steps[|steps| - 1].id} else {})
  {
    assert steps == steps[..|steps| - 1] + [steps[|steps| - 1]];
  }

  /**
   * The checker is sound. Run any checked list of steps, with values for the declared parameters:
   * while it succeeds, the results at hand are exactly those of the ids the checker had collected,
   * and if it fails, it is not on an unresolved entity, a missing parameter, a step that has not
   * run, or a bad reference.
   */
  lemma {:induction false} CheckedStepsResolve(env: Env, db: Db, app: App, steps: seq<ToolStep>, params: GoRow, stamps: nat -> Stamp)
    requires StepsCheck(app, params.Keys, steps)
    ensures match StepsRun(env, db, app, steps, params, stamps)
            case Ok(at) => at.results.Keys == StepIds(steps)
            case Err(failure) => Expected(failure.error)
  {
    hide StepRun, StepRefsOk, StepIds, PartsMatchOp, NamesResolve, Expected;
    if steps == [] {
      NoStepIds();
    } else {
      var n := |steps| - 1;
      PrefixChecks(app, params.Keys, steps);
      CheckedStepsResolve(env, db, app, steps[..n], params, stamps);
      StepIdsOfLast(steps);
      var before := StepsRun(env, db, app, steps[..n], params, stamps);
      if before.Ok? {
        assert StepOk(app, params.Keys, StepIds(steps[..n]), steps[n]);
        var e := EntityById(app.entities, steps[n].entity).value;
        StepExpected(env, before.value.db, app, e, steps[n], params, before.value.results, stamps(n));
      }
    }
  }

  /** The keys of a step's result, known before anything runs. */
  function ResultKeys(app: App, step: ToolStep): set<string> {
    match EntityById(app.entities, step.entity)
    case None => {}
    case Some(e) =>
      match step.op
      case List => {"rows", "total"}
      case Delete => {"id", "deleted"}
      case _ => FieldNames(e.fields) + PlatformColumns()
  }

  lemma StepResultKeys(env: Env, db: Db, app: App, e: Entity, step: ToolStep, params: GoRow, results: StepResults, stamp: Stamp)
    requires EntityById(app.entities, step.entity) == Some(e)
    ensures var r := StepRun(env, db, app, e, step, params, results, stamp).1;
            r.Ok? ==> r.value.Keys == ResultKeys(app, step)
  {
    hide FieldValues, WriteFault, InsertedCells, UpdatedCells, SetIssues, FilterIssues, SetBody, Filters, ResolveId, Decode, Physical, PhysCol, FullList, FieldNames;
  }

  /**
   * Which fields a reference may name is also known before anything runs: the results at hand have
   * the keys their steps' entities and operations declare. So a `steps.` reference fails exactly
   * when its field is not among them, on every run that reaches it.
   */
  lemma {:induction false} ResultsHaveDeclaredKeys(env: Env, db: Db, app: App, steps: seq<ToolStep>, params: GoRow, stamps: nat -> Stamp, j: nat)
    requires StepsCheck(app, params.Keys, steps)
    requires j < |steps| && steps[j].id != ""
    ensures match StepsRun(env, db, app, steps, params, stamps)
            case Ok(at) => steps[j].id in at.results && at.results[steps[j].id].Keys == ResultKeys(app, steps[j])
            case Err(_) => true
  {
    hide StepRun, StepRefsOk, StepIds, PartsMatchOp, NamesResolve, ResultKeys;
    if StepsRun(env, db, app, steps, params, stamps).Ok? {
      var n := |steps| - 1;
      PrefixChecks(app, params.Keys, steps);
      CheckedStepsResolve(env, db, app, steps[..n], params, stamps);
      var before := StepsRun(env, db, app, steps[..n], params, stamps).value;
      assert StepOk(app, params.Keys, StepIds(steps[..n]), steps[n]);
      if j == n {
        var e := EntityById(app.entities, steps[n].entity).value;
        StepResultKeys(env, before.db, app, e, steps[n], params, before.results, stamps(n));
      } else {
        ResultsHaveDeclaredKeys(env, db, app, steps[..n], params, stamps, j);
        assert steps[..n][j] == steps[j];
        IdCollected(steps[..n], j);
      }
    }
  }

  lemma IdCollected(steps: seq<ToolStep>, j: nat)
    requires j < |steps| && steps[j].id != ""
    ensures steps[j].id in StepIds(steps)
  {
  }

  // ----- what a run does -----

  /** The direct call of the data API a step amounts to. */
  function StepCall(e: Entity, step: ToolStep, params: GoRow, results: StepResults, stamp: Stamp): RowEvent {
    var id := ResolveId(step.rowId, params, results).ToOption().GetOr("");
    match step.op
    case Create => CreateRow(e, SetBody(step.set_, params, results), stamp)
    case Read => GetRow(e, id)
    case List => ListRows(e, Filters(step.filter, params, results))
    case Update => UpdateRow(e, id, SetBody(step.set_, params, results), stamp)
    case Delete => DeleteRow(e, id)
  }

  /** What the data API answers to a direct call. */
  function Reply(env: Env, db: Db, app: App, call: RowEvent): Result<GoRow, OpError> {
    match call
    case CreateRow(e, body, stamp) => Created(env, db, app, e, body, stamp).1
    case UpdateRow(e, id, body, stamp) => Updated(env, db, app, e, id, body, stamp).1
    case GetRow(e, id) => Got(db, e, id)
    case ListRows(e, filters) => Listed(env, db, e, filters)
    case DeleteRow(e, id) => (
      match Deleted(env, db, e, id).1
      case Err(error) => Err(error)
      case Ok(deleted) => Ok(map["id" := Str(id), "deleted" := Bool(deleted)]))
  }

  /** The direct calls of a run, in order. */
  function RunCalls(env: Env, db: Db, app: App, steps: seq<ToolStep>, params: GoRow, stamps: nat -> Stamp): seq<RowEvent> {
    if steps == [] then []
    else
      var n := |steps| - 1;
      var calls := RunCalls(env, db, app, steps[..n], params, stamps);
      match (StepsRun(env, db, app, steps[..n], params, stamps), EntityById(app.entities, steps[n].entity))
      case (Ok(before), Some(e)) => calls + [StepCall(e, steps[n], params, before.results, stamps(n))]
      case _ => calls
  }

  /** The operation an entity must allow for the call. */
  function NeededOp(call: RowEvent): Crud {
    match call
    case CreateRow(_, _, _) => Create
    case UpdateRow(_, _, _, _) => Update
    case DeleteRow(_, _) => Delete
    case GetRow(_, _) => Read
    case ListRows(_, _) => Read
  }

  predicate Permitted(app: App, call: RowEvent) {
    call.e in app.entities && call.e.Allows(NeededOp(call))
  }

  /** A step leaves what its call leaves, and yields what its call answers. */
  lemma StepIsItsCall(env: Env, db: Db, app: App, e: Entity, step: ToolStep, params: GoRow, results: StepResults, stamp: Stamp)
    requires StepRun(env, db, app, e, step, params, results, stamp).1.Ok?
    ensures var call := StepCall(e, step, params, results, stamp);
            StepRun(env, db, app, e, step, params, results, stamp) == (RowStep(env, db, app, call), Reply(env, db, app, call))
  {
    hide Created, Updated, Deleted, SetBody, SetIssues, Filters, FilterIssues, ResolveId, Got, Listed;
  }

  /** The steps of a tool leave what the same calls, made one by one, leave. */
  lemma {:induction false} StepsAreTheirCalls(env: Env, db: Db, app: App, steps: seq<ToolStep>, params: GoRow, stamps: nat -> Stamp)
    requires StepsRun(env, db, app, steps, params, stamps).Ok?
    ensures |RunCalls(env, db, app, steps, params, stamps)| == |steps|
    ensures RowRun(env, db, app, RunCalls(env, db, app, steps, params, stamps)) == StepsRun(env, db, app, steps, params, stamps).value.db
  {
    hide StepRun, StepCall, StepProgress, RowStep;
    if steps != [] {
      var n := |steps| - 1;
      StepsAreTheirCalls(env, db, app, steps[..n], params, stamps);
      var before := StepsRun(env, db, app, steps[..n], params, stamps).value;
      var e := EntityById(app.entities, steps[n].entity).value;
      StepIsItsCall(env, before.db, app, e, steps[n], params, before.results, stamps(n));
      var calls := RunCalls(env, db, app, steps, params, stamps);
      assert calls[..n] == RunCalls(env, db, app, steps[..n], params, stamps);
      ProgressDb(before, steps[n], env, app, e, params, stamps(n));
    }
  }

  lemma ProgressDb(before: Progress, step: ToolStep, env: Env, app: App, e: Entity, params: GoRow, stamp: Stamp)
    ensures forall db, row :: StepProgress(before, step, db, row).db == db
  {
  }

  lemma CallsOfPrefix(env: Env, db: Db, app: App, steps: seq<ToolStep>, params: GoRow, stamps: nat -> Stamp)
    requires steps != [] && StepsRun(env, db, app, steps, params, stamps).Ok?
    ensures var n, calls := |steps| - 1, RunCalls(env, db, app, steps, params, stamps);
            && StepsRun(env, db, app, steps[..n], params, stamps).Ok?
            && |calls| == |steps| && calls[..n] == RunCalls(env, db, app, steps[..n], params, stamps)
  {
    hide StepRun, StepCall, StepProgress, RowRun;
    StepsAreTheirCalls(env, db, app, steps[..|steps| - 1], params, stamps);
  }

  lemma LastReply(env: Env, db: Db, app: App, steps: seq<ToolStep>, params: GoRow, stamps: nat -> Stamp)
    requires steps != [] && StepsRun(env, db, app, steps, params, stamps).Ok?
    ensures var n, calls := |steps| - 1, RunCalls(env, db, app, steps, params, stamps);
            && |calls| == |steps|
            && Reply(env, RowRun(env, db, app, calls[..n]), app, calls[n]) == Ok(StepsRun(env, db, app, steps, params, stamps).value.last)
  {
    hide StepRun, StepCall, RowRun, Reply, RowStep;
    var n := |steps| - 1;
    CallsOfPrefix(env, db, app, steps, params, stamps);
    StepsAreTheirCalls(env, db, app, steps[..n], params, stamps);
    var before := StepsRun(env, db, app, steps[..n], params, stamps).value;
    var e := EntityById(app.entities, steps[n].entity).value;
    StepIsItsCall(env, before.db, app, e, steps[n], params, before.results, stamps(n));
  }

  lemma ResultsGrow(env: Env, db: Db, app: App, steps: seq<ToolStep>, params: GoRow, stamps: nat -> Stamp)
    requires steps != [] && StepsRun(env, db, app, steps, params, stamps).Ok?
    ensures var n, end := |steps| - 1, StepsRun(env, db, app, steps, params, stamps).value;
            && StepsRun(env, db, app, steps[..n], params, stamps).Ok?
            && var results := StepsRun(env, db, app, steps[..n], params, stamps).value.results;
               end.results == if steps[n].id != "" then results[steps[n].id := end.last] else results
  {
    hide StepRun;
  }

  /** Each step's result is what its direct call would have answered at that point of the run. */
  lemma {:induction false} ResultsAreReplies(env: Env, db: Db, app: App, steps: seq<ToolStep>, params: GoRow, stamps: nat -> Stamp, j: nat)
    requires StepsCheck(app, params.Keys, steps) && j < |steps| && steps[j].id != ""
    requires StepsRun(env, db, app, steps, params, stamps).Ok?
    ensures var calls, results := RunCalls(env, db, app, steps, params, stamps), StepsRun(env, db, app, steps, params, stamps).value.results;
            && |calls| == |steps| && steps[j].id in results
            && Reply(env, RowRun(env, db, app, calls[..j]), app, calls[j]) == Ok(results[steps[j].id])
  {
    hide StepsRun, RunCalls, RowRun, Reply, StepRefsOk, StepIds, PartsMatchOp, NamesResolve, EntityAllows;
    var n := |steps| - 1;
    ResultsGrow(env, db, app, steps, params, stamps);
    if j == n {
      LastReply(env, db, app, steps, params, stamps);
    } else {
      CallsOfPrefix(env, db, app, steps, params, stamps);
      PrefixChecks(app, params.Keys, steps);
      ResultsAreReplies(env, db, app, steps[..n], params, stamps, j);
      var calls := RunCalls(env, db, app, steps, params, stamps);
      assert steps[..n][j] == steps[j] && calls[..n][..j] == calls[..j];
      assert StepOk(app, params.Keys, StepIds(steps[..n]), steps[n]);
      IdCollected(steps[..n], j);
    }
  }

  lemma {:induction false} CallsArePermitted(env: Env, db: Db, app: App, steps: seq<ToolStep>, params: GoRow, stamps: nat -> Stamp)
    requires StepsCheck(app, params.Keys, steps)
    ensures forall call | call in RunCalls(env, db, app, steps, params, stamps) :: Permitted(app, call)
  {
    hide StepsRun, StepRefsOk, StepIds, PartsMatchOp, NamesResolve, SetBody, ResolveId, Filters;
    if steps != [] {
      var n := |steps| - 1;
      PrefixChecks(app, params.Keys, steps);
      CallsArePermitted(env, db, app, steps[..n], params, stamps);
      assert StepOk(app, params.Keys, StepIds(steps[..n]), steps[n]);
    }
  }

  function CallsOf(env: Env, db: Db, app: App, tool: Tool, provided: map<string, Json>, stamps: nat -> Stamp): seq<RowEvent>
    requires Params(env, db, app, tool, provided).Ok?
  {
    RunCalls(env, db, app, tool.steps, Params(env, db, app, tool, provided).value, stamps)
  }

  /**
   * A tool is all or nothing, and does nothing a caller could not do directly. If the call reports
   * an error, wherever it arose, the database is as it was; otherwise it is what a sequence of
   * direct calls leaves, one for each step, reads and lists included, each on an entity that allows
   * its operation.
   */
  lemma ToolIsAtomic(env: Env, db: Db, app: App, key: string, provided: map<string, Json>, stamps: nat -> Stamp, begins: bool, commits: bool)
    requires ToolsOk(app, app.tools)
    ensures var (after, r) := ToolRun(env, db, app, key, provided, stamps, begins, commits);
            && (r.Err? ==> after == db)
            && (r.Ok? ==>
                  && FindTool(app.tools, key).Some? && Params(env, db, app, FindTool(app.tools, key).value, provided).Ok?
                  && var calls := CallsOf(env, db, app, FindTool(app.tools, key).value, provided, stamps);
                     && |calls| == |FindTool(app.tools, key).value.steps|
                     && after == RowRun(env, db, app, calls) && forall call | call in calls :: Permitted(app, call))
  {
    hide Params, StepsRun, RunCalls, RowRun, Permitted, StepsCheck;
    var (after, r) := ToolRun(env, db, app, key, provided, stamps, begins, commits);
    if r.Ok? {
      var tool := FindTool(app.tools, key).value;
      ToolIsChecked(app, tool);
      ParamsAreDeclared(env, db, app, tool, provided);
      var params := Params(env, db, app, tool, provided).value;
      StepsAreTheirCalls(env, db, app, tool.steps, params, stamps);
      CallsArePermitted(env, db, app, tool.steps, params, stamps);
    }
  }

  lemma ToolIsChecked(app: App, tool: Tool)
    requires ToolsOk(app, app.tools) && tool in app.tools
    ensures StepsCheck(app, FieldNames(tool.params), tool.steps)
  {
    hide StepOk, StepIds, ParamsOk;
    assert ToolOk(app, tool);
  }

  /** The checker's guarantee, for a whole call of any tool of a valid manifest. */
  lemma CheckedToolResolves(env: Env, db: Db, app: App, key: string, provided: map<string, Json>, stamps: nat -> Stamp, begins: bool, commits: bool)
    requires ToolsOk(app, app.tools)
    ensures match ToolRun(env, db, app, key, provided, stamps, begins, commits).1
            case Err(StepFailed(failure)) => Expected(failure.error)
            case Ok(r) => r.steps.Keys == StepIds(FindTool(app.tools, key).value.steps)
            case _ => true
  {
    hide Params, StepsRun, StepsCheck, Expected, StepIds;
    var found := FindTool(app.tools, key);
    if found.Some? && Params(env, db, app, found.value, provided).Ok? {
      ToolIsChecked(app, found.value);
      ParamsAreDeclared(env, db, app, found.value, provided);
      CheckedStepsResolve(env, db, app, found.value.steps, Params(env, db, app, found.value, provided).value, stamps);
    }
  }

  /** Running a tool keeps every row within the constraints of the DDL. */
  lemma ToolsKeepRowsSound(env: Env, db: Db, app: App, key: string, provided: map<string, Json>, stamps: nat -> Stamp, begins: bool, commits: bool)
    requires ValidApp(app) && ToolsOk(app, app.tools) && FaithfulDeletes(env) && Sound(env.p, db, app)
    ensures Sound(env.p, ToolRun(env, db, app, key, provided, stamps, begins, commits).0, app)
  {
    hide ToolRun, ValidApp, ToolsOk, FaithfulDeletes, Sound, RowRun, CallsOf, FindTool, Params;
    ToolIsAtomic(env, db, app, key, provided, stamps, begins, commits);
    var (after, r) := ToolRun(env, db, app, key, provided, stamps, begins, commits);
    if r.Ok? {
      RowsStaySound(env, db, app, CallsOf(env, db, app, FindTool(app.tools, key).value, provided, stamps));
    }
  }
}

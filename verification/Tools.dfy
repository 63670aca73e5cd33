/** engine/tools/execute.go: running a manifest-declared tool inside one transaction. */
module Tools {
  import opened Results
  import opened Schema
  import opened Sql
  import opened Validation
  import opened RowCodec
  import opened Listing
  import opened DomainOps

  /** Step results by step id, as templates see them. */
  type StepResults = map<string, GoRow>

  // ----- templates -----

  /** json.Marshal of a stored value: a real spells an integer when it is one that fits. */
  function Marshal(v: GoValue): Json {
    match v
    case Nil => JNull
    case Str(s) => JString(s)
    case Int(i) => JNumber(Whole(i))
    case Float(r) =>
      if IsWhole(r) && -(INT64_LIMIT as real) <= r < INT64_LIMIT as real then JNumber(Whole(r.Floor)) else JNumber(Fraction(r))
    case Bool(b) => JBool(b)
    case Rows(_) => JOther
  }

  /** json.Unmarshal into an `any`: every number becomes a float. */
  function Unmarshal(raw: Json): Result<GoValue, Problem> {
    match raw
    case JNull => Ok(Nil)
    case JBool(b) => Ok(Bool(b))
    case JNumber(n) => Ok(Float(AsReal(n)))
    case JString(s) => Ok(Str(s))
    case JOther => Ok(Rows([]))
    case JEmpty => Err(NotAValue)
  }

  /** resolveValue. */
  function Resolve(sv: Option<StepValue>, params: GoRow, steps: StepResults): Result<Json, Problem> {
    if sv.None? then Ok(JNull)
    else if sv.value.ref == "" then Ok(sv.value.literal)
    else
      var (root, rest) := Cut(sv.value.ref);
      if root == "params" then
        if rest in params then Ok(Marshal(params[rest])) else Err(ParamNotProvided)
      else if root == "steps" then
        var (stepId, field) := Cut(rest);
        if stepId !in steps then Err(StepHasNotRun)
        else if field !in steps[stepId] then Err(NoSuchStepField)
        else Ok(Marshal(steps[stepId][field]))
      else Err(BadReference)
  }

  /** The value of one filter template. */
  function ResolveFilter(sv: Option<StepValue>, params: GoRow, steps: StepResults): Result<GoValue, Problem> {
    var raw :- Resolve(sv, params, steps);
    Unmarshal(raw)
  }

  /** resolveID: a JSON null decodes into an empty string. */
  function ResolveId(sv: Option<StepValue>, params: GoRow, steps: StepResults): Result<string, Problem> {
    var raw :- Resolve(sv, params, steps);
    match raw
    case JString(s) => Ok(s)
    case JNull => Ok("")
    case _ => Err(NotAStringId)
  }

  function SetIssues(values: map<string, Option<StepValue>>, params: GoRow, steps: StepResults): set<Issue> {
    set name | name in values && Resolve(values[name], params, steps).Err? ::
      Issue(name, Resolve(values[name], params, steps).error)
  }

  function SetBody(values: map<string, Option<StepValue>>, params: GoRow, steps: StepResults): map<string, Json> {
    map name | name in values && Resolve(values[name], params, steps).Ok? :: Resolve(values[name], params, steps).value
  }

  function FilterIssues(values: map<string, Option<StepValue>>, params: GoRow, steps: StepResults): set<Issue> {
    set name | name in values && ResolveFilter(values[name], params, steps).Err? ::
      Issue(name, ResolveFilter(values[name], params, steps).error)
  }

  function Filters(values: map<string, Option<StepValue>>, params: GoRow, steps: StepResults): set<Filter> {
    set name | name in values && ResolveFilter(values[name], params, steps).Ok? ::
      Filter(name, Eq, ResolveFilter(values[name], params, steps).value)
  }

  /** resolveSet, over the map in whatever order. */
  method ResolveSet(values: map<string, Option<StepValue>>, params: GoRow, steps: StepResults)
    returns (body: map<string, Json>, issues: seq<Issue>)
    ensures body == SetBody(values, params, steps)
    ensures Members(issues) == SetIssues(values, params, steps)
  {
    hide Resolve;
    body, issues := map[], [];
    var left := values;
    ghost var done: map<string, Option<StepValue>> := map[];
    while left != map[]
      invariant forall k :: k in values <==> k in done || k in left
      invariant forall k | k in done :: k !in left && done[k] == values[k]
      invariant forall k | k in left :: left[k] == values[k]
      invariant body == SetBody(done, params, steps)
      invariant Members(issues) == SetIssues(done, params, steps)
      decreases |left|
    {
      var name :| name in left;
      var r := Resolve(left[name], params, steps);
      OneMoreValue(done, name, left[name], params, steps);
      OneMoreIssue(done, name, left[name], params, steps);
      if r.Err? {
        MembersMore(issues, Issue(name, r.error));
        issues := issues + [Issue(name, r.error)];
      } else {
        body := body[name := r.value];
      }
      done := done[name := left[name]];
      left := left - {name};
    }
    assert done == values;
  }

  lemma OneMoreValue(done: map<string, Option<StepValue>>, name: string, sv: Option<StepValue>, params: GoRow, steps: StepResults)
    requires name !in done
    ensures var r := Resolve(sv, params, steps);
            SetBody(done[name := sv], params, steps) ==
              if r.Ok? then SetBody(done, params, steps)[name := r.value] else SetBody(done, params, steps)
  {
    hide Resolve;
  }

  lemma OneMoreIssue(done: map<string, Option<StepValue>>, name: string, sv: Option<StepValue>, params: GoRow, steps: StepResults)
    requires name !in done
    ensures var r := Resolve(sv, params, steps);
            SetIssues(done[name := sv], params, steps) ==
              SetIssues(done, params, steps) + (if r.Err? then {Issue(name, r.error)} else {})
  {
    hide Resolve;
    var more := done[name := sv];
    assert forall k | k in done :: more[k] == done[k];
    forall x | x in SetIssues(done, params, steps) ensures x in SetIssues(more, params, steps) {
      assert more[x.field] == done[x.field];
    }
    assert more[name] == sv;
  }

  lemma OneMoreFilter(done: map<string, Option<StepValue>>, name: string, sv: Option<StepValue>, params: GoRow, steps: StepResults)
    requires name !in done
    ensures var r, more := ResolveFilter(sv, params, steps), done[name := sv];
            && Filters(more, params, steps) ==
                 Filters(done, params, steps) + (if r.Ok? then {Filter(name, Eq, r.value)} else {})
            && FilterIssues(more, params, steps) ==
                 FilterIssues(done, params, steps) + (if r.Err? then {Issue(name, r.error)} else {})
  {
    hide ResolveFilter;
    var more := done[name := sv];
    assert forall k | k in done :: more[k] == done[k];
    forall x | x in FilterIssues(done, params, steps) ensures x in FilterIssues(more, params, steps) {
      assert more[x.field] == done[x.field];
    }
    forall x | x in Filters(done, params, steps) ensures x in Filters(more, params, steps) {
      assert more[x.column] == done[x.column];
    }
    assert more[name] == sv;
  }

  /** resolveFilters. */
  method ResolveFilters(values: map<string, Option<StepValue>>, params: GoRow, steps: StepResults)
    returns (filters: seq<Filter>, issues: seq<Issue>)
    ensures Members(filters) == Filters(values, params, steps)
    ensures Members(issues) == FilterIssues(values, params, steps)
  {
    hide ResolveFilter, Members;
    filters, issues := [], [];
    var left := values;
    ghost var done: map<string, Option<StepValue>> := map[];
    NoFilters(params, steps);
    while left != map[]
      invariant forall k :: k in values <==> k in done || k in left
      invariant forall k | k in done :: k !in left && done[k] == values[k]
      invariant forall k | k in left :: left[k] == values[k]
      invariant Members(filters) == Filters(done, params, steps)
      invariant Members(issues) == FilterIssues(done, params, steps)
      decreases |left|
    {
      var name :| name in left;
      var r := ResolveFilter(left[name], params, steps);
      OneMoreFilter(done, name, left[name], params, steps);
      if r.Err? {
        MembersMore(issues, Issue(name, r.error));
        issues := issues + [Issue(name, r.error)];
      } else {
        MembersMore(filters, Filter(name, Eq, r.value));
        filters := filters + [Filter(name, Eq, r.value)];
      }
      done := done[name := left[name]];
      left := left - {name};
    }
    assert done == values;
  }

  lemma NoFilters(params: GoRow, steps: StepResults)
    ensures Members<Filter>([]) == Filters(map[], params, steps)
    ensures Members<Issue>([]) == FilterIssues(map[], params, steps)
  {
  }

  // ----- parameters -----

  /** What becomes of one declared parameter. */
  function ParamValue(env: Env, db: Db, app: App, param: Field, provided: map<string, Json>): FieldResult {
    if param.name !in provided then
      if param.default.Some? then Set(DefaultStoreValue(env, param))
      else if param.required then Refused(IsRequired)
      else Set(Nil)
    else
      match CoerceValue(env, db, app, param, provided[param.name])
      case Bad => Refused(BadValue)
      case NullValue => if param.required then Refused(NotNullable) else Set(Nil)
      case Good(v) => Set(v)
  }

  function DeclaredValues(env: Env, db: Db, app: App, params: seq<Field>, provided: map<string, Json>): Body {
    if params == [] then Body(map[], [])
    else
      var param := params[|params| - 1];
      WithField(DeclaredValues(env, db, app, params[..|params| - 1], provided), param, ParamValue(env, db, app, param, provided))
  }

  function UndeclaredIssues(params: seq<Field>, provided: map<string, Json>): set<Issue> {
    set name | name in provided && FieldByName(params, name).None? :: Issue(name, Undeclared)
  }

  /** resolveParams: the parameter values, or every issue with what was provided. */
  function Params(env: Env, db: Db, app: App, tool: Tool, provided: map<string, Json>): Result<GoRow, set<Issue>> {
    var b := DeclaredValues(env, db, app, tool.params, provided);
    var issues := UndeclaredIssues(tool.params, provided) + Members(b.issues);
    if issues != {} then Err(issues) else Ok(b.values)
  }

  method UndeclaredParams(params: seq<Field>, provided: map<string, Json>) returns (issues: seq<Issue>)
    ensures Members(issues) == UndeclaredIssues(params, provided)
  {
    issues := [];
    var left := provided.Keys;
    while left != {}
      invariant left <= provided.Keys
      invariant Members(issues) == set name | name in provided && name !in left && FieldByName(params, name).None? :: Issue(name, Undeclared)
      decreases |left|
    {
      var name :| name in left;
      left := left - {name};
      if FieldByName(params, name).None? {
        MembersMore(issues, Issue(name, Undeclared));
        issues := issues + [Issue(name, Undeclared)];
      }
    }
  }

  method ResolveParams(env: Env, db: Db, app: App, tool: Tool, provided: map<string, Json>)
    returns (values: GoRow, issues: seq<Issue>)
    ensures issues == [] <==> Params(env, db, app, tool, provided).Ok?
    ensures issues == [] ==> values == Params(env, db, app, tool, provided).value
    ensures issues != [] ==> Members(issues) == Params(env, db, app, tool, provided).error
  {
    hide CoerceValue, DefaultStoreValue, UndeclaredIssues;
    var undeclared := UndeclaredParams(tool.params, provided);
    var declared: seq<Issue> := [];
    values := map[];
    for i := 0 to |tool.params|
      invariant Body(values, declared) == DeclaredValues(env, db, app, tool.params[..i], provided)
    {
      assert tool.params[..i + 1][..i] == tool.params[..i];
      var param := tool.params[i];
      match ParamValue(env, db, app, param, provided) {
        case Untouched =>
        case Refused(problem) =>
          declared := declared + [Issue(param.name, problem)];
        case Set(v) =>
          values := values[param.name := v];
      }
    }
    assert tool.params[..|tool.params|] == tool.params;
    issues := undeclared + declared;
    MembersOfBoth(undeclared, declared);
  }

  lemma MembersOfBoth<T>(a: seq<T>, b: seq<T>)
    ensures Members(a + b) == Members(a) + Members(b)
    ensures a + b == [] <==> Members(a + b) == {}
  {
    if a + b != [] {
      assert (a + b)[0] in Members(a + b);
    }
  }

  // ----- one step -----

  const DEFAULT_LIMIT := 50

  /** ListIn with the default query: the first page by id, and the number of matches. */
  function Listed(env: Env, db: Db, e: Entity, filters: set<Filter>): Result<GoRow, OpError> {
    if e.id !in db.tables || (exists f | f in filters :: f.value.Rows?) then Err(Internal)
    else
      var full := FullList(env.p, env.like, e, filters, [], env.scan(db, e.id));
      Ok(map["rows" := Rows(ReadAll(e, Page(full, DEFAULT_LIMIT, 0))), "total" := Int(|full|)])
  }

  function OneIssue(field: string, problem: Problem): OpError {
    Validation({Issue(field, problem)})
  }

  /** runStep. */
  function StepRun(env: Env, db: Db, app: App, e: Entity, step: ToolStep, params: GoRow, results: StepResults, stamp: Stamp): RowOutcome {
    match step.op
    case Create =>
      if SetIssues(step.set_, params, results) != {} then (db, Err(Validation(SetIssues(step.set_, params, results))))
      else Created(env, db, app, e, SetBody(step.set_, params, results), stamp)
    case Read => (
      match ResolveId(step.rowId, params, results)
      case Err(problem) => (db, Err(OneIssue("rowId", problem)))
      case Ok(id) => (db, Got(db, e, id)))
    case List =>
      if FilterIssues(step.filter, params, results) != {} then (db, Err(Validation(FilterIssues(step.filter, params, results))))
      else (db, Listed(env, db, e, Filters(step.filter, params, results)))
    case Update => (
      match ResolveId(step.rowId, params, results)
      case Err(problem) => (db, Err(OneIssue("rowId", problem)))
      case Ok(id) =>
        if SetIssues(step.set_, params, results) != {} then (db, Err(Validation(SetIssues(step.set_, params, results))))
        else Updated(env, db, app, e, id, SetBody(step.set_, params, results), stamp))
    case Delete => (
      match ResolveId(step.rowId, params, results)
      case Err(problem) => (db, Err(OneIssue("rowId", problem)))
      case Ok(id) =>
        var (after, r) := Deleted(env, db, e, id);
        match r
        case Err(error) => (after, Err(error))
        case Ok(deleted) => (after, Ok(map["id" := Str(id), "deleted" := Bool(deleted)])))
  }

  // ----- a whole run -----

  /** Where a run stands: the transaction's database, the results by step id, and the last result. */
  datatype Progress = Progress(db: Db, results: StepResults, last: GoRow)

  /** A failing step, by position. */
  datatype StepFailure = StepFailure(index: nat, error: OpError)

  function StepProgress(before: Progress, step: ToolStep, db: Db, row: GoRow): Progress {
    Progress(db, if step.id != "" then before.results[step.id := row] else before.results, row)
  }

  /** The step at position `n`, from where the run stands. */
  function NextStep(env: Env, before: Progress, app: App, step: ToolStep, params: GoRow, stamp: Stamp, n: nat): Result<Progress, StepFailure> {
    match EntityById(app.entities, step.entity)
    case None => Err(StepFailure(n, EntityNotFound))
    case Some(e) =>
      var (after, r) := StepRun(env, before.db, app, e, step, params, before.results, stamp);
      match r
      case Err(error) => Err(StepFailure(n, error))
      case Ok(row) => Ok(StepProgress(before, step, after, row))
  }

  /** The sequential composition of the steps. */
  function StepsRun(env: Env, db: Db, app: App, steps: seq<ToolStep>, params: GoRow, stamps: nat -> Stamp): Result<Progress, StepFailure> {
    if steps == [] then Ok(Progress(db, map[], map[]))
    else
      var n := |steps| - 1;
      var before :- StepsRun(env, db, app, steps[..n], params, stamps);
      NextStep(env, before, app, steps[n], params, stamps(n), n)
  }

  datatype ToolResult = ToolResult(result: GoRow, steps: StepResults)

  datatype ToolFault = NoSuchTool | CannotBegin | BadParams(issues: set<Issue>) | StepFailed(failure: StepFailure) | CommitFailed

  function FindTool(tools: seq<Tool>, key: string): Option<Tool> {
    if ToolById(tools, key).Some? then ToolById(tools, key) else ToolByName(tools, key)
  }

  function ToolById(tools: seq<Tool>, id: string): (r: Option<Tool>)
    ensures r.Some? ==> r.value in tools
  {
    if tools == [] then None else if tools[0].id == id then Some(tools[0]) else ToolById(tools[1..], id)
  }

  function ToolByName(tools: seq<Tool>, name: string): (r: Option<Tool>)
    ensures r.Some? ==> r.value in tools
  {
    if tools == [] then None else if tools[0].name == name then Some(tools[0]) else ToolByName(tools[1..], name)
  }

  /** Execute: the steps in one transaction, or nothing. */
  function ToolRun(env: Env, db: Db, app: App, key: string, provided: map<string, Json>, stamps: nat -> Stamp, begins: bool, commits: bool)
    : (Db, Result<ToolResult, ToolFault>)
  {
    match FindTool(app.tools, key)
    case None => (db, Err(NoSuchTool))
    case Some(tool) =>
      if !begins then (db, Err(CannotBegin))
      else
        match Params(env, db, app, tool, provided)
        case Err(issues) => (db, Err(BadParams(issues)))
        case Ok(params) =>
          match StepsRun(env, db, app, tool.steps, params, stamps)
          case Err(failure) => (db, Err(StepFailed(failure)))
          case Ok(end) =>
            if !commits then (db, Err(CommitFailed))
            else (end.db, Ok(ToolResult(end.last, end.results)))
  }

  // ----- the interpreter -----

  method ListIn(tx: RowTx, e: Entity, filters: seq<Filter>) returns (r: Result<GoRow, OpError>)
    ensures r == Listed(tx.env, tx.db, e, Members(filters))
  {
    hide FullList, ReadAll, Page;
    if e.id !in tx.db.tables || exists f | f in filters :: f.value.Rows? {
      return Err(Internal);
    }
    var rows, total := ListWith(tx.env.p, tx.env.like, e, ListQuery(filters, [], DEFAULT_LIMIT, 0), tx.env.scan(tx.db, e.id));
    return Ok(map["rows" := Rows(rows), "total" := Int(total)]);
  }

  method RunStep(tx: RowTx, e: Entity, step: ToolStep, params: GoRow, results: StepResults, stamp: Stamp)
    returns (r: Result<GoRow, OpError>)
    requires NamedFields(e)
    modifies tx
    ensures (tx.db, r) == StepRun(tx.env, old(tx.db), tx.app, e, step, params, results, stamp)
  {
    hide Created, Updated, Deleted, Got, Listed, SetBody, SetIssues, Filters, FilterIssues, ResolveId, Members, NamedFields;
    match step.op {
      case Create =>
        var body, issues := ResolveSet(step.set_, params, results);
        NoIssues(issues);
        if issues != [] {
          return Err(Validation(Members(issues)));
        }
        r := tx.CreateIn(e, body, stamp);
      case Read =>
        var id := ResolveId(step.rowId, params, results);
        if id.Err? {
          return Err(OneIssue("rowId", id.error));
        }
        r := tx.GetIn(e, id.value);
      case List =>
        var filters, issues := ResolveFilters(step.filter, params, results);
        NoIssues(issues);
        if issues != [] {
          return Err(Validation(Members(issues)));
        }
        r := ListIn(tx, e, filters);
      case Update =>
        var id := ResolveId(step.rowId, params, results);
        if id.Err? {
          return Err(OneIssue("rowId", id.error));
        }
        var body, issues := ResolveSet(step.set_, params, results);
        NoIssues(issues);
        if issues != [] {
          return Err(Validation(Members(issues)));
        }
        r := tx.UpdateIn(e, id.value, body, stamp);
      case Delete =>
        var id := ResolveId(step.rowId, params, results);
        if id.Err? {
          return Err(OneIssue("rowId", id.error));
        }
        var deleted := tx.DeleteIn(e, id.value);
        if deleted.Err? {
          return Err(deleted.error);
        }
        return Ok(map["id" := Str(id.value), "deleted" := Bool(deleted.value)]);
    }
  }

  lemma NoIssues(issues: seq<Issue>)
    ensures issues == [] <==> Members(issues) == {}
  {
    if issues != [] {
      assert issues[0] in Members(issues);
    }
  }

  lemma {:induction false} StepsFail(env: Env, db: Db, app: App, steps: seq<ToolStep>, params: GoRow, stamps: nat -> Stamp, i: nat)
    requires i <= |steps| && StepsRun(env, db, app, steps[..i], params, stamps).Err?
    ensures StepsRun(env, db, app, steps, params, stamps) == StepsRun(env, db, app, steps[..i], params, stamps)
    decreases |steps|
  {
    hide NextStep;
    if i == |steps| {
      assert steps[..i] == steps;
    } else {
      assert steps[..|steps| - 1][..i] == steps[..i];
      StepsFail(env, db, app, steps[..|steps| - 1], params, stamps, i);
    }
  }

  lemma OneMoreStep(env: Env, db: Db, app: App, steps: seq<ToolStep>, params: GoRow, stamps: nat -> Stamp, i: nat)
    requires i < |steps| && StepsRun(env, db, app, steps[..i], params, stamps).Ok?
    ensures StepsRun(env, db, app, steps[..i + 1], params, stamps) ==
            NextStep(env, StepsRun(env, db, app, steps[..i], params, stamps).value, app, steps[i], params, stamps(i), i)
  {
    hide NextStep;
    assert steps[..i + 1][..i] == steps[..i];
  }

  method TakeStep(tx: RowTx, step: ToolStep, params: GoRow, results: StepResults, stamp: Stamp, i: nat)
    returns (r: Result<GoRow, StepFailure>)
    requires forall e | e in tx.app.entities :: NamedFields(e)
    modifies tx
    ensures forall last ::
              match NextStep(tx.env, Progress(old(tx.db), results, last), tx.app, step, params, stamp, i)
              case Ok(at) => r == Ok(at.last) && tx.db == at.db && at.results == (if step.id != "" then results[step.id := at.last] else results)
              case Err(failure) => r == Err(failure)
  {
    hide StepRun, NamedFields;
    var e := EntityById(tx.app.entities, step.entity);
    if e.None? {
      return Err(StepFailure(i, EntityNotFound));
    }
    var row := RunStep(tx, e.value, step, params, results, stamp);
    if row.Err? {
      return Err(StepFailure(i, row.error));
    }
    return Ok(row.value);
  }

  /** The loop over the steps, in an open transaction. */
  method RunSteps(tx: RowTx, steps: seq<ToolStep>, params: GoRow, stamps: nat -> Stamp) returns (r: Result<ToolResult, StepFailure>)
    requires forall e | e in tx.app.entities :: NamedFields(e)
    modifies tx
    ensures match StepsRun(tx.env, old(tx.db), tx.app, steps, params, stamps)
            case Ok(end) => r == Ok(ToolResult(end.last, end.results)) && tx.db == end.db
            case Err(failure) => r == Err(failure)
  {
    hide StepsRun, NextStep, NamedFields;
    var results: StepResults, last: GoRow := map[], map[];
    assert steps[..0] == [];
    NoSteps(tx.env, tx.db, tx.app, params, stamps);
    for i := 0 to |steps|
      invariant StepsRun(tx.env, old(tx.db), tx.app, steps[..i], params, stamps) == Ok(Progress(tx.db, results, last))
    {
      OneMoreStep(tx.env, old(tx.db), tx.app, steps, params, stamps, i);
      ghost var before := Progress(tx.db, results, last);
      var row := TakeStep(tx, steps[i], params, results, stamps(i), i);
      assert NextStep(tx.env, before, tx.app, steps[i], params, stamps(i), i).Ok? <==> row.Ok?;
      if row.Err? {
        StepsFail(tx.env, old(tx.db), tx.app, steps, params, stamps, i + 1);
        return Err(row.error);
      }
      last := row.value;
      if steps[i].id != "" {
        results := results[steps[i].id := row.value];
      }
    }
    assert steps[..|steps|] == steps;
    return Ok(ToolResult(last, results));
  }

  lemma NoSteps(env: Env, db: Db, app: App, params: GoRow, stamps: nat -> Stamp)
    ensures StepsRun(env, db, app, [], params, stamps) == Ok(Progress(db, map[], map[]))
  {
  }

  /** An app's served database. */
  class AppStore {
    var db: Db
    const env: Env
    const app: App

    constructor (env: Env, app: App, db: Db)
      ensures this.env == env && this.app == app && this.db == db
    {
      this.env := env;
      this.app := app;
      this.db := db;
    }

    /** tools.Execute. The steps run against a transaction; this database changes only if it commits. */
    method Execute(key: string, provided: map<string, Json>, stamps: nat -> Stamp, begins: bool, commits: bool)
      returns (r: Result<ToolResult, ToolFault>)
      requires forall e | e in app.entities :: NamedFields(e)
      modifies this
      ensures (db, r) == ToolRun(env, old(db), app, key, provided, stamps, begins, commits)
    {
      hide StepsRun, Params, FindTool, NamedFields;
      var tool := FindTool(app.tools, key);
      if tool.None? {
        return Err(NoSuchTool);
      }
      if !begins {
        return Err(CannotBegin);
      }
      var tx := new RowTx(env, app, db);
      var params, issues := ResolveParams(env, tx.db, app, tool.value, provided);
      if issues != [] {
        return Err(BadParams(Members(issues)));
      }
      var end := RunSteps(tx, tool.value.steps, params, stamps);
      if end.Err? {
        return Err(StepFailed(end.error)); // rolled back
      }
      if !commits {
        return Err(CommitFailed);
      }
      db := tx.db;
      return Ok(end.value);
    }
  }
}

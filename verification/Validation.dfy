/** engine/validate/semantic.go: the checks a manifest must pass before anything runs it. */
module Validation {
  import opened Results
  import opened Schema

  // ----- references inside a tool -----

  /** strings.Cut(s, "."): before and after the first dot. */
  function Cut(s: string): (string, string) {
    if s == "" then ("", "")
    else if s[0] == '.' then ("", s[1..])
    else
      var (before, after) := Cut(s[1..]);
      ([s[0]] + before, after)
  }

  /** checkRef: a reference names a declared parameter or a step that has run. */
  predicate RefOk(params: set<string>, ids: set<string>, sv: Option<StepValue>) {
    sv.None? || sv.value.ref == "" ||
    var (root, rest) := Cut(sv.value.ref);
    if root == "params" then rest in params
    else root == "steps" && Cut(rest).0 != "" && Cut(rest).0 in ids
  }

  predicate RefsOk(params: set<string>, ids: set<string>, values: map<string, Option<StepValue>>) {
    forall name | name in values :: RefOk(params, ids, values[name])
  }

  /** The ids the checker has collected from these steps. */
  function StepIds(steps: seq<ToolStep>): set<string> {
    set s | s in steps && s.id != "" :: s.id
  }

  // ----- a step -----

  function RequiredOp(op: Crud): Crud {
    if op.List? then Read else op
  }

  predicate EntityAllows(app: App, step: ToolStep) {
    var e := EntityById(app.entities, step.entity);
    e.Some? && e.value.Allows(RequiredOp(step.op))
  }

  /** rowId, set and filter appear on the operations they belong to, and on no other. */
  predicate PartsMatchOp(step: ToolStep) {
    && (step.rowId.Some? <==> step.op.Read? || step.op.Update? || step.op.Delete?)
    && (step.set_ != map[] ==> step.op.Create? || step.op.Update?)
    && (step.filter != map[] ==> step.op.List?)
  }

  predicate NamesResolve(app: App, step: ToolStep) {
    match EntityById(app.entities, step.entity)
    case None => true
    case Some(e) =>
      && (forall name | name in step.set_ :: !IsReserved(name) && FieldByName(e.fields, name).Some?)
      && (forall name | name in step.filter :: IsReserved(name) || FieldByName(e.fields, name).Some?)
  }

  predicate StepRefsOk(params: set<string>, ids: set<string>, step: ToolStep) {
    RefOk(params, ids, step.rowId) && RefsOk(params, ids, step.set_) && RefsOk(params, ids, step.filter)
  }

  predicate StepOk(app: App, params: set<string>, ids: set<string>, step: ToolStep) {
    && EntityAllows(app, step) && PartsMatchOp(step) && NamesResolve(app, step)
    && StepRefsOk(params, ids, step)
    && step.id !in ids
  }

  // ----- a tool -----

  predicate ParamsOk(app: App, params: seq<Field>) {
    && (forall i, j | 0 <= i < j < |params| :: params[i].name != params[j].name)
    && (forall p | p in params :: CheckedField(app.entities, p))
  }

  /** Every step is in order, given the ids of the steps before it: there are no forward references. */
  predicate StepsOk(app: App, tool: Tool) {
    forall i | 0 <= i < |tool.steps| :: StepOk(app, FieldNames(tool.params), StepIds(tool.steps[..i]), tool.steps[i])
  }

  predicate ToolOk(app: App, tool: Tool) {
    ParamsOk(app, tool.params) && tool.steps != [] && StepsOk(app, tool)
  }

  // ----- a manifest -----

  predicate CheckedColumn(entities: seq<Entity>, f: Field) {
    !IsReserved(f.id) && !IsReserved(f.name) && CheckedField(entities, f)
  }

  predicate CheckedFields(entities: seq<Entity>, fields: seq<Field>) {
    && DistinctFieldIds(fields) && DistinctFieldNames(fields)
    && forall f | f in fields :: CheckedColumn(entities, f)
  }

  predicate CheckedEntity(entities: seq<Entity>, e: Entity) {
    CheckedFields(entities, e.fields)
  }

  predicate DistinctEntityNames(entities: seq<Entity>) {
    forall i, j | 0 <= i < j < |entities| :: entities[i].name != entities[j].name
  }

  predicate EntitiesOk(app: App, entities: seq<Entity>) {
    && DistinctEntityIds(entities) && DistinctEntityNames(entities)
    && forall e | e in entities :: CheckedEntity(app.entities, e)
  }

  predicate ToolsOk(app: App, tools: seq<Tool>) {
    && (forall i, j | 0 <= i < j < |tools| :: tools[i].id != tools[j].id)
    && (forall i, j | 0 <= i < j < |tools| :: tools[i].name != tools[j].name)
    && forall tool | tool in tools :: ToolOk(app, tool)
  }

  /** semantic finds nothing to report (functions are not part of this model). */
  predicate SemanticallyValid(app: App) {
    EntitiesOk(app, app.entities) && ToolsOk(app, app.tools)
  }

  /** What parsing and the manifest's JSON Schema guarantee. */
  predicate Parsed(app: App) {
    app.entities != [] && forall e | e in app.entities :: ParsedEntity(e) && forall f | f in e.fields :: ParsedField(f)
  }

  /** A parsed manifest has no semantic errors exactly when it is valid, its names too, and its tools are in order. */
  lemma CheckedIsValid(app: App)
    ensures Parsed(app) && SemanticallyValid(app)
            <==> ValidApp(app) && DistinctEntityNames(app.entities) && ToolsOk(app, app.tools)
  {
    hide ParsedEntity, ParsedField, CheckedField, ToolsOk, IsReserved;
    if Parsed(app) && SemanticallyValid(app) {
      forall e | e in app.entities ensures ValidEntity(app.entities, e) {
        assert CheckedEntity(app.entities, e);
      }
    }
    if ValidApp(app) {
      forall e | e in app.entities ensures CheckedEntity(app.entities, e) && ParsedEntity(e) {
        assert ValidEntity(app.entities, e);
      }
    }
  }

  // ----- the checks, as loops that never stop at the first problem -----

  method ValidateDefault(f: Field, v: GoValue) returns (errs: seq<string>)
    ensures errs == [] <==> CheckedDefault(f, v)
  {
    errs := [];
    match f.typ {
      case Text =>
        if !v.Str? {
          return ["bad_default"];
        }
        if f.min.Some? && (|v.s| as real) < f.min.value {
          errs := errs + ["bad_default"];
        }
        if f.max.Some? && |v.s| as real > f.max.value {
          errs := errs + ["bad_default"];
        }
      case Integer =>
        if !v.Int? {
          return ["bad_default"];
        }
        if f.min.Some? && (v.i as real) < f.min.value {
          errs := errs + ["bad_default"];
        }
        if f.max.Some? && v.i as real > f.max.value {
          errs := errs + ["bad_default"];
        }
      case Real =>
        if !v.Float? {
          return ["bad_default"];
        }
        if f.min.Some? && v.r < f.min.value {
          errs := errs + ["bad_default"];
        }
        if f.max.Some? && v.r > f.max.value {
          errs := errs + ["bad_default"];
        }
      case Enum =>
        if !v.Str? {
          return ["bad_default"];
        }
        var found := false;
        for i := 0 to |f.values|
          invariant found <==> v.s in f.values[..i]
        {
          if f.values[i] == v.s {
            found := true;
            assert v.s in f.values;
            break;
          }
        }
        assert f.values[..|f.values|] == f.values;
        if !found {
          errs := errs + ["bad_default"];
        }
      case _ =>
    }
  }

  method ValidateField(app: App, f: Field) returns (errs: seq<string>)
    ensures errs == [] <==> CheckedField(app.entities, f)
  {
    hide CheckedDefault;
    errs := [];
    if f.min.Some? && f.max.Some? && f.min.value > f.max.value {
      errs := errs + ["bad_bounds"];
    }
    match f.typ {
      case Reference =>
        if EntityById(app.entities, f.target).None? {
          errs := errs + ["unresolved_reference"];
        }
      case Enum =>
        var repeats := RepeatedValues(f.values);
        errs := errs + repeats;
      case _ =>
    }
    if f.default.Some? {
      var bad := ValidateDefault(f, f.default.value);
      errs := errs + bad;
    }
  }

  method RepeatedValues(values: seq<string>) returns (errs: seq<string>)
    ensures errs == [] <==> DistinctStrings(values)
  {
    errs := [];
    var seen: set<string> := {};
    for i := 0 to |values|
      invariant seen == Members(values[..i])
      invariant errs == [] <==> DistinctStrings(values[..i])
    {
      assert values[..i + 1] == values[..i] + [values[i]];
      if values[i] in seen {
        errs := errs + ["duplicate_enum_value"];
      }
      seen := seen + {values[i]};
    }
    assert values[..|values|] == values;
  }

  method CheckRef(params: set<string>, ids: set<string>, sv: Option<StepValue>) returns (errs: seq<string>)
    ensures errs == [] <==> RefOk(params, ids, sv)
  {
    if sv.None? || sv.value.ref == "" {
      return [];
    }
    var (root, rest) := Cut(sv.value.ref);
    if root == "params" {
      return if rest in params then [] else ["unresolved_reference"];
    } else if root == "steps" {
      var stepId := Cut(rest).0;
      return if stepId == "" || stepId !in ids then ["unresolved_reference"] else [];
    }
    return ["bad_reference"];
  }

  method CheckRefs(params: set<string>, ids: set<string>, values: map<string, Option<StepValue>>) returns (errs: seq<string>)
    ensures errs == [] <==> RefsOk(params, ids, values)
  {
    hide RefOk;
    errs := [];
    var left := values.Keys;
    while left != {}
      invariant left <= values.Keys
      invariant errs == [] <==> forall name | name in values && name !in left :: RefOk(params, ids, values[name])
      decreases |left|
    {
      var name :| name in left;
      left := left - {name};
      var bad := CheckRef(params, ids, values[name]);
      errs := errs + bad;
    }
  }

  method CheckNames(e: Entity, step: ToolStep) returns (errs: seq<string>)
    ensures errs == [] <==>
            && (forall name | name in step.set_ :: !IsReserved(name) && FieldByName(e.fields, name).Some?)
            && (forall name | name in step.filter :: IsReserved(name) || FieldByName(e.fields, name).Some?)
  {
    hide IsReserved;
    errs := [];
    var left := step.set_.Keys;
    while left != {}
      invariant left <= step.set_.Keys
      invariant errs == [] <==>
                forall name | name in step.set_ && name !in left :: !IsReserved(name) && FieldByName(e.fields, name).Some?
      decreases |left|
    {
      var name :| name in left;
      left := left - {name};
      if IsReserved(name) {
        errs := errs + ["reserved_name"];
      } else if FieldByName(e.fields, name).None? {
        errs := errs + ["unresolved_reference"];
      }
    }
    var sets := errs;
    left := step.filter.Keys;
    while left != {}
      invariant left <= step.filter.Keys
      invariant errs == [] <==>
                (sets == [] &&
                 forall name | name in step.filter && name !in left :: IsReserved(name) || FieldByName(e.fields, name).Some?)
      decreases |left|
    {
      var name :| name in left;
      left := left - {name};
      if FieldByName(e.fields, name).None? && !IsReserved(name) {
        errs := errs + ["unresolved_reference"];
      }
    }
  }

  method CheckParts(step: ToolStep) returns (errs: seq<string>)
    ensures errs == [] <==> PartsMatchOp(step)
  {
    errs := [];
    match step.op {
      case Create =>
        if step.rowId.Some? {
          errs := errs + ["unexpected_field"];
        }
      case List =>
        if step.rowId.Some? {
          errs := errs + ["unexpected_field"];
        }
      case _ =>
        if step.rowId.None? {
          errs := errs + ["missing_field"];
        }
    }
    if (step.op.Read? || step.op.Delete? || step.op.List?) && step.set_ != map[] {
      errs := errs + ["unexpected_field"];
    }
    if !step.op.List? && step.filter != map[] {
      errs := errs + ["unexpected_field"];
    }
  }

  /** One iteration of validateTool's loop over the steps. */
  method ValidateStep(app: App, params: set<string>, ids: set<string>, step: ToolStep) returns (errs: seq<string>)
    requires "" !in ids
    ensures errs == [] <==> StepOk(app, params, ids, step)
  {
    hide RefOk, RefsOk, PartsMatchOp, IsReserved;
    errs := [];
    var e := EntityById(app.entities, step.entity);
    if e.None? {
      errs := errs + ["unresolved_reference"];
    } else if !e.value.Allows(RequiredOp(step.op)) {
      errs := errs + ["scope_exceeds_entity"];
    }
    var parts := CheckParts(step);
    var names: seq<string> := [];
    if e.Some? {
      names := CheckNames(e.value, step);
    }
    var rowId := CheckRef(params, ids, step.rowId);
    var sets := CheckRefs(params, ids, step.set_);
    var filters := CheckRefs(params, ids, step.filter);
    errs := errs + parts + names + rowId + sets + filters;
    if step.id != "" && step.id in ids {
      errs := errs + ["duplicate_id"];
    }
  }

  method ValidateParams(app: App, params: seq<Field>) returns (names: set<string>, errs: seq<string>)
    ensures names == FieldNames(params)
    ensures errs == [] <==> ParamsOk(app, params)
  {
    hide CheckedField;
    names, errs := {}, [];
    for i := 0 to |params|
      invariant names == FieldNames(params[..i])
      invariant errs == [] <==> ParamsOk(app, params[..i])
    {
      assert params[..i + 1] == params[..i] + [params[i]];
      if params[i].name in names {
        errs := errs + ["duplicate_name"];
      }
      names := names + {params[i].name};
      var bad := ValidateField(app, params[i]);
      errs := errs + bad;
    }
    assert params[..|params|] == params;
  }

  lemma OneMoreStepId(steps: seq<ToolStep>, i: nat)
    requires i < |steps|
    ensures StepIds(steps[..i + 1]) == StepIds(steps[..i]) + (if steps[i].id != "" then {steps[i].id} else {})
  {
    assert steps[..i + 1] == steps[..i] + [steps[i]];
  }

  method ValidateTool(app: App, tool: Tool) returns (errs: seq<string>)
    ensures errs == [] <==> ToolOk(app, tool)
  {
    hide ParamsOk, StepOk, StepIds;
    var names;
    names, errs := ValidateParams(app, tool.params);
    if |tool.steps| == 0 {
      errs := errs + ["empty_steps"];
    }
    var before := errs;
    var ids: set<string> := {};
    assert tool.steps[..0] == [];
    NoStepIds();
    for i := 0 to |tool.steps|
      invariant ids == StepIds(tool.steps[..i]) && "" !in ids
      invariant errs == [] <==>
                (before == [] &&
                 forall k | 0 <= k < i :: StepOk(app, names, StepIds(tool.steps[..k]), tool.steps[k]))
    {
      var bad := ValidateStep(app, names, ids, tool.steps[i]);
      errs := errs + bad;
      OneMoreStepId(tool.steps, i);
      if tool.steps[i].id != "" {
        ids := ids + {tool.steps[i].id};
      }
    }
  }

  lemma NoStepIds()
    ensures StepIds([]) == {}
  {
  }

  lemma OneMoreField(entities: seq<Entity>, fields: seq<Field>, i: nat)
    requires i < |fields|
    ensures CheckedFields(entities, fields[..i + 1]) <==>
            (CheckedFields(entities, fields[..i]) && CheckedColumn(entities, fields[i])
             && fields[i].id !in FieldIds(fields[..i]) && fields[i].name !in FieldNames(fields[..i]))
    ensures FieldIds(fields[..i + 1]) == FieldIds(fields[..i]) + {fields[i].id}
    ensures FieldNames(fields[..i + 1]) == FieldNames(fields[..i]) + {fields[i].name}
  {
    hide CheckedColumn;
    assert fields[..i + 1] == fields[..i] + [fields[i]];
  }

  method ValidateColumn(app: App, f: Field) returns (errs: seq<string>)
    ensures errs == [] <==> CheckedColumn(app.entities, f)
  {
    hide CheckedField, IsReserved;
    errs := [];
    if IsReserved(f.id) {
      errs := errs + ["reserved_id"];
    }
    if IsReserved(f.name) {
      errs := errs + ["reserved_name"];
    }
    var bad := ValidateField(app, f);
    errs := errs + bad;
  }

  method ValidateEntity(app: App, e: Entity) returns (errs: seq<string>)
    ensures errs == [] <==> CheckedEntity(app.entities, e)
  {
    hide CheckedColumn, CheckedFields;
    errs := [];
    var ids: set<string>, names: set<string> := {}, {};
    NoFields(app.entities);
    assert e.fields[..0] == [];
    for i := 0 to |e.fields|
      invariant ids == FieldIds(e.fields[..i]) && names == FieldNames(e.fields[..i])
      invariant errs == [] <==> CheckedFields(app.entities, e.fields[..i])
    {
      OneMoreField(app.entities, e.fields, i);
      var f := e.fields[i];
      if f.id in ids {
        errs := errs + ["duplicate_id"];
      }
      ids := ids + {f.id};
      if f.name in names {
        errs := errs + ["duplicate_name"];
      }
      names := names + {f.name};
      var bad := ValidateColumn(app, f);
      errs := errs + bad;
    }
    assert e.fields[..|e.fields|] == e.fields;
  }

  lemma NoFields(entities: seq<Entity>)
    ensures CheckedFields(entities, []) && FieldIds([]) == {} && FieldNames([]) == {}
  {
  }

  function EntityNames(entities: seq<Entity>): set<string> {
    set e | e in entities :: e.name
  }

  lemma OneMoreEntity(app: App, entities: seq<Entity>, i: nat)
    requires i < |entities|
    ensures EntitiesOk(app, entities[..i + 1]) <==>
            (EntitiesOk(app, entities[..i]) && CheckedEntity(app.entities, entities[i])
             && entities[i].id !in EntityIds(entities[..i]) && entities[i].name !in EntityNames(entities[..i]))
    ensures EntityIds(entities[..i + 1]) == EntityIds(entities[..i]) + {entities[i].id}
    ensures EntityNames(entities[..i + 1]) == EntityNames(entities[..i]) + {entities[i].name}
  {
    hide CheckedEntity;
    assert entities[..i + 1] == entities[..i] + [entities[i]];
  }

  lemma NoEntities(app: App)
    ensures EntitiesOk(app, []) && EntityIds([]) == {} && EntityNames([]) == {}
  {
  }

  function ToolIds(tools: seq<Tool>): set<string> {
    set t | t in tools :: t.id
  }

  function ToolNames(tools: seq<Tool>): set<string> {
    set t | t in tools :: t.name
  }

  lemma OneMoreTool(app: App, tools: seq<Tool>, i: nat)
    requires i < |tools|
    ensures ToolsOk(app, tools[..i + 1]) <==>
            (ToolsOk(app, tools[..i]) && ToolOk(app, tools[i])
             && tools[i].id !in ToolIds(tools[..i]) && tools[i].name !in ToolNames(tools[..i]))
    ensures ToolIds(tools[..i + 1]) == ToolIds(tools[..i]) + {tools[i].id}
    ensures ToolNames(tools[..i + 1]) == ToolNames(tools[..i]) + {tools[i].name}
  {
    hide ToolOk;
    assert tools[..i + 1] == tools[..i] + [tools[i]];
  }

  lemma NoTools(app: App)
    ensures ToolsOk(app, []) && ToolIds([]) == {} && ToolNames([]) == {}
  {
  }

  method ValidateEntities(app: App) returns (errs: seq<string>)
    ensures errs == [] <==> EntitiesOk(app, app.entities)
  {
    hide CheckedEntity, EntitiesOk;
    errs := [];
    var ids: set<string>, names: set<string> := {}, {};
    NoEntities(app);
    assert app.entities[..0] == [];
    for i := 0 to |app.entities|
      invariant ids == EntityIds(app.entities[..i]) && names == EntityNames(app.entities[..i])
      invariant errs == [] <==> EntitiesOk(app, app.entities[..i])
    {
      OneMoreEntity(app, app.entities, i);
      var e := app.entities[i];
      if e.id in ids {
        errs := errs + ["duplicate_id"];
      }
      ids := ids + {e.id};
      if e.name in names {
        errs := errs + ["duplicate_name"];
      }
      names := names + {e.name};
      var bad := ValidateEntity(app, e);
      errs := errs + bad;
    }
    assert app.entities[..|app.entities|] == app.entities;
  }

  /** semantic: every problem of the manifest, of which there are none exactly when it is valid. */
  method Semantic(app: App) returns (errs: seq<string>)
    ensures errs == [] <==> SemanticallyValid(app)
  {
    hide EntitiesOk, ToolOk, ToolsOk;
    NoTools(app);
    assert app.tools[..0] == [];
    errs := ValidateEntities(app);
    var before := errs;
    var ids: set<string>, names: set<string> := {}, {};
    for i := 0 to |app.tools|
      invariant ids == ToolIds(app.tools[..i]) && names == ToolNames(app.tools[..i])
      invariant errs == [] <==> before == [] && ToolsOk(app, app.tools[..i])
    {
      OneMoreTool(app, app.tools, i);
      var tool := app.tools[i];
      if tool.id in ids {
        errs := errs + ["duplicate_id"];
      }
      ids := ids + {tool.id};
      if tool.name in names {
        errs := errs + ["duplicate_name"];
      }
      names := names + {tool.name};
      var bad := ValidateTool(app, tool);
      errs := errs + bad;
    }
    assert app.tools[..|app.tools|] == app.tools;
  }
}

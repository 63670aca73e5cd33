/** Where the values of a tool run come from: its parameters, its literals and the results of earlier steps. */
module DataFlow {
  import opened Results
  import opened Schema
  import opened Sql
  import opened Materialize
  import opened Validation
  import opened RowCodec
  import opened Listing
  import opened DomainOps
  import opened DomainSound
  import opened Tools
  import opened ToolSound
  import opened FieldMeaning
  import opened SentValues
  import opened ListOrder
  import opened WriteOutcomes

  // ----- what a template names -----

  predicate IsLiteral(sv: Option<StepValue>, literal: Json) {
    sv.Some? && sv.value.ref == "" && sv.value.literal == literal
  }

  predicate IsParam(sv: Option<StepValue>, x: string) {
    sv.Some? && sv.value.ref == "params." + x
  }

  predicate IsStepField(sv: Option<StepValue>, step: string, field: string) {
    '.' !in step && sv.Some? && sv.value.ref == "steps." + step + "." + field
  }

  lemma {:induction false} CutAtDot(before: string, after: string)
    requires '.' !in before
    ensures Cut(before + "." + after) == (before, after)
  {
    var s := before + "." + after;
    if before == "" {
      assert s[1..] == after;
    } else {
      assert s[1..] == before[1..] + "." + after && s[0] == before[0] && before[0] in before;
      CutAtDot(before[1..], after);
      assert [before[0]] + before[1..] == before;
    }
  }

  lemma ParamRef(x: string)
    ensures Cut("params." + x) == ("params", x)
  {
    hide Cut;
    CutAtDot("params", x);
    assert "params" + "." + x == "params." + x;
  }

  lemma StepRef(step: string, field: string)
    requires '.' !in step
    ensures Cut("steps." + step + "." + field) == ("steps", step + "." + field)
    ensures Cut(step + "." + field) == (step, field)
  {
    hide Cut;
    CutAtDot("steps", step + "." + field);
    CutAtDot(step, field);
    assert "steps" + "." + (step + "." + field) == "steps." + step + "." + field;
  }

  /** What a template resolves to. */
  lemma TemplateResolves(sv: Option<StepValue>, params: GoRow, results: StepResults)
    requires Resolve(sv, params, results).Ok?
    ensures var raw := Resolve(sv, params, results).value;
            && (sv.None? ==> raw == JNull)
            && (forall literal | IsLiteral(sv, literal) :: raw == literal)
            && (forall x | IsParam(sv, x) :: x in params && raw == Marshal(params[x]))
            && (forall s, f | IsStepField(sv, s, f) :: s in results && f in results[s] && raw == Marshal(results[s][f]))
  {
    hide Cut, Marshal;
    forall x | IsParam(sv, x) {
      ParamRef(x);
    }
    forall s, f | IsStepField(sv, s, f) {
      StepRef(s, f);
    }
  }

  // ----- a value put into a field -----

  /** What a field holds once the value is put into it: the same value, or the same in the field's type. */
  predicate Carries(env: Env, f: Field, v: GoValue, w: GoValue) {
    match v
    case Nil => w.Nil?
    case Bool(_) => f.typ.Boolean? && w == v
    case Int(i) => (f.typ.Integer? && w == v) || (f.typ.Real? && w == Float(i as real))
    case Float(r) => (f.typ.Real? && w == v) || (f.typ.Integer? && w.Int? && w.i as real == r)
    case Str(s) => (
      match f.typ
      case Datetime => w.Str? && env.p.canonical(s) == Some(w.s)
      case Integer => w.Int? && env.quoted(s) == Some(Whole(w.i))
      case Real => w.Float? && (env.quoted(s) == Some(Fraction(w.r)) || (w.r == w.r.Floor as real && env.quoted(s) == Some(Whole(w.r.Floor))))
      case Boolean => false
      case _ => w == v)
    case Rows(_) => false
  }

  /** Through JSON and coercion, a value arrives as itself. */
  lemma MarshalledArrives(env: Env, db: Db, app: App, f: Field, v: GoValue, w: GoValue)
    requires Takes(env, db, app, f, Marshal(v), w)
    ensures Carries(env, f, v, w)
  {
  }

  /** The field holds what the template names. */
  ghost predicate Lands(env: Env, f: Field, sv: Option<StepValue>, params: GoRow, results: StepResults, w: GoValue) {
    && (sv.None? ==> w.Nil?)
    && (sv.Some? && sv.value.ref == "" ==> if sv.value.literal.JNull? then w.Nil? else Sends(env, f, sv.value.literal, w))
    && (forall x | IsParam(sv, x) :: x in params && Carries(env, f, params[x], w))
    && (forall s, g | IsStepField(sv, s, g) :: s in results && g in results[s] && Carries(env, f, results[s][g], w))
  }

  lemma TemplateLands(env: Env, db: Db, app: App, f: Field, sv: Option<StepValue>, params: GoRow, results: StepResults, w: GoValue)
    requires Resolve(sv, params, results).Ok? && Takes(env, db, app, f, Resolve(sv, params, results).value, w)
    ensures Lands(env, f, sv, params, results, w)
  {
    hide Resolve, Marshal, Sends, Meets, Resolves, Carries, Takes;
    TemplateResolves(sv, params, results);
    TakenIsSent(env, db, app, f, Resolve(sv, params, results).value, w);
    if sv.Some? && sv.value.ref == "" {
      assert IsLiteral(sv, sv.value.literal);
    }
    forall x | IsParam(sv, x) ensures x in params && Carries(env, f, params[x], w) {
      MarshalledArrives(env, db, app, f, params[x], w);
    }
    forall s, g | IsStepField(sv, s, g) ensures s in results && g in results[s] && Carries(env, f, results[s][g], w) {
      MarshalledArrives(env, db, app, f, results[s][g], w);
    }
  }

  lemma TakenIsSent(env: Env, db: Db, app: App, f: Field, raw: Json, w: GoValue)
    requires Takes(env, db, app, f, raw, w)
    ensures if raw.JNull? then w.Nil? else Sends(env, f, raw, w)
  {
  }

  // ----- the row a step names -----

  /** The id is the string the template names; null names the empty id. */
  ghost predicate Names(sv: Option<StepValue>, params: GoRow, results: StepResults, id: string) {
    && (sv.None? ==> id == "")
    && (sv.Some? && sv.value.ref == "" ==> sv.value.literal == JString(id) || (sv.value.literal.JNull? && id == ""))
    && (forall x | IsParam(sv, x) :: x in params && IsId(params[x], id))
    && (forall s, g | IsStepField(sv, s, g) :: s in results && g in results[s] && IsId(results[s][g], id))
  }

  predicate IsId(v: GoValue, id: string) {
    v == Str(id) || (v.Nil? && id == "")
  }

  lemma IdIsNamed(sv: Option<StepValue>, params: GoRow, results: StepResults)
    requires ResolveId(sv, params, results).Ok?
    ensures Names(sv, params, results, ResolveId(sv, params, results).value)
  {
    hide Resolve;
    TemplateResolves(sv, params, results);
    if sv.Some? && sv.value.ref == "" {
      assert IsLiteral(sv, sv.value.literal);
    }
  }

  /** The template names a literal, a parameter the call has, or a field that the results have. */
  ghost predicate Available(sv: Option<StepValue>, params: GoRow, results: StepResults, v: GoValue) {
    || (exists x :: IsParam(sv, x) && x in params && params[x] == v)
    || (exists s, f :: IsStepField(sv, s, f) && s in results && f in results[s] && results[s][f] == v)
  }

  lemma AvailableResolves(sv: Option<StepValue>, params: GoRow, results: StepResults, v: GoValue)
    requires Available(sv, params, results, v)
    ensures Resolve(sv, params, results) == Ok(Marshal(v))
  {
    hide Cut, Marshal;
    if x :| IsParam(sv, x) && x in params && params[x] == v {
      ParamRef(x);
    } else {
      var s, f :| IsStepField(sv, s, f) && s in results && f in results[s] && results[s][f] == v;
      StepRef(s, f);
    }
  }

  /**
   * A template whose value is at hand always resolves: to be set, whatever it is; to name a row, if
   * it is a string or null; to be compared with, whatever it is. So does a literal.
   */
  lemma AvailableIsUsable(sv: Option<StepValue>, params: GoRow, results: StepResults, name: string)
    ensures forall v | Available(sv, params, results, v) ::
              && SetIssues(map[name := sv], params, results) == {} && FilterIssues(map[name := sv], params, results) == {}
              && (ResolveId(sv, params, results).Ok? <==> v.Str? || v.Nil?)
    ensures sv.None? || sv.value.ref == "" ==>
              && SetIssues(map[name := sv], params, results) == {}
              && (FilterIssues(map[name := sv], params, results) == {} <==> sv.None? || !sv.value.literal.JEmpty?)
              && (ResolveId(sv, params, results).Ok? <==> sv.None? || sv.value.literal.JString? || sv.value.literal.JNull?)
  {
    hide Resolve, Available;
    OneTemplate(sv, params, results, name);
    forall v | Available(sv, params, results, v)
      ensures SetIssues(map[name := sv], params, results) == {} && FilterIssues(map[name := sv], params, results) == {}
      ensures ResolveId(sv, params, results).Ok? <==> v.Str? || v.Nil?
    {
      AvailableResolves(sv, params, results, v);
      MarshalledCompares(v);
    }
    if sv.None? || sv.value.ref == "" {
      LiteralResolves(sv, params, results);
    }
  }

  lemma LiteralResolves(sv: Option<StepValue>, params: GoRow, results: StepResults)
    requires sv.None? || sv.value.ref == ""
    ensures Resolve(sv, params, results) == Ok(if sv.None? then JNull else sv.value.literal)
  {
  }

  lemma OneTemplate(sv: Option<StepValue>, params: GoRow, results: StepResults, name: string)
    ensures SetIssues(map[name := sv], params, results) == {} <==> Resolve(sv, params, results).Ok?
    ensures FilterIssues(map[name := sv], params, results) == {} <==> ResolveFilter(sv, params, results).Ok?
  {
    hide Resolve, ResolveFilter;
    var none: map<string, Option<StepValue>> := map[];
    OneMoreIssue(none, name, sv, params, results);
    OneMoreFilter(none, name, sv, params, results);
    NoFilters(params, results);
    assert none[name := sv] == map[name := sv];
    assert SetIssues(none, params, results) == {};
    assert FilterIssues(none, params, results) == {} by { NoIssues([]); }
  }

  // ----- steps that write -----

  lemma BodyOfSet(values: map<string, Option<StepValue>>, params: GoRow, results: StepResults)
    requires SetIssues(values, params, results) == {}
    ensures var body := SetBody(values, params, results);
            && body.Keys == values.Keys
            && forall name | name in values :: Resolve(values[name], params, results) == Ok(body[name])
  {
    hide Resolve;
    forall name | name in values ensures Resolve(values[name], params, results).Ok? {
      if Resolve(values[name], params, results).Err? {
        IssueOfName(values, params, results, name);
      }
    }
  }

  lemma IssueOfName(values: map<string, Option<StepValue>>, params: GoRow, results: StepResults, name: string)
    requires name in values && Resolve(values[name], params, results).Err?
    ensures SetIssues(values, params, results) != {}
  {
    assert Issue(name, Resolve(values[name], params, results).error) in SetIssues(values, params, results);
  }

  /** A create step's new row: filled from the templates, and every other field with its default or null. */
  ghost predicate Fills(env: Env, db: Db, after: Db, app: App, e: Entity, step: ToolStep, params: GoRow, results: StepResults, stamp: Stamp, reply: GoRow) {
    && OnlyRow(db, after, e.id, stamp.id) && stamp.id !in db.tables[e.id].rows && Got(after, e, stamp.id) == Ok(reply)
    && reply.Keys == FieldNames(e.fields) + PlatformColumns() && reply["id"] == Str(stamp.id)
    && forall f | f in e.fields ::
         f.name in reply &&
         if f.name in step.set_ then Lands(env, f, step.set_[f.name], params, results, reply[f.name])
         else Initial(env, db, app, f, map[], reply[f.name])
  }

  lemma CreateStepFills(env: Env, db: Db, app: App, e: Entity, step: ToolStep, params: GoRow, results: StepResults, stamp: Stamp)
    requires ValidEntity(app.entities, e) && step.op.Create? && StepRun(env, db, app, e, step, params, results, stamp).1.Ok?
    ensures var (after, r) := StepRun(env, db, app, e, step, params, results, stamp);
            Fills(env, db, after, app, e, step, params, results, stamp, r.value)
  {
    hide Resolve, Created, Lands, Takes, SetIssues, SetBody, FieldNames, ValidEntity, Got, OnlyRow;
    var body := SetBody(step.set_, params, results);
    BodyOfSet(step.set_, params, results);
    CreateKeepsWhatWasSent(env, db, app, e, body, stamp);
    var r := StepRun(env, db, app, e, step, params, results, stamp).1.value;
    forall f | f in e.fields
      ensures f.name in r
      ensures f.name in step.set_ ==> Lands(env, f, step.set_[f.name], params, results, r[f.name])
      ensures f.name !in step.set_ ==> Initial(env, db, app, f, map[], r[f.name])
    {
      if f.name in step.set_ {
        TemplateLands(env, db, app, f, step.set_[f.name], params, results, r[f.name]);
      }
    }
  }

  /** An update step's row is the one its template names; the fields it sets change, and no other. */
  ghost predicate Changes(env: Env, db: Db, after: Db, e: Entity, step: ToolStep, params: GoRow, results: StepResults, reply: GoRow) {
    && "id" in reply && reply["id"].Str?
    && var id := reply["id"].s;
    && Names(step.rowId, params, results, id)
    && OnlyRow(db, after, e.id, id) && Got(after, e, id) == Ok(reply) && Got(db, e, id).Ok?
    && var was := Got(db, e, id).value;
    && "created_at" in was && "created_at" in reply && reply["created_at"] == was["created_at"]
    && forall f | f in e.fields ::
         f.name in reply && f.name in was &&
         if f.name in step.set_ then Lands(env, f, step.set_[f.name], params, results, reply[f.name])
         else reply[f.name] == was[f.name]
  }

  lemma UpdateStepChanges(env: Env, db: Db, app: App, e: Entity, step: ToolStep, params: GoRow, results: StepResults, stamp: Stamp)
    requires ValidApp(app) && e in app.entities && Sound(env.p, db, app)
    requires step.op.Update? && StepRun(env, db, app, e, step, params, results, stamp).1.Ok?
    ensures var (after, r) := StepRun(env, db, app, e, step, params, results, stamp);
            Changes(env, db, after, e, step, params, results, r.value)
  {
    hide Resolve, ResolveId, Updated, Lands, Names, Takes, SetIssues, SetBody, FieldNames, ValidEntity, OnlyRow, Sound;
    var id := ResolveId(step.rowId, params, results).value;
    var body := SetBody(step.set_, params, results);
    IdIsNamed(step.rowId, params, results);
    BodyOfSet(step.set_, params, results);
    UpdatedNeedsRow(env, db, app, e, id, body, stamp);
    CellsOfFields(env.p, db, app, e, id);
    UpdateKeepsWhatWasSent(env, db, app, e, id, body, stamp);
    var r := StepRun(env, db, app, e, step, params, results, stamp).1.value;
    forall f | f in e.fields && f.name in step.set_
      ensures f.name in r && Lands(env, f, step.set_[f.name], params, results, r[f.name])
    {
      TemplateLands(env, db, app, f, step.set_[f.name], params, results, r[f.name]);
    }
  }

  lemma UpdatedNeedsRow(env: Env, db: Db, app: App, e: Entity, id: string, body: map<string, Json>, stamp: Stamp)
    requires Updated(env, db, app, e, id, body, stamp).1.Ok?
    ensures e.id in db.tables && id in db.tables[e.id].rows
  {
    hide FieldValues, WriteFault, ReadRow, UpdatedCells;
  }

  /** A step that reads or deletes a row names it by its template. */
  ghost predicate Reaches(env: Env, db: Db, after: Db, e: Entity, step: ToolStep, params: GoRow, results: StepResults, reply: GoRow) {
    && "id" in reply && reply["id"].Str?
    && var id := reply["id"].s;
    && Names(step.rowId, params, results, id) && Got(db, e, id).Ok?
    && (step.op.Read? ==> after == db && Got(db, e, id) == Ok(reply))
    && (step.op.Delete? ==> env.deleted(db, e.id, id) == Ok(after))
  }

  lemma RowStepReaches(env: Env, db: Db, app: App, e: Entity, step: ToolStep, params: GoRow, results: StepResults, stamp: Stamp)
    requires NamedFields(e) && (step.op.Read? || step.op.Delete?) && StepRun(env, db, app, e, step, params, results, stamp).1.Ok?
    ensures var (after, r) := StepRun(env, db, app, e, step, params, results, stamp);
            Reaches(env, db, after, e, step, params, results, r.value)
  {
    hide Resolve, ResolveId, Names, ReadRow;
    var id := ResolveId(step.rowId, params, results).value;
    IdIsNamed(step.rowId, params, results);
    PlatformReads(e, id, db.tables[e.id].rows[id]);
  }

  // ----- steps that list -----

  /** The value a filter compares with. */
  ghost predicate Compares(sv: Option<StepValue>, params: GoRow, results: StepResults, v: GoValue) {
    && (sv.None? ==> v.Nil?)
    && (sv.Some? && sv.value.ref == "" ==> IsJson(sv.value.literal, v))
    && (forall x | IsParam(sv, x) :: x in params && (Alike(params[x], v) || params[x].Rows?))
    && (forall s, g | IsStepField(sv, s, g) :: s in results && g in results[s] && (Alike(results[s][g], v) || results[s][g].Rows?))
  }

  predicate IsJson(raw: Json, v: GoValue) {
    match raw
    case JNull => v.Nil?
    case JBool(b) => v == Bool(b)
    case JNumber(Whole(i)) => v == Float(i as real)
    case JNumber(Fraction(r)) => v == Float(r)
    case JString(s) => v == Str(s)
    case _ => v.Rows?
  }

  lemma MarshalledCompares(v: GoValue)
    ensures Unmarshal(Marshal(v)).Ok? && (Alike(v, Unmarshal(Marshal(v)).value) || v.Rows?)
  {
  }

  lemma FilterCompares(sv: Option<StepValue>, params: GoRow, results: StepResults)
    requires ResolveFilter(sv, params, results).Ok?
    ensures Compares(sv, params, results, ResolveFilter(sv, params, results).value)
  {
    hide Resolve, Marshal, Alike;
    TemplateResolves(sv, params, results);
    if sv.Some? && sv.value.ref == "" {
      assert IsLiteral(sv, sv.value.literal);
    }
    forall v {
      MarshalledCompares(v);
    }
  }

  /** The rows that read as these values, in ascending order of id: how many there are, and the first fifty. */
  ghost predicate Answers(e: Entity, rows: map<string, Row>, values: GoRow, reply: GoRow) {
    exists full: seq<Entry> :: IsAnswer(e, rows, values, full, reply)
  }

  predicate ReadsLike(e: Entity, id: string, row: Row, name: string, v: GoValue) {
    name in ReadRow(e, id, row) && !v.Nil? && !ReadRow(e, id, row)[name].Nil?
    && !Precedes(ReadRow(e, id, row)[name], v) && !Precedes(v, ReadRow(e, id, row)[name])
  }

  predicate IsAnswer(e: Entity, rows: map<string, Row>, values: GoRow, full: seq<Entry>, reply: GoRow) {
    && (forall i, j | 0 <= i < j < |full| :: TextBefore(full[i].id, full[j].id))
    && (forall x | x in full :: x.id in rows && rows[x.id] == x.row)
    && (forall id | id in rows ::
          Entry(id, rows[id]) in full <==> forall name | name in values :: ReadsLike(e, id, rows[id], name, values[name]))
    && reply.Keys == {"rows", "total"} && reply["total"] == Int(|full|)
    && reply["rows"] == Rows(ReadAll(e, if |full| <= 50 then full else full[..50]))
  }

  lemma FirstPage<T>(xs: seq<T>)
    ensures Page(xs, DEFAULT_LIMIT, 0) == if |xs| <= 50 then xs else xs[..50]
  {
  }

  function EqFilters(values: GoRow): set<Filter> {
    set name | name in values :: Filter(name, Eq, values[name])
  }

  lemma ListedAnswers(env: Env, db: Db, app: App, e: Entity, values: GoRow)
    requires ValidApp(app) && e in app.entities && Sound(env.p, db, app) && FaithfulScans(env)
    requires forall name | name in values :: Known(e, name) && Comparable(e, Filter(name, Eq, values[name]))
    requires Listed(env, db, e, EqFilters(values)).Ok?
    ensures e.id in db.tables && Answers(e, db.tables[e.id].rows, values, Listed(env, db, e, EqFilters(values)).value)
  {
    hide Sound, ValidApp, NamedFields, AllReadable, Known, Comparable, FullList, ReadRow, RowOk, Lists, ReadAll, Page, Precedes, Columns;
    TableOf(env.p, db, app, e);
    SoundIsReadable(env.p, db, app, e);
    ValidMember(app, e);
    var rows, stored, filters := db.tables[e.id].rows, env.scan(db, e.id), EqFilters(values);
    assert Lists(stored, rows);
    TableIsTabled(env.p, e, stored, db.tables[e.id]);
    var full := FullList(env.p, env.like, e, filters, [], stored);
    ListHoldsWhatFiltersAdmit(env.p, env.like, e, filters, [], stored, rows);
    forall i, j | 0 <= i < j < |full| ensures TextBefore(full[i].id, full[j].id) {
      ListIsInRequestedOrder(env.p, env.like, e, filters, [], stored, rows, i, j);
      IdsInOrder(e, full, i, j);
    }
    forall id | id in rows
      ensures Entry(id, rows[id]) in full <==> forall name | name in values :: ReadsLike(e, id, rows[id], name, values[name])
    {
      EqAdmits(env.p, env.like, e, id, rows[id], values);
    }
    FirstPage(full);
    assert IsAnswer(e, rows, values, full, Listed(env, db, e, filters).value);
  }

  lemma IdsInOrder(e: Entity, full: seq<Entry>, i: nat, j: nat)
    requires NamedFields(e) && i < j < |full|
    requires var read := ReadAll(e, full); Sortable([], read[i]) && Sortable([], read[j]) && ComesFirst([], read[i], read[j])
    ensures TextBefore(full[i].id, full[j].id)
  {
    hide ReadRow, TextBefore;
    PlatformReads(e, full[i].id, full[i].row);
    PlatformReads(e, full[j].id, full[j].row);
  }

  lemma TableIsTabled(p: Platform, e: Entity, stored: seq<Entry>, t: Table)
    requires Lists(stored, t.rows) && TableOk(p, t) && t.cols == Columns(e.fields)
    ensures Tabled(p, e, stored, t.rows)
  {
    hide RowOk, Lists, Columns;
  }

  lemma EqAdmits(p: Platform, like: (Value, Value) -> bool, e: Entity, id: string, row: Row, values: GoRow)
    ensures (forall f | f in EqFilters(values) :: f.column in ReadRow(e, id, row) && Admits(p, like, e, f, ReadRow(e, id, row)))
            <==> forall name | name in values :: ReadsLike(e, id, row, name, values[name])
  {
    hide ReadRow, Precedes;
    forall name | name in values ensures Filter(name, Eq, values[name]) in EqFilters(values) {
    }
    if forall f | f in EqFilters(values) :: f.column in ReadRow(e, id, row) && Admits(p, like, e, f, ReadRow(e, id, row)) {
      forall name | name in values ensures ReadsLike(e, id, row, name, values[name]) {
        assert Filter(name, Eq, values[name]) in EqFilters(values);
      }
    }
  }

  /** A scan of a table lists its rows, in some order. */
  ghost predicate FaithfulScans(env: Env) {
    forall db: Db, t | t in db.tables :: Lists(env.scan(db, t), db.tables[t].rows)
  }

  lemma FiltersOfStep(values: map<string, Option<StepValue>>, params: GoRow, results: StepResults)
    requires FilterIssues(values, params, results) == {}
    ensures forall name | name in values :: ResolveFilter(values[name], params, results).Ok?
    ensures Filters(values, params, results) == EqFilters(FilterValues(values, params, results))
  {
    hide ResolveFilter;
    forall name | name in values ensures ResolveFilter(values[name], params, results).Ok? {
      if ResolveFilter(values[name], params, results).Err? {
        FilterIssueOfName(values, params, results, name);
      }
    }
    var vs := FilterValues(values, params, results);
    forall x | x in Filters(values, params, results) ensures x in EqFilters(vs) {
      assert x.column in vs;
    }
    forall x | x in EqFilters(vs) ensures x in Filters(values, params, results) {
      assert x.column in values;
    }
  }

  lemma FilterIssueOfName(values: map<string, Option<StepValue>>, params: GoRow, results: StepResults, name: string)
    requires name in values && ResolveFilter(values[name], params, results).Err?
    ensures FilterIssues(values, params, results) != {}
  {
    assert Issue(name, ResolveFilter(values[name], params, results).error) in FilterIssues(values, params, results);
  }

  function FilterValues(values: map<string, Option<StepValue>>, params: GoRow, results: StepResults): GoRow {
    map name | name in values && ResolveFilter(values[name], params, results).Ok? :: ResolveFilter(values[name], params, results).value
  }

  /**
   * A list step changes nothing and answers with the rows that read like the values its templates
   * name, as long as each is of its column's kind.
   */
  ghost predicate Finds(db: Db, after: Db, e: Entity, step: ToolStep, params: GoRow, results: StepResults, reply: GoRow) {
    after == db && e.id in db.tables &&
    exists values: GoRow | values.Keys == step.filter.Keys ::
      && (forall name | name in values :: Compares(step.filter[name], params, results, values[name]))
      && ((forall name | name in values :: Comparable(e, Filter(name, Eq, values[name]))) ==>
            Answers(e, db.tables[e.id].rows, values, reply))
  }

  lemma ListStepFinds(env: Env, db: Db, app: App, e: Entity, step: ToolStep, params: GoRow, results: StepResults, stamp: Stamp)
    requires ValidApp(app) && e in app.entities && Sound(env.p, db, app) && FaithfulScans(env)
    requires step.op.List? && (forall name | name in step.filter :: Known(e, name))
    requires StepRun(env, db, app, e, step, params, results, stamp).1.Ok?
    ensures var (after, r) := StepRun(env, db, app, e, step, params, results, stamp);
            Finds(db, after, e, step, params, results, r.value)
  {
    hide ResolveFilter, Compares, Comparable, Answers, Sound, ValidApp, FaithfulScans, Known, Listed, Filters, FilterIssues;
    TableOf(env.p, db, app, e);
    FiltersOfStep(step.filter, params, results);
    var values := FilterValues(step.filter, params, results);
    assert values.Keys == step.filter.Keys;
    forall name | name in values ensures Compares(step.filter[name], params, results, values[name]) {
      FilterCompares(step.filter[name], params, results);
    }
    if forall name | name in values :: Comparable(e, Filter(name, Eq, values[name])) {
      ListedAnswers(env, db, app, e, values);
    }
  }

  // ----- one step of a run -----

  /** What a step that succeeds does and answers, in terms of its templates. */
  ghost predicate StepDoes(env: Env, db: Db, after: Db, app: App, e: Entity, step: ToolStep, params: GoRow, results: StepResults, stamp: Stamp, reply: GoRow) {
    match step.op
    case Create => Fills(env, db, after, app, e, step, params, results, stamp, reply)
    case Update => Changes(env, db, after, e, step, params, results, reply)
    case List => Finds(db, after, e, step, params, results, reply)
    case _ => Reaches(env, db, after, e, step, params, results, reply)
  }

  lemma SuccessfulStepDoes(env: Env, db: Db, app: App, e: Entity, step: ToolStep, params: GoRow, results: StepResults, stamp: Stamp)
    requires ValidApp(app) && EntityById(app.entities, step.entity) == Some(e) && Sound(env.p, db, app) && FaithfulScans(env)
    requires NamesResolve(app, step) && StepRun(env, db, app, e, step, params, results, stamp).1.Ok?
    ensures var (after, r) := StepRun(env, db, app, e, step, params, results, stamp);
            StepDoes(env, db, after, app, e, step, params, results, stamp, r.value)
  {
    hide Sound, ValidEntity, FaithfulScans, StepRun, Fills, Changes, Finds, Reaches, NamedFields;
    ValidMember(app, e);
    match step.op {
      case Create => CreateStepFills(env, db, app, e, step, params, results, stamp);
      case Update => UpdateStepChanges(env, db, app, e, step, params, results, stamp);
      case List =>
        forall name | name in step.filter ensures Known(e, name) {
          NamedOrReserved(e, name);
        }
        ListStepFinds(env, db, app, e, step, params, results, stamp);
      case _ => RowStepReaches(env, db, app, e, step, params, results, stamp);
    }
  }

  lemma NamedOrReserved(e: Entity, name: string)
    requires IsReserved(name) || FieldByName(e.fields, name).Some?
    ensures Known(e, name)
  {
  }

  // ----- later results -----

  /** More results may be at hand, but these are among them. */
  predicate Among(a: StepResults, b: StepResults) {
    forall s | s in a :: s in b && b[s] == a[s]
  }

  lemma LandsAmong(env: Env, f: Field, sv: Option<StepValue>, params: GoRow, a: StepResults, b: StepResults, w: GoValue)
    requires Among(a, b) && Lands(env, f, sv, params, a, w)
    ensures Lands(env, f, sv, params, b, w)
  {
    hide Carries, Sends, IsParam, IsStepField;
  }

  lemma NamesAmong(sv: Option<StepValue>, params: GoRow, a: StepResults, b: StepResults, id: string)
    requires Among(a, b) && Names(sv, params, a, id)
    ensures Names(sv, params, b, id)
  {
    hide IsParam, IsStepField, IsId;
  }

  lemma ComparesAmong(sv: Option<StepValue>, params: GoRow, a: StepResults, b: StepResults, v: GoValue)
    requires Among(a, b) && Compares(sv, params, a, v)
    ensures Compares(sv, params, b, v)
  {
    hide IsParam, IsStepField, Alike, IsJson;
  }

  lemma FillsAmong(env: Env, db: Db, after: Db, app: App, e: Entity, step: ToolStep, params: GoRow, a: StepResults, b: StepResults, stamp: Stamp, reply: GoRow)
    requires Among(a, b) && Fills(env, db, after, app, e, step, params, a, stamp, reply)
    ensures Fills(env, db, after, app, e, step, params, b, stamp, reply)
  {
    hide Among, Lands, Initial, OnlyRow, Got, FieldNames;
    forall f | f in e.fields && f.name in step.set_ {
      LandsAmong(env, f, step.set_[f.name], params, a, b, reply[f.name]);
    }
  }

  lemma ChangesAmong(env: Env, db: Db, after: Db, e: Entity, step: ToolStep, params: GoRow, a: StepResults, b: StepResults, reply: GoRow)
    requires Among(a, b) && Changes(env, db, after, e, step, params, a, reply)
    ensures Changes(env, db, after, e, step, params, b, reply)
  {
    hide Among, Lands, Names, OnlyRow, Got;
    NamesAmong(step.rowId, params, a, b, reply["id"].s);
    forall f | f in e.fields && f.name in step.set_ {
      LandsAmong(env, f, step.set_[f.name], params, a, b, reply[f.name]);
    }
  }

  lemma ReachesAmong(env: Env, db: Db, after: Db, e: Entity, step: ToolStep, params: GoRow, a: StepResults, b: StepResults, reply: GoRow)
    requires Among(a, b) && Reaches(env, db, after, e, step, params, a, reply)
    ensures Reaches(env, db, after, e, step, params, b, reply)
  {
    hide Among, Names, Got;
    NamesAmong(step.rowId, params, a, b, reply["id"].s);
  }

  lemma FindsAmong(db: Db, after: Db, e: Entity, step: ToolStep, params: GoRow, a: StepResults, b: StepResults, reply: GoRow)
    requires Among(a, b) && Finds(db, after, e, step, params, a, reply)
    ensures Finds(db, after, e, step, params, b, reply)
  {
    hide Among, Compares, Answers, Comparable;
    var values: GoRow :| values.Keys == step.filter.Keys
      && (forall name | name in values :: Compares(step.filter[name], params, a, values[name]))
      && ((forall name | name in values :: Comparable(e, Filter(name, Eq, values[name]))) ==>
            Answers(e, db.tables[e.id].rows, values, reply));
    forall name | name in values ensures Compares(step.filter[name], params, b, values[name]) {
      ComparesAmong(step.filter[name], params, a, b, values[name]);
    }
  }

  /** What a step did in terms of the results it saw, it did in terms of the run's. */
  lemma StepDoesAmong(env: Env, db: Db, after: Db, app: App, e: Entity, step: ToolStep, params: GoRow, a: StepResults, b: StepResults, stamp: Stamp, reply: GoRow)
    requires Among(a, b) && StepDoes(env, db, after, app, e, step, params, a, stamp, reply)
    ensures StepDoes(env, db, after, app, e, step, params, b, stamp, reply)
  {
    hide Among, Fills, Changes, Reaches, Finds;
    match step.op {
      case Create => FillsAmong(env, db, after, app, e, step, params, a, b, stamp, reply);
      case Update => ChangesAmong(env, db, after, e, step, params, a, b, reply);
      case List => FindsAmong(db, after, e, step, params, a, b, reply);
      case _ => ReachesAmong(env, db, after, e, step, params, a, b, reply);
    }
  }

  // ----- a whole run -----

  /** The run up to the end of its first `j` steps. */
  function UpTo(env: Env, db: Db, app: App, steps: seq<ToolStep>, params: GoRow, stamps: nat -> Stamp, j: nat): Result<Progress, StepFailure>
    requires j <= |steps|
  {
    StepsRun(env, db, app, steps[..j], params, stamps)
  }

  lemma {:induction false} PrefixRuns(env: Env, db: Db, app: App, steps: seq<ToolStep>, params: GoRow, stamps: nat -> Stamp, j: nat)
    requires StepsCheck(app, params.Keys, steps) && j <= |steps| && StepsRun(env, db, app, steps, params, stamps).Ok?
    ensures StepsCheck(app, params.Keys, steps[..j])
    ensures UpTo(env, db, app, steps, params, stamps, j).Ok?
    ensures Among(UpTo(env, db, app, steps, params, stamps, j).value.results, StepsRun(env, db, app, steps, params, stamps).value.results)
  {
    hide StepRun, StepOk, StepsCheck;
    if j == |steps| {
      assert steps[..j] == steps;
    } else {
      var n := |steps| - 1;
      PrefixChecks(app, params.Keys, steps);
      PrefixRuns(env, db, app, steps[..n], params, stamps, j);
      assert steps[..n][..j] == steps[..j];
      ResultsGrow(env, db, app, steps, params, stamps);
      LastIdIsNew(env, db, app, steps, params, stamps);
    }
  }

  lemma LastIdIsNew(env: Env, db: Db, app: App, steps: seq<ToolStep>, params: GoRow, stamps: nat -> Stamp)
    requires StepsCheck(app, params.Keys, steps) && steps != [] && StepsRun(env, db, app, steps[..|steps| - 1], params, stamps).Ok?
    ensures steps[|steps| - 1].id !in StepsRun(env, db, app, steps[..|steps| - 1], params, stamps).value.results
  {
    hide StepsRun, EntityAllows, PartsMatchOp, NamesResolve, StepRefsOk;
    PrefixChecks(app, params.Keys, steps);
    CheckedStepsResolve(env, db, app, steps[..|steps| - 1], params, stamps);
  }

  lemma RunStaysSound(env: Env, db: Db, app: App, steps: seq<ToolStep>, params: GoRow, stamps: nat -> Stamp)
    requires ValidApp(app) && FaithfulDeletes(env) && Sound(env.p, db, app)
    requires StepsCheck(app, params.Keys, steps) && StepsRun(env, db, app, steps, params, stamps).Ok?
    ensures Sound(env.p, StepsRun(env, db, app, steps, params, stamps).value.db, app)
  {
    hide Sound, ValidApp, FaithfulDeletes, StepsRun, RunCalls, RowRun, StepsCheck;
    StepsAreTheirCalls(env, db, app, steps, params, stamps);
    CallsArePermitted(env, db, app, steps, params, stamps);
    RowsStaySound(env, db, app, RunCalls(env, db, app, steps, params, stamps));
  }

  /** The last step of a run, from where the run stood. */
  lemma LastStep(env: Env, db: Db, app: App, steps: seq<ToolStep>, params: GoRow, stamps: nat -> Stamp)
    requires ValidApp(app) && FaithfulDeletes(env) && FaithfulScans(env) && Sound(env.p, db, app)
    requires StepsCheck(app, params.Keys, steps) && steps != [] && StepsRun(env, db, app, steps, params, stamps).Ok?
    ensures var n, at := |steps| - 1, StepsRun(env, db, app, steps, params, stamps).value;
            && UpTo(env, db, app, steps, params, stamps, n).Ok?
            && var before := UpTo(env, db, app, steps, params, stamps, n).value;
            && EntityById(app.entities, steps[n].entity).Some?
            && StepDoes(env, before.db, at.db, app, EntityById(app.entities, steps[n].entity).value, steps[n], params, before.results, stamps(n), at.last)
            && (steps[n].id != "" ==> steps[n].id in at.results && at.results[steps[n].id] == at.last)
  {
    hide Sound, ValidApp, FaithfulDeletes, FaithfulScans, StepRun, StepDoes, EntityAllows, PartsMatchOp, NamesResolve, StepRefsOk;
    var n := |steps| - 1;
    var before := StepsRun(env, db, app, steps[..n], params, stamps).value;
    PrefixChecks(app, params.Keys, steps);
    RunStaysSound(env, db, app, steps[..n], params, stamps);
    var e := EntityById(app.entities, steps[n].entity).value;
    assert StepOk(app, params.Keys, StepIds(steps[..n]), steps[n]);
    SuccessfulStepDoes(env, before.db, app, e, steps[n], params, before.results, stamps(n));
  }

  /**
   * Where the values of a run come from. Every step of a run that succeeds does what its templates
   * say, each of them standing for the call's parameter, its own literal, or what the run reports
   * for the earlier step; and what the run reports for a step is what that step answered.
   */
  lemma RunFlows(env: Env, db: Db, app: App, steps: seq<ToolStep>, params: GoRow, stamps: nat -> Stamp, j: nat)
    requires ValidApp(app) && FaithfulDeletes(env) && FaithfulScans(env) && Sound(env.p, db, app)
    requires StepsCheck(app, params.Keys, steps) && j < |steps| && StepsRun(env, db, app, steps, params, stamps).Ok?
    ensures UpTo(env, db, app, steps, params, stamps, j).Ok? && UpTo(env, db, app, steps, params, stamps, j + 1).Ok?
    ensures var before, at, end := UpTo(env, db, app, steps, params, stamps, j).value, UpTo(env, db, app, steps, params, stamps, j + 1).value,
                                   StepsRun(env, db, app, steps, params, stamps).value;
            && EntityById(app.entities, steps[j].entity).Some?
            && StepDoes(env, before.db, at.db, app, EntityById(app.entities, steps[j].entity).value, steps[j], params, end.results, stamps(j), at.last)
            && (steps[j].id != "" ==> steps[j].id in end.results && end.results[steps[j].id] == at.last)
            && (j == 0 ==> before.db == db) && (j + 1 == |steps| ==> at == end)
  {
    hide Sound, ValidApp, FaithfulDeletes, FaithfulScans, StepRun, StepDoes, StepsCheck, NextStep;
    PrefixRuns(env, db, app, steps, params, stamps, j);
    PrefixRuns(env, db, app, steps, params, stamps, j + 1);
    var first := steps[..j + 1];
    assert first[..j] == steps[..j] && first[j] == steps[j];
    LastStep(env, db, app, first, params, stamps);
    var before, at, end := UpTo(env, db, app, steps, params, stamps, j).value, UpTo(env, db, app, steps, params, stamps, j + 1).value,
                           StepsRun(env, db, app, steps, params, stamps).value;
    PrefixRuns(env, db, app, steps, params, stamps, j);
    StepDoesAmong(env, before.db, at.db, app, EntityById(app.entities, steps[j].entity).value, steps[j], params, before.results, end.results, stamps(j), at.last);
    assert steps[..|steps|] == steps;
  }

  // ----- parameters -----

  lemma ParamIsInitial(env: Env, db: Db, app: App, param: Field, provided: map<string, Json>, v: GoValue)
    ensures ParamValue(env, db, app, param, provided) == Set(v) <==> Initial(env, db, app, param, provided, v)
    ensures !ParamValue(env, db, app, param, provided).Untouched?
  {
    hide CoerceValue, Takes;
    FieldCreates(env, db, app, param, provided, v);
    if param.name in provided {
      FieldTakes(env, db, app, param, provided, true, v);
    }
  }

  lemma ParamWrong(env: Env, db: Db, app: App, param: Field, provided: map<string, Json>, problem: Problem)
    ensures ParamValue(env, db, app, param, provided) == Refused(problem) <==> Wrong(env, db, app, param, provided, true, problem)
  {
    hide CoerceValue, Wrong;
    FieldWrong(env, db, app, param, provided, true, problem);
  }

  lemma {:induction false} ParamOutcomes(env: Env, db: Db, app: App, params: seq<Field>, provided: map<string, Json>)
    requires DistinctFieldNames(params)
    ensures var b := DeclaredValues(env, db, app, params, provided);
            && (forall issue :: issue in b.issues <==>
                  exists f | f in params :: issue.field == f.name && ParamValue(env, db, app, f, provided) == Refused(issue.problem))
            && b.values.Keys <= FieldNames(params)
            && (b.issues == [] ==> forall f | f in params :: f.name in b.values && ParamValue(env, db, app, f, provided) == Set(b.values[f.name]))
  {
    hide ParamValue, FieldNames;
    if params == [] {
      assert FieldNames([]) == {} by { NoFieldNames(); }
    } else {
      var rest, f := params[..|params| - 1], params[|params| - 1];
      ParamOutcomes(env, db, app, rest, provided);
      ParamIsInitial(env, db, app, f, provided, Nil);
      NamesOfLast(params);
      assert forall g | g in params :: g in rest || g == f;
      assert forall g | g in rest :: g.name != f.name;
    }
  }

  lemma NoFieldNames()
    ensures FieldNames([]) == {}
  {
  }

  lemma NamesOfLast(fields: seq<Field>)
    requires fields != []
    ensures FieldNames(fields) == FieldNames(fields[..|fields| - 1]) + {fields[|fields| - 1].name}
  {
    assert fields == fields[..|fields| - 1] + [fields[|fields| - 1]];
  }

  /** What is wrong with the arguments of a call: a parameter's value, or a name that is not declared. */
  ghost predicate WrongArgument(env: Env, db: Db, app: App, tool: Tool, provided: map<string, Json>, issue: Issue) {
    || (exists f | f in tool.params :: issue.field == f.name && Wrong(env, db, app, f, provided, true, issue.problem))
    || (issue.problem == Undeclared && issue.field in provided && forall f | f in tool.params :: f.name != issue.field)
  }

  lemma UndeclaredIsNamed(params: seq<Field>, provided: map<string, Json>, issue: Issue)
    ensures issue in UndeclaredIssues(params, provided) <==>
            issue.problem == Undeclared && issue.field in provided && forall f | f in params :: f.name != issue.field
  {
  }

  /**
   * The arguments of a call: refused with everything that is wrong with them, and otherwise each
   * parameter holds the value sent for it, its default, or null.
   */
  lemma ArgumentsAreExact(env: Env, db: Db, app: App, tool: Tool, provided: map<string, Json>)
    requires DistinctFieldNames(tool.params)
    ensures match Params(env, db, app, tool, provided)
            case Ok(values) =>
              && (forall issue :: !WrongArgument(env, db, app, tool, provided, issue))
              && values.Keys == FieldNames(tool.params)
              && forall f | f in tool.params :: f.name in values && Initial(env, db, app, f, provided, values[f.name])
            case Err(issues) =>
              issues != {} && forall issue :: issue in issues <==> WrongArgument(env, db, app, tool, provided, issue)
  {
    hide ParamValue, Wrong, Initial, DeclaredValues, FieldNames, UndeclaredIssues;
    ParamOutcomes(env, db, app, tool.params, provided);
    var b := DeclaredValues(env, db, app, tool.params, provided);
    forall issue ensures issue in UndeclaredIssues(tool.params, provided) + Members(b.issues) <==> WrongArgument(env, db, app, tool, provided, issue) {
      UndeclaredIsNamed(tool.params, provided, issue);
      forall f | f in tool.params {
        ParamWrong(env, db, app, f, provided, issue.problem);
      }
    }
    if Params(env, db, app, tool, provided).Ok? {
      ParamsAreDeclared(env, db, app, tool, provided);
      NoIssues(b.issues);
      forall f | f in tool.params {
        ParamIsInitial(env, db, app, f, provided, b.values[f.name]);
      }
    }
  }

  lemma ToolParamsAreDistinct(app: App, tool: Tool)
    requires ToolsOk(app, app.tools) && tool in app.tools
    ensures DistinctFieldNames(tool.params) && tool.steps != []
  {
    hide CheckedField, StepsOk;
    assert ToolOk(app, tool);
  }

  /** The tool a call names: by its id, or else by its name. */
  lemma {:induction false} ToolByIdFinds(tools: seq<Tool>, key: string)
    ensures match ToolById(tools, key) case Some(tool) => tool in tools && tool.id == key case None => forall tool | tool in tools :: tool.id != key
  {
    if tools != [] && tools[0].id != key {
      ToolByIdFinds(tools[1..], key);
    }
  }

  lemma {:induction false} ToolByNameFinds(tools: seq<Tool>, key: string)
    ensures match ToolByName(tools, key) case Some(tool) => tool in tools && tool.name == key case None => forall tool | tool in tools :: tool.name != key
  {
    if tools != [] && tools[0].name != key {
      ToolByNameFinds(tools[1..], key);
    }
  }

  /**
   * A call that succeeds ran the tool it names, with each parameter as it was sent (or its default,
   * or null), and each step did what its templates say; its result is the last step's, and the
   * database is what that step left.
   */
  lemma CallFlows(env: Env, db: Db, app: App, key: string, provided: map<string, Json>, stamps: nat -> Stamp, commits: bool)
    requires ValidApp(app) && ToolsOk(app, app.tools) && FaithfulDeletes(env) && FaithfulScans(env) && Sound(env.p, db, app)
    requires ToolRun(env, db, app, key, provided, stamps, true, commits).1.Ok?
    ensures var (after, r) := ToolRun(env, db, app, key, provided, stamps, true, commits);
            exists tool, params: GoRow | tool in app.tools ::
              && (tool.id == key || (tool.name == key && forall other | other in app.tools :: other.id != key))
              && params.Keys == FieldNames(tool.params)
              && (forall f | f in tool.params :: f.name in params && Initial(env, db, app, f, provided, params[f.name]))
              && RunDid(env, db, after, app, tool.steps, params, stamps, r.value)
  {
    hide Initial, FieldNames, RunDid, Sound, ValidApp, FaithfulDeletes, FaithfulScans, Params, StepsRun, ToolsOk;
    ToolByIdFinds(app.tools, key);
    ToolByNameFinds(app.tools, key);
    var tool := FindTool(app.tools, key).value;
    var params := Params(env, db, app, tool, provided).value;
    ToolParamsAreDistinct(app, tool);
    ArgumentsAreExact(env, db, app, tool, provided);
    ToolIsChecked(app, tool);
    RunsDo(env, db, app, tool.steps, params, stamps);
  }

  /** Each step did what its templates say, and the result is the last one's. */
  ghost predicate RunDid(env: Env, db: Db, after: Db, app: App, steps: seq<ToolStep>, params: GoRow, stamps: nat -> Stamp, r: ToolResult) {
    exists dbs: seq<Db>, replies: seq<GoRow> :: WentThrough(env, db, after, app, steps, params, stamps, r, dbs, replies)
  }

  ghost predicate WentThrough(env: Env, db: Db, after: Db, app: App, steps: seq<ToolStep>, params: GoRow, stamps: nat -> Stamp, r: ToolResult,
                              dbs: seq<Db>, replies: seq<GoRow>)
  {
    && |dbs| == |steps| + 1 && |replies| == |steps| > 0
    && dbs[0] == db && dbs[|steps|] == after && r.result == replies[|steps| - 1]
    && forall j | 0 <= j < |steps| :: StepDid(env, app, steps, params, stamps, r, dbs, replies, j)
  }

  ghost predicate StepDid(env: Env, app: App, steps: seq<ToolStep>, params: GoRow, stamps: nat -> Stamp, r: ToolResult, dbs: seq<Db>, replies: seq<GoRow>, j: nat)
    requires j < |steps| == |replies| && |dbs| == |steps| + 1
  {
    && EntityById(app.entities, steps[j].entity).Some?
    && StepDoes(env, dbs[j], dbs[j + 1], app, EntityById(app.entities, steps[j].entity).value, steps[j], params, r.steps, stamps(j), replies[j])
    && (steps[j].id != "" ==> steps[j].id in r.steps && r.steps[steps[j].id] == replies[j])
  }

  lemma RunsDo(env: Env, db: Db, app: App, steps: seq<ToolStep>, params: GoRow, stamps: nat -> Stamp)
    requires ValidApp(app) && FaithfulDeletes(env) && FaithfulScans(env) && Sound(env.p, db, app)
    requires StepsCheck(app, params.Keys, steps) && steps != [] && StepsRun(env, db, app, steps, params, stamps).Ok?
    ensures var end := StepsRun(env, db, app, steps, params, stamps).value;
            RunDid(env, db, end.db, app, steps, params, stamps, ToolResult(end.last, end.results))
  {
    hide Sound, ValidApp, FaithfulDeletes, FaithfulScans, StepsCheck, StepsRun, StepDid, UpTo;
    var end := StepsRun(env, db, app, steps, params, stamps).value;
    var r := ToolResult(end.last, end.results);
    forall j | 0 <= j <= |steps| ensures UpTo(env, db, app, steps, params, stamps, j).Ok? {
      PrefixRuns(env, db, app, steps, params, stamps, j);
    }
    var dbs := seq(|steps| + 1, j requires 0 <= j <= |steps| => UpTo(env, db, app, steps, params, stamps, j).value.db);
    var replies := seq(|steps|, j requires 0 <= j < |steps| => UpTo(env, db, app, steps, params, stamps, j + 1).value.last);
    forall j | 0 <= j < |steps| ensures StepDid(env, app, steps, params, stamps, r, dbs, replies, j) {
      OneStepDid(env, db, app, steps, params, stamps, dbs, replies, j);
    }
    RunEnds(env, db, app, steps, params, stamps);
    assert WentThrough(env, db, end.db, app, steps, params, stamps, r, dbs, replies);
  }

  lemma OneStepDid(env: Env, db: Db, app: App, steps: seq<ToolStep>, params: GoRow, stamps: nat -> Stamp, dbs: seq<Db>, replies: seq<GoRow>, j: nat)
    requires ValidApp(app) && FaithfulDeletes(env) && FaithfulScans(env) && Sound(env.p, db, app)
    requires StepsCheck(app, params.Keys, steps) && StepsRun(env, db, app, steps, params, stamps).Ok?
    requires j < |steps| == |replies| && |dbs| == |steps| + 1
    requires UpTo(env, db, app, steps, params, stamps, j).Ok? && UpTo(env, db, app, steps, params, stamps, j + 1).Ok?
    requires dbs[j] == UpTo(env, db, app, steps, params, stamps, j).value.db
    requires dbs[j + 1] == UpTo(env, db, app, steps, params, stamps, j + 1).value.db
    requires replies[j] == UpTo(env, db, app, steps, params, stamps, j + 1).value.last
    ensures var end := StepsRun(env, db, app, steps, params, stamps).value;
            StepDid(env, app, steps, params, stamps, ToolResult(end.last, end.results), dbs, replies, j)
  {
    hide Sound, ValidApp, FaithfulDeletes, FaithfulScans, StepsCheck, StepsRun, StepDoes, UpTo;
    RunFlows(env, db, app, steps, params, stamps, j);
  }

  lemma RunEnds(env: Env, db: Db, app: App, steps: seq<ToolStep>, params: GoRow, stamps: nat -> Stamp)
    ensures UpTo(env, db, app, steps, params, stamps, 0) == Ok(Progress(db, map[], map[]))
    ensures UpTo(env, db, app, steps, params, stamps, |steps|) == StepsRun(env, db, app, steps, params, stamps)
  {
    hide StepsRun;
    NoSteps(env, db, app, params, stamps);
    assert steps[..|steps|] == steps && steps[..0] == [];
  }

  /** A run that fails reports the first step that fails, by its place, and with the step's own error. */
  lemma {:induction false} FailureIsTheFirst(env: Env, db: Db, app: App, steps: seq<ToolStep>, params: GoRow, stamps: nat -> Stamp)
    requires StepsRun(env, db, app, steps, params, stamps).Err?
    ensures var failure := StepsRun(env, db, app, steps, params, stamps).error;
            && failure.index < |steps| && UpTo(env, db, app, steps, params, stamps, failure.index).Ok?
            && var before := UpTo(env, db, app, steps, params, stamps, failure.index).value;
               match EntityById(app.entities, steps[failure.index].entity)
               case None => failure.error == EntityNotFound
               case Some(e) =>
                 StepRun(env, before.db, app, e, steps[failure.index], params, before.results, stamps(failure.index)).1 == Err(failure.error)
  {
    hide StepRun;
    if steps != [] {
      var n := |steps| - 1;
      if StepsRun(env, db, app, steps[..n], params, stamps).Err? {
        FailureIsTheFirst(env, db, app, steps[..n], params, stamps);
        var i := StepsRun(env, db, app, steps[..n], params, stamps).error.index;
        assert steps[..n][..i] == steps[..i] && steps[..n][i] == steps[i];
      }
    }
  }
}

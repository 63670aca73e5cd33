/** The typed form of a manifest (engine/schema/schema.go) and what validation guarantees about it. */
module Schema {
  import opened Results

  datatype FieldType = Text | Integer | Real | Boolean | Datetime | Enum | Reference

  datatype OnDelete = SetNull | Restrict | Cascade

  datatype Crud = Create | Read | Update | Delete | List

  /** A Go `any` as rows, defaults, witnesses and tool results carry it. */
  datatype GoValue =
    | Nil
    | Str(s: string)
    | Int(i: int)
    | Float(r: real)
    | Bool(b: bool)
    | Rows(rows: seq<map<string, GoValue>>)

  /** A JSON number: spelled as an integer, or otherwise. */
  datatype Number = Whole(i: int) | Fraction(r: real)

  /** A parsed json.RawMessage; `JEmpty` is an empty one, which no decoder accepts. */
  datatype Json = JNull | JBool(b: bool) | JNumber(n: Number) | JString(s: string) | JOther | JEmpty

  datatype Field = Field(
    id: string,
    name: string,
    typ: FieldType,
    required: bool,
    unique: bool,
    default: Option<GoValue>,
    min: Option<real>,
    max: Option<real>,
    values: seq<string>,
    target: string,
    onDelete: OnDelete)

  datatype Entity = Entity(id: string, name: string, operations: seq<Crud>, fields: seq<Field>) {
    predicate Allows(op: Crud) {
      op in operations
    }
  }

  /** A template of a tool step: a reference, or (when `ref` is blank) a literal. */
  datatype StepValue = StepValue(ref: string, literal: Json)

  datatype ToolStep = ToolStep(
    id: string,
    op: Crud,
    entity: string,
    rowId: Option<StepValue>,
    set_: map<string, Option<StepValue>>,
    filter: map<string, Option<StepValue>>)

  datatype Tool = Tool(id: string, name: string, params: seq<Field>, steps: seq<ToolStep>)

  datatype App = App(id: string, name: string, version: int, entities: seq<Entity>, tools: seq<Tool>)

  // ----- lookups -----

  /** Entity.FieldByID: the first field with the id. */
  function FieldById(fields: seq<Field>, id: string): (r: Option<Field>)
    ensures r.Some? ==> r.value in fields && r.value.id == id
    ensures r.None? <==> id !in FieldIds(fields)
  {
    if fields == [] then None
    else if fields[0].id == id then Some(fields[0])
    else FieldById(fields[1..], id)
  }

  /** Entity.Field: the first field with the name. */
  function FieldByName(fields: seq<Field>, name: string): (r: Option<Field>)
    ensures r.Some? ==> r.value in fields && r.value.name == name
    ensures r.None? ==> forall f | f in fields :: f.name != name
  {
    if fields == [] then None
    else if fields[0].name == name then Some(fields[0])
    else FieldByName(fields[1..], name)
  }

  /** App.EntityByID: the first entity with the id. */
  function EntityById(entities: seq<Entity>, id: string): (r: Option<Entity>)
    ensures r.Some? ==> r.value in entities && r.value.id == id
    ensures r.None? <==> id !in EntityIds(entities)
  {
    if entities == [] then None
    else if entities[0].id == id then Some(entities[0])
    else EntityById(entities[1..], id)
  }

  function FieldIds(fields: seq<Field>): set<string> {
    set f | f in fields :: f.id
  }

  function FieldNames(fields: seq<Field>): set<string> {
    set f | f in fields :: f.name
  }

  function EntityIds(entities: seq<Entity>): set<string> {
    set e | e in entities :: e.id
  }

  predicate DistinctFieldIds(fields: seq<Field>) {
    forall i, j | 0 <= i < j < |fields| :: fields[i].id != fields[j].id
  }

  predicate DistinctFieldNames(fields: seq<Field>) {
    forall i, j | 0 <= i < j < |fields| :: fields[i].name != fields[j].name
  }

  predicate DistinctEntityIds(entities: seq<Entity>) {
    forall i, j | 0 <= i < j < |entities| :: entities[i].id != entities[j].id
  }

  /** Entity ids are distinct, and so are the field ids of each entity. */
  predicate WellFormed(entities: seq<Entity>) {
    DistinctEntityIds(entities) && forall e | e in entities :: DistinctFieldIds(e.fields)
  }

  /** With distinct ids, looking a member up by its id finds that member. */
  lemma {:induction false} FieldByIdFinds(fields: seq<Field>, f: Field)
    requires DistinctFieldIds(fields) && f in fields
    ensures FieldById(fields, f.id) == Some(f)
  {
    if fields[0] != f {
      assert f in fields[1..];
      FieldByIdFinds(fields[1..], f);
    }
  }

  lemma {:induction false} FieldByNameFinds(fields: seq<Field>, f: Field)
    requires DistinctFieldNames(fields) && f in fields
    ensures FieldByName(fields, f.name) == Some(f)
  {
    if fields[0] != f {
      assert f in fields[1..];
      FieldByNameFinds(fields[1..], f);
    }
  }

  lemma {:induction false} EntityByIdFinds(entities: seq<Entity>, e: Entity)
    requires DistinctEntityIds(entities) && e in entities
    ensures EntityById(entities, e.id) == Some(e)
  {
    if entities[0] != e {
      assert e in entities[1..];
      EntityByIdFinds(entities[1..], e);
    }
  }

  // ----- what validation guarantees -----

  /** The columns every table has, whatever its entity declares. */
  function PlatformColumns(): set<string> {
    {"id", "created_at", "updated_at"}
  }

  predicate IsReserved(name: string) {
    name in PlatformColumns()
  }

  predicate IsIdentifierChar(c: char) {
    'a' <= c <= 'z' || '0' <= c <= '9' || c == '_'
  }

  /** The stableId and machineName pattern of the manifest schema: ^[a-z][a-z0-9_]*$ */
  predicate IsIdentifier(s: string) {
    |s| > 0 && 'a' <= s[0] <= 'z' && forall c | c in s :: IsIdentifierChar(c)
  }

  predicate AtLeast(bound: Option<real>, x: real) {
    bound.Some? ==> bound.value <= x
  }

  predicate AtMost(bound: Option<real>, x: real) {
    bound.Some? ==> x <= bound.value
  }

  /** What parsing already guarantees of a default: a value of the field's type. */
  predicate TypedDefault(f: Field, v: GoValue) {
    match f.typ
    case Text => v.Str?
    case Integer => v.Int?
    case Real => v.Float?
    case Boolean => v.Bool?
    case Datetime => v.Str?
    case Enum => v.Str?
    case Reference => false
  }

  /** validateDefault. */
  predicate CheckedDefault(f: Field, v: GoValue) {
    match f.typ
    case Text => v.Str? && AtLeast(f.min, |v.s| as real) && AtMost(f.max, |v.s| as real)
    case Integer => v.Int? && AtLeast(f.min, v.i as real) && AtMost(f.max, v.i as real)
    case Real => v.Float? && AtLeast(f.min, v.r) && AtMost(f.max, v.r)
    case Enum => v.Str? && v.s in f.values
    case _ => true
  }

  predicate ValidDefault(f: Field, v: GoValue) {
    TypedDefault(f, v) && CheckedDefault(f, v)
  }

  predicate DistinctStrings(values: seq<string>) {
    forall i, j | 0 <= i < j < |values| :: values[i] != values[j]
  }

  predicate IsWhole(r: real) {
    r == r.Floor as real
  }

  /** The bounds of a length or an integer are whole numbers, and a length's are not negative. */
  predicate ParsedBound(typ: FieldType, bound: Option<real>) {
    bound.Some? ==>
      && (typ.Text? || typ.Integer? ==> IsWhole(bound.value))
      && (typ.Text? ==> bound.value >= 0.0)
  }

  /** What parsing and the per-type keys of the manifest schema guarantee of a field. */
  predicate ParsedField(f: Field) {
    && IsIdentifier(f.id) && IsIdentifier(f.name)
    && (f.unique ==> f.typ.Text? || f.typ.Integer? || f.typ.Real?)
    && (f.min.Some? || f.max.Some? ==> f.typ.Text? || f.typ.Integer? || f.typ.Real?)
    && ParsedBound(f.typ, f.min) && ParsedBound(f.typ, f.max)
    && (f.typ.Enum? ==> f.values != [])
    && (f.default.Some? ==> TypedDefault(f, f.default.value))
  }

  /** validateField. */
  predicate CheckedField(entities: seq<Entity>, f: Field) {
    && (f.min.Some? && f.max.Some? ==> f.min.value <= f.max.value)
    && (f.typ.Enum? ==> DistinctStrings(f.values))
    && (f.typ.Reference? ==> f.target in EntityIds(entities))
    && (f.default.Some? ==> CheckedDefault(f, f.default.value))
  }

  predicate ValidField(entities: seq<Entity>, f: Field) {
    ParsedField(f) && CheckedField(entities, f)
  }

  /** What the manifest schema guarantees of an entity, apart from its fields. */
  predicate ParsedEntity(e: Entity) {
    IsIdentifier(e.id) && IsIdentifier(e.name) && e.fields != [] && e.operations != []
  }

  predicate ValidEntity(entities: seq<Entity>, e: Entity) {
    && ParsedEntity(e)
    && DistinctFieldIds(e.fields) && DistinctFieldNames(e.fields)
    && (forall f | f in e.fields ::
          !IsReserved(f.id) && !IsReserved(f.name) && ValidField(entities, f))
  }

  /** A manifest validate.Manifest accepts (its tools are checked in module Validation). */
  predicate ValidApp(app: App) {
    && app.entities != [] && DistinctEntityIds(app.entities)
    && (forall e | e in app.entities :: ValidEntity(app.entities, e))
  }
}

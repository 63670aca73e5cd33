/** engine/domain/coerce.go and operations.go: validating field values and writing rows. */
module DomainOps {
  import opened Results
  import opened Schema
  import opened Sql
  import opened Materialize
  import opened RowCodec
  import opened Listing

  // ----- outcomes -----

  datatype OpError =
    | AppNotFound
    | EntityNotFound
    | ToolNotFound
    | OperationDisabled
    | Validation(issues: set<Issue>)
    | RowNotFound
    | UniqueConflict
    | ReferenceConflict
    | Internal

  datatype Issue = Issue(field: string, problem: Problem)

  datatype Problem =
    | BadValue | IsRequired | NotNullable | Undeclared
    | ParamNotProvided | StepHasNotRun | NoSuchStepField | BadReference | NotAStringId | NotAValue

  /** store.classify, as far as a delete can fail. */
  datatype StoreFault = ForeignKeyConflict | OtherFault

  /** storeOpError. */
  function StoreOpError(fault: StoreFault): OpError {
    if fault.ForeignKeyConflict? then ReferenceConflict else Internal
  }

  /** Conversions and engine internals that are parameters of the model. */
  datatype Env = Env(
    p: Platform,
    quoted: string -> Option<Number>,                       // a JSON string accepted as a json.Number
    like: (Value, Value) -> bool,                           // SQL LIKE
    scan: (Db, string) -> seq<Entry>,                       // a table's rows in physical order
    deleted: (Db, string, string) -> Result<Db, StoreFault>) // DELETE of a present row, with its foreign-key actions

  /** The fresh id and the clock reading one write uses. */
  datatype Stamp = Stamp(id: string, now: string)

  const INT64_LIMIT := 0x8000_0000_0000_0000

  // ----- coerce.go -----

  datatype Coerced = Bad | NullValue | Good(v: GoValue)

  /** Decoding into a json.Number, which also accepts a quoted number. */
  function NumberIn(env: Env, raw: Json): Option<Number> {
    match raw
    case JNumber(n) => Some(n)
    case JString(s) => env.quoted(s)
    case _ => None
  }

  function AsReal(n: Number): real {
    match n
    case Whole(i) => i as real
    case Fraction(r) => r
  }

  predicate RowExists(db: Db, table: string, id: string) {
    table in db.tables && id in db.tables[table].rows
  }

  /** CoerceFieldValue. */
  function CoerceValue(env: Env, db: Db, app: App, f: Field, raw: Json): Coerced {
    if raw.JNull? then NullValue
    else
      match f.typ
      case Text =>
        if raw.JString? && AtLeast(f.min, |raw.s| as real) && AtMost(f.max, |raw.s| as real) then Good(Str(raw.s)) else Bad
      case Integer => (
        match NumberIn(env, raw)
        case Some(Whole(i)) =>
          if -INT64_LIMIT <= i < INT64_LIMIT && AtLeast(f.min, i as real) && AtMost(f.max, i as real) then Good(Int(i)) else Bad
        case _ => Bad)
      case Real => (
        match NumberIn(env, raw)
        case Some(n) => if AtLeast(f.min, AsReal(n)) && AtMost(f.max, AsReal(n)) then Good(Float(AsReal(n))) else Bad
        case None => Bad)
      case Boolean => if raw.JBool? then Good(Bool(raw.b)) else Bad
      case Datetime =>
        if raw.JString? && env.p.canonical(raw.s).Some? then Good(Str(env.p.canonical(raw.s).value)) else Bad
      case Enum => if raw.JString? && raw.s in f.values then Good(Str(raw.s)) else Bad
      case Reference =>
        if raw.JString? && f.target in EntityIds(app.entities) && RowExists(db, f.target, raw.s) then Good(Str(raw.s)) else Bad
  }

  /** DefaultStoreValue: a datetime default is canonicalised if it parses. */
  function DefaultStoreValue(env: Env, f: Field): GoValue
    requires f.default.Some?
  {
    if f.typ.Datetime? && f.default.value.Str? && env.p.canonical(f.default.value.s).Some?
    then Str(env.p.canonical(f.default.value.s).value)
    else f.default.value
  }

  // ----- operations.go: coerceFields -----

  datatype FieldResult = Untouched | Refused(problem: Problem) | Set(v: GoValue)

  function FieldValue(env: Env, db: Db, app: App, f: Field, body: map<string, Json>, onCreate: bool): FieldResult {
    if f.name !in body then
      if !onCreate then Untouched
      else if f.default.Some? then Set(DefaultStoreValue(env, f))
      else if f.required then Refused(IsRequired)
      else Untouched
    else
      match CoerceValue(env, db, app, f, body[f.name])
      case Bad => Refused(BadValue)
      case NullValue => if f.required then Refused(NotNullable) else Set(Nil)
      case Good(v) => Set(v)
  }

  datatype Body = Body(values: GoRow, issues: seq<Issue>)

  function WithField(before: Body, f: Field, r: FieldResult): Body {
    match r
    case Untouched => before
    case Refused(problem) => before.(issues := before.issues + [Issue(f.name, problem)])
    case Set(v) => before.(values := before.values[f.name := v])
  }

  function FieldValues(env: Env, db: Db, app: App, fields: seq<Field>, body: map<string, Json>, onCreate: bool): Body {
    if fields == [] then Body(map[], [])
    else
      var f := fields[|fields| - 1];
      WithField(FieldValues(env, db, app, fields[..|fields| - 1], body, onCreate), f, FieldValue(env, db, app, f, body, onCreate))
  }

  method CoerceFields(env: Env, db: Db, app: App, e: Entity, body: map<string, Json>, onCreate: bool)
    returns (values: GoRow, issues: seq<Issue>)
    ensures Body(values, issues) == FieldValues(env, db, app, e.fields, body, onCreate)
  {
    hide CoerceValue, DefaultStoreValue;
    values, issues := map[], [];
    for i := 0 to |e.fields|
      invariant Body(values, issues) == FieldValues(env, db, app, e.fields[..i], body, onCreate)
    {
      assert e.fields[..i + 1][..i] == e.fields[..i];
      var f := e.fields[i];
      if f.name !in body {
        if onCreate {
          if f.default.Some? {
            values := values[f.name := DefaultStoreValue(env, f)];
          } else if f.required {
            issues := issues + [Issue(f.name, IsRequired)];
          }
        }
        continue;
      }
      match CoerceValue(env, db, app, f, body[f.name]) {
        case Bad =>
          issues := issues + [Issue(f.name, BadValue)];
        case NullValue =>
          if f.required {
            issues := issues + [Issue(f.name, NotNullable)];
          } else {
            values := values[f.name := Nil];
          }
        case Good(v) =>
          values := values[f.name := v];
      }
    }
    assert e.fields[..|e.fields|] == e.fields;
  }

  lemma {:induction false} ValuesAreNamed(env: Env, db: Db, app: App, fields: seq<Field>, body: map<string, Json>, onCreate: bool)
    ensures FieldValues(env, db, app, fields, body, onCreate).values.Keys <= FieldNames(fields)
  {
    hide FieldValue;
    if fields != [] {
      var rest := fields[..|fields| - 1];
      ValuesAreNamed(env, db, app, rest, body, onCreate);
      assert FieldNames(rest) <= FieldNames(fields);
      assert fields[|fields| - 1].name in FieldNames(fields);
    }
  }

  // ----- writing one row -----

  predicate RowRefers(db: Db, cols: map<string, Column>, row: Row) {
    forall c | c in cols && cols[c].fk.Some? && c in row.cells :: RefersToRow(db, cols[c].fk.value.target, row.cells[c])
  }

  function WithRow(db: Db, table: string, id: string, row: Row): Db
    requires table in db.tables
  {
    WithTable(db, table, db.tables[table].(rows := db.tables[table].rows[id := row]))
  }

  /** SQLite's verdict on a written row: NOT NULL and CHECKs, then unique indexes, then foreign keys. */
  function WriteFault(p: Platform, db: Db, table: string, id: string, row: Row): Option<OpError> {
    if table !in db.tables then Some(Internal)
    else if !RowOk(p, db.tables[table].cols, row) then Some(Internal)
    else
      var after := WithRow(db, table, id, row);
      if !(forall c | c in db.tables[table].indexes :: NoDuplicates(after.tables[table].rows, c)) then Some(UniqueConflict)
      else if !RowRefers(after, db.tables[table].cols, row) then Some(ReferenceConflict)
      else None
  }

  type RowOutcome = (Db, Result<GoRow, OpError>)

  /** CreateIn. */
  function Created(env: Env, db: Db, app: App, e: Entity, body: map<string, Json>, stamp: Stamp): RowOutcome {
    var b := FieldValues(env, db, app, e.fields, body, true);
    if b.issues != [] then (db, Err(Validation(Members(b.issues))))
    else
      var row := Row(stamp.now, stamp.now, InsertedCells(env.p, e, b.values));
      if e.id in db.tables && stamp.id in db.tables[e.id].rows then (db, Err(UniqueConflict))
      else
        match WriteFault(env.p, db, e.id, stamp.id, row)
        case Some(error) => (db, Err(error))
        case None => (WithRow(db, e.id, stamp.id, row), Ok(ReadRow(e, stamp.id, row)))
  }

  /** GetIn. */
  function Got(db: Db, e: Entity, id: string): Result<GoRow, OpError> {
    if e.id !in db.tables then Err(Internal)
    else if id !in db.tables[e.id].rows then Err(RowNotFound)
    else Ok(ReadRow(e, id, db.tables[e.id].rows[id]))
  }

  /** UpdateIn. */
  function Updated(env: Env, db: Db, app: App, e: Entity, id: string, body: map<string, Json>, stamp: Stamp): RowOutcome {
    if e.id !in db.tables then (db, Err(Internal))
    else if id !in db.tables[e.id].rows then (db, Err(RowNotFound))
    else
      var old_ := db.tables[e.id].rows[id];
      var b := FieldValues(env, db, app, e.fields, body, false);
      if b.issues != [] then (db, Err(Validation(Members(b.issues))))
      else
        var row := Row(old_.created, stamp.now, UpdatedCells(env.p, e, b.values, old_.cells));
        match WriteFault(env.p, db, e.id, id, row)
        case Some(error) => (db, Err(error))
        case None => (WithRow(db, e.id, id, row), Ok(ReadRow(e, id, row)))
  }

  /** DeleteIn; the row a tool step then reports is its id. */
  function Deleted(env: Env, db: Db, e: Entity, id: string): (Db, Result<bool, OpError>) {
    if e.id !in db.tables then (db, Err(Internal))
    else if id !in db.tables[e.id].rows then (db, Err(RowNotFound))
    else
      match env.deleted(db, e.id, id)
      case Err(fault) => (db, Err(StoreOpError(fault)))
      case Ok(after) => (after, Ok(true))
  }

  /** The rows of an app, behind the RowStore interface. */
  class RowTx {
    var db: Db
    const env: Env
    const app: App

    constructor (env: Env, app: App, db: Db)
      ensures this.env == env && this.app == app && this.db == db
    {
      this.env := env;
      this.app := app;
      this.db := db;
    }

    method CreateIn(e: Entity, body: map<string, Json>, stamp: Stamp) returns (r: Result<GoRow, OpError>)
      requires NamedFields(e)
      modifies this
      ensures (db, r) == Created(env, old(db), app, e, body, stamp)
    {
      hide FieldValues, WriteFault, ReadRow, InsertedCells, UpdatedCells, InsertOf, UpdateOf, Binds, FieldNames, NamedFields;
      var values, issues := CoerceFields(env, db, app, e, body, true);
      if issues != [] {
        return Err(Validation(Members(issues)));
      }
      ValuesAreNamed(env, db, app, e.fields, body, true);
      var bound := Bindings(e, values);
      BoundIsWritten(env.p, e, values, bound, map[]);
      var row := Row(stamp.now, stamp.now, InsertOf(env.p, e, bound));
      if e.id in db.tables && stamp.id in db.tables[e.id].rows {
        return Err(UniqueConflict);
      }
      var fault := WriteFault(env.p, db, e.id, stamp.id, row);
      if fault.Some? {
        return Err(fault.value);
      }
      WritableTable(env.p, db, e.id, stamp.id, row);
      db := WithRow(db, e.id, stamp.id, row);
      var read := ScanRow(e, stamp.id, row);
      return Ok(read);
    }

    method GetIn(e: Entity, id: string) returns (r: Result<GoRow, OpError>)
      ensures r == Got(db, e, id)
    {
      if e.id !in db.tables {
        return Err(Internal);
      }
      if id !in db.tables[e.id].rows {
        return Err(RowNotFound);
      }
      var read := ScanRow(e, id, db.tables[e.id].rows[id]);
      return Ok(read);
    }

    method UpdateIn(e: Entity, id: string, body: map<string, Json>, stamp: Stamp) returns (r: Result<GoRow, OpError>)
      requires NamedFields(e)
      modifies this
      ensures (db, r) == Updated(env, old(db), app, e, id, body, stamp)
    {
      hide FieldValues, WriteFault, ReadRow, InsertedCells, UpdatedCells, InsertOf, UpdateOf, Binds, FieldNames, NamedFields;
      if e.id !in db.tables {
        return Err(Internal);
      }
      if id !in db.tables[e.id].rows {
        return Err(RowNotFound);
      }
      var existing := db.tables[e.id].rows[id];
      var values, issues := CoerceFields(env, db, app, e, body, false);
      if issues != [] {
        return Err(Validation(Members(issues)));
      }
      ValuesAreNamed(env, db, app, e.fields, body, false);
      var bound := Bindings(e, values);
      BoundIsWritten(env.p, e, values, bound, existing.cells);
      var row := Row(existing.created, stamp.now, UpdateOf(env.p, e, bound, existing.cells));
      var fault := WriteFault(env.p, db, e.id, id, row);
      if fault.Some? {
        return Err(fault.value);
      }
      db := WithRow(db, e.id, id, row);
      var read := ScanRow(e, id, row);
      return Ok(read);
    }

    method DeleteIn(e: Entity, id: string) returns (r: Result<bool, OpError>)
      modifies this
      ensures (db, r) == Deleted(env, old(db), e, id)
    {
      if e.id !in db.tables {
        return Err(Internal);
      }
      if id !in db.tables[e.id].rows {
        return Err(RowNotFound);
      }
      match env.deleted(db, e.id, id) {
        case Err(fault) =>
          return Err(StoreOpError(fault));
        case Ok(after) =>
          db := after;
          return Ok(true);
      }
    }
  }

  lemma WritableTable(p: Platform, db: Db, table: string, id: string, row: Row)
    requires WriteFault(p, db, table, id, row).None?
    ensures table in db.tables
  {
  }
}

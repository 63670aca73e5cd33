/** What is sent is what is kept: coercion and the rows it makes, against the JSON of the call. */
module SentValues {
  import opened Results
  import opened Schema
  import opened Sql
  import opened Materialize
  import opened RowCodec
  import opened Listing
  import opened DomainOps
  import opened DomainSound
  import opened FieldMeaning

  // ----- one value -----

  /** The JSON spells the number, bare or quoted. */
  predicate Spells(env: Env, raw: Json, n: Number) {
    raw == JNumber(n) || (raw.JString? && env.quoted(raw.s) == Some(n))
  }

  /** The JSON sends the value to the field: the same string, number or boolean, or a datetime's canonical form. */
  predicate Sends(env: Env, f: Field, raw: Json, v: GoValue) {
    match f.typ
    case Text => v.Str? && raw == JString(v.s)
    case Integer => v.Int? && Spells(env, raw, Whole(v.i)) && -0x8000_0000_0000_0000 <= v.i <= 0x7fff_ffff_ffff_ffff
    case Real => v.Float? && (Spells(env, raw, Fraction(v.r)) || (v.r == v.r.Floor as real && Spells(env, raw, Whole(v.r.Floor))))
    case Boolean => v.Bool? && raw == JBool(v.b)
    case Datetime => v.Str? && raw.JString? && env.p.canonical(raw.s) == Some(v.s)
    case Enum => v.Str? && raw == JString(v.s)
    case Reference => v.Str? && raw == JString(v.s)
  }

  /** A reference names a row of its target that exists. */
  predicate Resolves(db: Db, app: App, f: Field, v: GoValue) {
    f.typ.Reference? && v.Str? ==>
      (exists e | e in app.entities :: e.id == f.target) && f.target in db.tables && v.s in db.tables[f.target].rows
  }

  /** The field may take the JSON, and then holds the value. */
  predicate Takes(env: Env, db: Db, app: App, f: Field, raw: Json, v: GoValue) {
    && (if raw.JNull? then v.Nil? else Sends(env, f, raw, v))
    && Meets(f, v) && Resolves(db, app, f, v)
  }

  lemma NumberTaken(env: Env, db: Db, app: App, f: Field, raw: Json, v: GoValue)
    requires (f.typ.Integer? || f.typ.Real?) && !raw.JNull?
    ensures CoerceValue(env, db, app, f, raw) == Good(v) <==> Takes(env, db, app, f, raw, v)
  {
    if f.typ.Real? && NumberIn(env, raw).Some? && NumberIn(env, raw).value.Whole? {
      assert (NumberIn(env, raw).value.i as real).Floor == NumberIn(env, raw).value.i;
    }
  }

  /** Coercion accepts exactly what the field may take, and yields the value that was sent. */
  lemma CoercionIsExact(env: Env, db: Db, app: App, f: Field, raw: Json, v: GoValue)
    ensures CoerceValue(env, db, app, f, raw) == NullValue <==> raw.JNull?
    ensures !raw.JNull? ==> (CoerceValue(env, db, app, f, raw) == Good(v) <==> Takes(env, db, app, f, raw, v))
  {
    if (f.typ.Integer? || f.typ.Real?) && !raw.JNull? {
      NumberTaken(env, db, app, f, raw, v);
    }
  }

  // ----- one field of a body -----

  /** The field's default, a datetime's in its canonical form if it has one. */
  predicate IsDefault(env: Env, f: Field, v: GoValue) {
    f.default.Some? &&
    if f.typ.Datetime? && f.default.value.Str? && env.p.canonical(f.default.value.s).Some?
    then v == Str(env.p.canonical(f.default.value.s).value)
    else v == f.default.value
  }

  /** What a field of a new row may read as, given the body. */
  predicate Initial(env: Env, db: Db, app: App, f: Field, body: map<string, Json>, v: GoValue) {
    if f.name in body then Takes(env, db, app, f, body[f.name], v)
    else if f.default.Some? then IsDefault(env, f, v)
    else v.Nil? && !f.required
  }

  /** What a field of an updated row may read as, given the body and what it read before. */
  predicate Next(env: Env, db: Db, app: App, f: Field, body: map<string, Json>, before: GoValue, v: GoValue) {
    if f.name in body then Takes(env, db, app, f, body[f.name], v) else v == before
  }

  lemma FieldTakes(env: Env, db: Db, app: App, f: Field, body: map<string, Json>, onCreate: bool, v: GoValue)
    requires f.name in body
    ensures FieldValue(env, db, app, f, body, onCreate) == Set(v) <==> Takes(env, db, app, f, body[f.name], v)
    ensures !FieldValue(env, db, app, f, body, onCreate).Untouched?
  {
    hide CoerceValue, Sends;
    CoercionIsExact(env, db, app, f, body[f.name], v);
    match CoerceValue(env, db, app, f, body[f.name]) {
      case Good(w) => CoercionIsExact(env, db, app, f, body[f.name], w);
      case _ =>
    }
  }

  /** On create a field is set, or null, exactly as the body and the manifest say. */
  lemma FieldCreates(env: Env, db: Db, app: App, f: Field, body: map<string, Json>, v: GoValue)
    ensures var r := FieldValue(env, db, app, f, body, true);
            Initial(env, db, app, f, body, v) <==> r == Set(v) || (r.Untouched? && v.Nil?)
  {
    hide CoerceValue, Takes;
    if f.name in body {
      FieldTakes(env, db, app, f, body, true, v);
    }
  }

  lemma FieldUpdates(env: Env, db: Db, app: App, f: Field, body: map<string, Json>, before: GoValue, v: GoValue)
    ensures var r := FieldValue(env, db, app, f, body, false);
            Next(env, db, app, f, body, before, v) <==> r == Set(v) || (r.Untouched? && v == before)
  {
    hide CoerceValue, Takes;
    if f.name in body {
      FieldTakes(env, db, app, f, body, false, v);
    }
  }

  // ----- the issues of a body -----

  /** What is wrong with a field of a body, if anything. */
  ghost predicate Wrong(env: Env, db: Db, app: App, f: Field, body: map<string, Json>, onCreate: bool, problem: Problem) {
    match problem
    case IsRequired => onCreate && f.name !in body && f.default.None? && f.required
    case NotNullable => f.name in body && body[f.name].JNull? && f.required
    case BadValue => f.name in body && !body[f.name].JNull? && forall v :: !Takes(env, db, app, f, body[f.name], v)
    case _ => false
  }

  lemma FieldWrong(env: Env, db: Db, app: App, f: Field, body: map<string, Json>, onCreate: bool, problem: Problem)
    ensures FieldValue(env, db, app, f, body, onCreate) == Refused(problem) <==> Wrong(env, db, app, f, body, onCreate, problem)
  {
    hide CoerceValue, Takes;
    if f.name in body {
      var raw := body[f.name];
      forall v ensures !raw.JNull? ==> (CoerceValue(env, db, app, f, raw) == Good(v) <==> Takes(env, db, app, f, raw, v)) {
        CoercionIsExact(env, db, app, f, raw, v);
      }
      CoercionIsExact(env, db, app, f, raw, Nil);
      match CoerceValue(env, db, app, f, raw) {
        case Good(w) => assert Takes(env, db, app, f, raw, w);
        case _ =>
      }
    }
  }

  lemma {:induction false} IssuesOfFields(env: Env, db: Db, app: App, fields: seq<Field>, body: map<string, Json>, onCreate: bool, issue: Issue)
    ensures issue in FieldValues(env, db, app, fields, body, onCreate).issues <==>
            exists f | f in fields :: issue.field == f.name && FieldValue(env, db, app, f, body, onCreate) == Refused(issue.problem)
  {
    hide FieldValue;
    if fields != [] {
      var rest, f := fields[..|fields| - 1], fields[|fields| - 1];
      IssuesOfFields(env, db, app, rest, body, onCreate, issue);
      assert forall g | g in fields :: g in rest || g == f;
    }
  }

  /** The issues of a body are exactly what is wrong with its fields. */
  lemma IssuesAreExact(env: Env, db: Db, app: App, fields: seq<Field>, body: map<string, Json>, onCreate: bool)
    ensures forall issue :: issue in FieldValues(env, db, app, fields, body, onCreate).issues <==>
              exists f | f in fields :: issue.field == f.name && Wrong(env, db, app, f, body, onCreate, issue.problem)
  {
    hide FieldValue, FieldValues, Wrong;
    forall issue ensures issue in FieldValues(env, db, app, fields, body, onCreate).issues <==>
              exists f | f in fields :: issue.field == f.name && Wrong(env, db, app, f, body, onCreate, issue.problem)
    {
      IssuesOfFields(env, db, app, fields, body, onCreate, issue);
      forall f | f in fields {
        FieldWrong(env, db, app, f, body, onCreate, issue.problem);
      }
    }
  }

  // ----- a created row -----

  /** Nothing but one row of one table differs. */
  predicate OnlyRow(before: Db, after: Db, table: string, id: string) {
    && after.fingerprint == before.fingerprint && after.tables.Keys == before.tables.Keys && table in before.tables
    && (forall t | t in before.tables && t != table :: after.tables[t] == before.tables[t])
    && after.tables[table].(rows := map[]) == before.tables[table].(rows := map[])
    && after.tables[table].rows.Keys == before.tables[table].rows.Keys + {id}
    && forall r | r in before.tables[table].rows && r != id :: after.tables[table].rows[r] == before.tables[table].rows[r]
  }

  lemma WrittenRowIsOnly(db: Db, table: string, id: string, row: Row)
    requires table in db.tables
    ensures OnlyRow(db, WithRow(db, table, id, row), table, id)
  {
  }

  lemma CreatedFieldReads(env: Env, db: Db, app: App, e: Entity, body: map<string, Json>, stamp: Stamp, f: Field)
    requires ValidEntity(app.entities, e) && f in e.fields
    requires FieldValues(env, db, app, e.fields, body, true).issues == []
    ensures var row := Row(stamp.now, stamp.now, InsertedCells(env.p, e, FieldValues(env, db, app, e.fields, body, true).values));
            var read := ReadRow(e, stamp.id, row);
            && f.name in read && Initial(env, db, app, f, body, read[f.name])
            && PlatformColumns() <= read.Keys && read["id"] == Str(stamp.id)
            && read["created_at"] == Str(stamp.now) && read["updated_at"] == Str(stamp.now)
  {
    hide FieldValue, FieldValues, ReadRow, InsertedCells, Initial, HasType, ValidField, IsIdentifier;
    var values := FieldValues(env, db, app, e.fields, body, true).values;
    ValidIsNamed(app.entities, e);
    BodyHoldsOutcomes(env, db, app, e.fields, body, true, f);
    ValueIsTyped(env, db, app, f, body, true);
    InsertReadsBack(env.p, e, stamp.id, stamp.now, values, f);
    FieldCreates(env, db, app, f, body, if f.name in values then values[f.name] else Nil);
    PlatformReads(e, stamp.id, Row(stamp.now, stamp.now, InsertedCells(env.p, e, values)));
  }

  lemma ValueIsTyped(env: Env, db: Db, app: App, f: Field, body: map<string, Json>, onCreate: bool)
    requires ValidField(app.entities, f)
    ensures FieldValue(env, db, app, f, body, onCreate).Set? ==> HasType(f, FieldValue(env, db, app, f, body, onCreate).v)
  {
  }

  /**
   * A create that succeeds keeps what was sent. The reply, and any later read of the row, holds for
   * each field the value the body sent, or its default, or null; the id and the times are the
   * engine's; and nothing else changes.
   */
  lemma CreateKeepsWhatWasSent(env: Env, db: Db, app: App, e: Entity, body: map<string, Json>, stamp: Stamp)
    requires ValidEntity(app.entities, e) && Created(env, db, app, e, body, stamp).1.Ok?
    ensures var (after, r) := Created(env, db, app, e, body, stamp);
            && OnlyRow(db, after, e.id, stamp.id) && stamp.id !in db.tables[e.id].rows
            && Got(after, e, stamp.id) == r
            && r.value.Keys == FieldNames(e.fields) + PlatformColumns()
            && (forall f | f in e.fields :: f.name in r.value && Initial(env, db, app, f, body, r.value[f.name]))
            && r.value["id"] == Str(stamp.id) && r.value["created_at"] == Str(stamp.now) && r.value["updated_at"] == Str(stamp.now)
  {
    hide FieldValues, Initial, InsertedCells, Decode, Physical, PhysCol, FieldNames, WriteFault, ValidEntity;
    var row := Row(stamp.now, stamp.now, InsertedCells(env.p, e, FieldValues(env, db, app, e.fields, body, true).values));
    WritableTable(env.p, db, e.id, stamp.id, row);
    WrittenRowIsOnly(db, e.id, stamp.id, row);
    forall f | f in e.fields {
      CreatedFieldReads(env, db, app, e, body, stamp, f);
    }
    ValidIsNamed(app.entities, e);
    PlatformReads(e, stamp.id, row);
  }

  // ----- an updated row -----

  lemma UpdatedFieldReads(env: Env, db: Db, app: App, e: Entity, id: string, body: map<string, Json>, before: Row, now: string, f: Field)
    requires ValidEntity(app.entities, e) && f in e.fields && f.id in before.cells
    requires FieldValues(env, db, app, e.fields, body, false).issues == []
    ensures var row := Row(before.created, now, UpdatedCells(env.p, e, FieldValues(env, db, app, e.fields, body, false).values, before.cells));
            var was, read := ReadRow(e, id, before), ReadRow(e, id, row);
            f.name in was && f.name in read && Next(env, db, app, f, body, was[f.name], read[f.name])
  {
    hide FieldValue, FieldValues, ReadRow, Next, HasType, ValidField, IsIdentifier, Decode, Stored, ColumnDef, Encode;
    var values := FieldValues(env, db, app, e.fields, body, false).values;
    var row := Row(before.created, now, UpdatedCells(env.p, e, values, before.cells));
    ValidIsNamed(app.entities, e);
    FieldByIdFinds(e.fields, f);
    BodyHoldsOutcomes(env, db, app, e.fields, body, false, f);
    ValueIsTyped(env, db, app, f, body, false);
    ReadField(e, id, before, f);
    ReadField(e, id, row, f);
    if f.name in values {
      DecodeEncode(env.p, e, f, values[f.name]);
    }
    FieldUpdates(env, db, app, f, body, ReadRow(e, id, before)[f.name], ReadRow(e, id, row)[f.name]);
  }

  /**
   * An update that succeeds changes what was sent and nothing else: every other field, the id and the
   * creation time read as before.
   */
  lemma UpdateKeepsWhatWasSent(env: Env, db: Db, app: App, e: Entity, id: string, body: map<string, Json>, stamp: Stamp)
    requires ValidEntity(app.entities, e) && Updated(env, db, app, e, id, body, stamp).1.Ok?
    requires forall f | f in e.fields :: f.id in db.tables[e.id].rows[id].cells
    ensures var (after, r) := Updated(env, db, app, e, id, body, stamp);
            && e.id in db.tables && id in db.tables[e.id].rows && OnlyRow(db, after, e.id, id)
            && Got(after, e, id) == r && Got(db, e, id).Ok?
            && var was := Got(db, e, id).value;
            && r.value.Keys == was.Keys == FieldNames(e.fields) + PlatformColumns()
            && (forall f | f in e.fields :: f.name in was && f.name in r.value && Next(env, db, app, f, body, was[f.name], r.value[f.name]))
            && r.value["id"] == Str(id) && r.value["created_at"] == was["created_at"] && r.value["updated_at"] == Str(stamp.now)
  {
    hide FieldValues, Next, UpdatedCells, Decode, Physical, PhysCol, FieldNames, WriteFault, ValidEntity;
    var before := db.tables[e.id].rows[id];
    var row := Row(before.created, stamp.now, UpdatedCells(env.p, e, FieldValues(env, db, app, e.fields, body, false).values, before.cells));
    WrittenRowIsOnly(db, e.id, id, row);
    forall f | f in e.fields {
      UpdatedFieldReads(env, db, app, e, id, body, before, stamp.now, f);
    }
    ValidIsNamed(app.entities, e);
    PlatformReads(e, id, before);
    PlatformReads(e, id, row);
  }
}

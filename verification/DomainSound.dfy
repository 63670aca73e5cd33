/** Coercion implies the DDL's constraints, for every write and over every run of writes. */
module DomainSound {
  import opened Results
  import opened Schema
  import opened Sql
  import opened Materialize
  import opened RowCodec
  import opened Listing
  import opened DomainOps

  // ----- one value -----

  /** The value may be stored in the field's column: its type, NOT NULL, CHECKs and reference. */
  predicate Fits(p: Platform, db: Db, f: Field, v: GoValue) {
    var w := Stored(p, ColumnDef(f).affinity, Encode(v));
    && HasType(f, v)
    && Stored(p, ColumnDef(f).affinity, w) == w
    && Satisfies(p, f.id, ColumnDef(f), w)
    && (f.typ.Reference? ==> RefersToRow(db, f.target, w))
  }

  /** A coerced value fits its column, whatever was sent. */
  lemma CoercedFits(env: Env, db: Db, app: App, f: Field, raw: Json)
    requires ValidField(app.entities, f) && Readable(env.p, f.id)
    ensures CoerceValue(env, db, app, f, raw).Good? ==> Fits(env.p, db, f, CoerceValue(env, db, app, f, raw).v)
  {
    match f.typ
    case Text =>
    case Integer =>
    case Real =>
    case Boolean =>
    case Datetime =>
    case Enum =>
    case Reference =>
  }

  /** So does the stored form of a validated default. */
  lemma DefaultFits(env: Env, db: Db, app: App, f: Field)
    requires ValidField(app.entities, f) && f.default.Some? && Readable(env.p, f.id)
    ensures Fits(env.p, db, f, DefaultStoreValue(env, f))
  {
    match f.typ
    case Text =>
    case Integer =>
    case Real =>
    case Boolean =>
    case Datetime =>
    case Enum =>
    case Reference =>
  }

  lemma NullFits(p: Platform, db: Db, f: Field)
    requires !f.required && Readable(p, f.id)
    ensures Fits(p, db, f, Nil)
  {
  }

  // ----- the fields of a body -----

  lemma FieldValueFits(env: Env, db: Db, app: App, f: Field, body: map<string, Json>, onCreate: bool)
    requires ValidField(app.entities, f) && Readable(env.p, f.id)
    ensures var r := FieldValue(env, db, app, f, body, onCreate);
            && (r.Set? ==> Fits(env.p, db, f, r.v))
            && (r.Untouched? && onCreate ==> !f.required)
  {
    hide Fits, CoerceValue, DefaultStoreValue, ValidField;
    if f.name in body {
      CoercedFits(env, db, app, f, body[f.name]);
    } else if f.default.Some? {
      DefaultFits(env, db, app, f);
    }
    if !f.required {
      NullFits(env.p, db, f);
    }
  }

  /** Every field's own outcome, read off the body that was coerced without an issue. */
  lemma {:induction false} BodyHoldsOutcomes(env: Env, db: Db, app: App, fields: seq<Field>, body: map<string, Json>, onCreate: bool, f: Field)
    requires DistinctFieldNames(fields) && f in fields
    requires FieldValues(env, db, app, fields, body, onCreate).issues == []
    ensures var b, r := FieldValues(env, db, app, fields, body, onCreate), FieldValue(env, db, app, f, body, onCreate);
            && !r.Refused?
            && (f.name in b.values <==> r.Set?)
            && (r.Set? ==> b.values[f.name] == r.v)
  {
    hide FieldValue;
    var rest, last := fields[..|fields| - 1], fields[|fields| - 1];
    if f == last {
      NotAmong(env, db, app, rest, body, onCreate, last.name);
    } else {
      assert f in rest;
      BodyHoldsOutcomes(env, db, app, rest, body, onCreate, f);
    }
  }

  lemma {:induction false} NotAmong(env: Env, db: Db, app: App, fields: seq<Field>, body: map<string, Json>, onCreate: bool, name: string)
    requires forall g | g in fields :: g.name != name
    ensures name !in FieldValues(env, db, app, fields, body, onCreate).values
  {
    hide FieldValue;
    if fields != [] {
      NotAmong(env, db, app, fields[..|fields| - 1], body, onCreate, name);
    }
  }

  lemma BodyFits(env: Env, db: Db, app: App, e: Entity, body: map<string, Json>, onCreate: bool, f: Field)
    requires ValidEntity(app.entities, e) && f in e.fields && Readable(env.p, f.id)
    requires FieldValues(env, db, app, e.fields, body, onCreate).issues == []
    ensures var values := FieldValues(env, db, app, e.fields, body, onCreate).values;
            && (f.name in values ==> Fits(env.p, db, f, values[f.name]))
            && (f.name !in values && onCreate ==> !f.required)
  {
    hide Fits, FieldValues, FieldValue, ValidField;
    BodyHoldsOutcomes(env, db, app, e.fields, body, onCreate, f);
    FieldValueFits(env, db, app, f, body, onCreate);
  }

  // ----- one row -----

  /** Every column of the entity reads as itself. */
  predicate AllReadable(p: Platform, e: Entity) {
    forall f | f in e.fields :: Readable(p, f.id)
  }

  /** What a cell must satisfy in its column, its reference included. */
  predicate CellFits(p: Platform, db: Db, f: Field, w: Value) {
    && Stored(p, ColumnDef(f).affinity, w) == w
    && Satisfies(p, f.id, ColumnDef(f), w)
    && (f.typ.Reference? ==> RefersToRow(db, f.target, w))
  }

  lemma ColumnById(e: Entity, c: string)
    requires c in FieldIds(e.fields)
    ensures c in Columns(e.fields)
    ensures var f := FieldById(e.fields, c).value; f in e.fields && f.id == c && Columns(e.fields)[c] == ColumnDef(f)
  {
    hide ColumnDef;
  }

  lemma ForeignKeyOf(f: Field)
    ensures ColumnDef(f).fk == if f.typ.Reference? then Some(ForeignKey(f.target, f.onDelete)) else None
  {
  }

  lemma CellsMakeRow(p: Platform, db: Db, e: Entity, row: Row)
    requires row.cells.Keys == FieldIds(e.fields)
    requires forall f | f in e.fields :: f.id in row.cells && CellFits(p, db, f, row.cells[f.id])
    ensures RowOk(p, Columns(e.fields), row) && RowRefers(db, Columns(e.fields), row)
  {
    hide Satisfies, Stored, RefersToRow, ColumnDef, Columns;
    var cols := Columns(e.fields);
    assert cols.Keys == FieldIds(e.fields) by {
      ColumnKeys(e);
    }
    forall c | c in cols
      ensures Stored(p, cols[c].affinity, row.cells[c]) == row.cells[c] && Satisfies(p, c, cols[c], row.cells[c])
      ensures cols[c].fk.Some? ==> RefersToRow(db, cols[c].fk.value.target, row.cells[c])
    {
      ColumnById(e, c);
      ForeignKeyOf(FieldById(e.fields, c).value);
    }
  }

  lemma ColumnKeys(e: Entity)
    ensures Columns(e.fields).Keys == FieldIds(e.fields)
  {
    hide ColumnDef;
  }

  lemma WrittenFits(p: Platform, db: Db, e: Entity, f: Field, values: GoRow)
    requires f.name in values ==> Fits(p, db, f, values[f.name])
    requires f.name !in values ==> !f.required && Readable(p, f.id)
    ensures CellFits(p, db, f, Written(p, e, f, values))
  {
    if f.name !in values {
      NullFits(p, db, f);
    }
  }

  /** A body that create accepts makes a row that meets every constraint of the entity's DDL. */
  lemma CreatedRowFits(env: Env, db: Db, app: App, e: Entity, body: map<string, Json>, stamp: Stamp)
    requires ValidEntity(app.entities, e) && AllReadable(env.p, e)
    requires FieldValues(env, db, app, e.fields, body, true).issues == []
    ensures var row := Row(stamp.now, stamp.now, InsertedCells(env.p, e, FieldValues(env, db, app, e.fields, body, true).values));
            RowOk(env.p, Columns(e.fields), row) && RowRefers(db, Columns(e.fields), row)
  {
    hide Fits, CellFits, FieldValues, ValidField, Written, Columns, RowOk, RowRefers;
    var values := FieldValues(env, db, app, e.fields, body, true).values;
    var row := Row(stamp.now, stamp.now, InsertedCells(env.p, e, values));
    forall f | f in e.fields ensures f.id in row.cells && CellFits(env.p, db, f, row.cells[f.id]) {
      FieldByIdFinds(e.fields, f);
      IdOfField(e.fields, f);
      BodyFits(env, db, app, e, body, true, f);
      WrittenFits(env.p, db, e, f, values);
    }
    CellsMakeRow(env.p, db, e, row);
  }

  lemma OldCellFits(p: Platform, db: Db, e: Entity, row: Row, f: Field)
    requires DistinctFieldIds(e.fields) && f in e.fields
    requires RowOk(p, Columns(e.fields), row) && RowRefers(db, Columns(e.fields), row)
    ensures f.id in row.cells && CellFits(p, db, f, row.cells[f.id])
  {
    hide Satisfies, Stored, RefersToRow, Columns, FieldIds;
    ColumnOfField(e.fields, f);
    ForeignKeyOf(f);
  }

  lemma UpdatedCellFits(env: Env, db: Db, app: App, e: Entity, body: map<string, Json>, before: Row, f: Field)
    requires ValidEntity(app.entities, e) && f in e.fields && Readable(env.p, f.id)
    requires RowOk(env.p, Columns(e.fields), before) && RowRefers(db, Columns(e.fields), before)
    requires FieldValues(env, db, app, e.fields, body, false).issues == []
    ensures var cells := UpdatedCells(env.p, e, FieldValues(env, db, app, e.fields, body, false).values, before.cells);
            f.id in cells && CellFits(env.p, db, f, cells[f.id])
  {
    hide Fits, CellFits, FieldValues, ValidField, Written, RowOk, RowRefers, Columns;
    var values := FieldValues(env, db, app, e.fields, body, false).values;
    FieldByIdFinds(e.fields, f);
    OldCellFits(env.p, db, e, before, f);
    BodyFits(env, db, app, e, body, false, f);
    if f.name in values {
      WrittenFits(env.p, db, e, f, values);
    }
  }

  /** A partial body that update accepts keeps every constraint of the row it changes. */
  lemma UpdatedRowFits(env: Env, db: Db, app: App, e: Entity, body: map<string, Json>, stamp: Stamp, before: Row)
    requires ValidEntity(app.entities, e) && AllReadable(env.p, e)
    requires RowOk(env.p, Columns(e.fields), before) && RowRefers(db, Columns(e.fields), before)
    requires FieldValues(env, db, app, e.fields, body, false).issues == []
    ensures var row := Row(before.created, stamp.now,
                           UpdatedCells(env.p, e, FieldValues(env, db, app, e.fields, body, false).values, before.cells));
            RowOk(env.p, Columns(e.fields), row) && RowRefers(db, Columns(e.fields), row)
  {
    hide CellFits, FieldValues, ValidEntity, Written, RowOk, RowRefers, Columns;
    var values := FieldValues(env, db, app, e.fields, body, false).values;
    var row := Row(before.created, stamp.now, UpdatedCells(env.p, e, values, before.cells));
    RowKeys(env.p, e, before);
    assert row.cells.Keys == before.cells.Keys;
    forall f | f in e.fields ensures f.id in row.cells && CellFits(env.p, db, f, row.cells[f.id]) {
      UpdatedCellFits(env, db, app, e, body, before, f);
    }
    CellsMakeRow(env.p, db, e, row);
  }

  lemma RowKeys(p: Platform, e: Entity, row: Row)
    requires RowOk(p, Columns(e.fields), row)
    ensures row.cells.Keys == FieldIds(e.fields)
  {
  }

  // ----- whole databases -----

  /** The database has exactly the manifest's catalogue, in columns that read as themselves, and its rows meet every constraint. */
  predicate Sound(p: Platform, db: Db, app: App) {
    && CatalogueIs(db, app) && DbOk(p, db) && ForeignKeysHold(db)
    && forall e | e in app.entities :: AllReadable(p, e)
  }

  lemma SoundIsReadable(p: Platform, db: Db, app: App, e: Entity)
    requires Sound(p, db, app) && e in app.entities
    ensures AllReadable(p, e)
  {
  }

  lemma TableOf(p: Platform, db: Db, app: App, e: Entity)
    requires Sound(p, db, app) && e in app.entities
    ensures e.id in db.tables && db.tables[e.id].cols == Columns(e.fields) && TableOk(p, db.tables[e.id])
  {
    assert e.id in EntityIds(app.entities);
    assert Matches(db.tables[e.id], e);
  }

  lemma AddedRowRefers(db: Db, table: string, id: string, cols: map<string, Column>, row: Row, other: Row)
    requires table in db.tables && RowRefers(db, cols, other)
    ensures RowRefers(WithRow(db, table, id, row), cols, other)
  {
  }

  /** A row that meets its constraints can only be refused for a duplicate. */
  lemma WriteOnlyConflicts(p: Platform, db: Db, app: App, e: Entity, id: string, row: Row)
    requires Sound(p, db, app) && e in app.entities
    requires RowOk(p, Columns(e.fields), row) && RowRefers(db, Columns(e.fields), row)
    ensures WriteFault(p, db, e.id, id, row).None? || WriteFault(p, db, e.id, id, row) == Some(UniqueConflict)
  {
    hide RowOk, RowRefers, Columns, Sound, NoDuplicates, WithRow;
    TableOf(p, db, app, e);
    AddedRowRefers(db, e.id, id, Columns(e.fields), row, row);
  }

  lemma WrittenTableOk(p: Platform, db: Db, table: string, id: string, row: Row)
    requires table in db.tables && TableOk(p, db.tables[table]) && WriteFault(p, db, table, id, row).None?
    ensures TableOk(p, WithRow(db, table, id, row).tables[table])
  {
    hide RowOk, RowRefers, NoDuplicates;
  }

  lemma ForeignKeysOfRows(db: Db)
    ensures ForeignKeysHold(db) <==>
            forall t, r | t in db.tables && r in db.tables[t].rows :: RowRefers(db, db.tables[t].cols, db.tables[t].rows[r])
  {
    hide RefersToRow;
    if forall t, r | t in db.tables && r in db.tables[t].rows :: RowRefers(db, db.tables[t].cols, db.tables[t].rows[r]) {
      forall t, r, c | t in db.tables && r in db.tables[t].rows && c in db.tables[t].cols
                       && db.tables[t].cols[c].fk.Some? && c in db.tables[t].rows[r].cells
        ensures RefersToRow(db, db.tables[t].cols[c].fk.value.target, db.tables[t].rows[r].cells[c])
      {
        assert RowRefers(db, db.tables[t].cols, db.tables[t].rows[r]);
      }
    }
  }

  lemma WrittenReferences(p: Platform, db: Db, table: string, id: string, row: Row)
    requires table in db.tables && ForeignKeysHold(db) && WriteFault(p, db, table, id, row).None?
    ensures ForeignKeysHold(WithRow(db, table, id, row))
  {
    hide RowOk, RowRefers, NoDuplicates, ForeignKeysHold;
    var after := WithRow(db, table, id, row);
    ForeignKeysOfRows(db);
    ForeignKeysOfRows(after);
    forall t, r | t in after.tables && r in after.tables[t].rows
      ensures RowRefers(after, after.tables[t].cols, after.tables[t].rows[r])
    {
      if !(t == table && r == id) {
        AddedRowRefers(db, table, id, after.tables[t].cols, row, after.tables[t].rows[r]);
      }
    }
  }

  lemma WriteStaysSound(p: Platform, db: Db, app: App, e: Entity, id: string, row: Row)
    requires Sound(p, db, app) && e in app.entities && WriteFault(p, db, e.id, id, row).None?
    ensures e.id in db.tables && Sound(p, WithRow(db, e.id, id, row), app)
  {
    hide RowOk, RowRefers, NoDuplicates, ForeignKeysHold, Columns, WriteFault, TableOk;
    TableOf(p, db, app, e);
    WrittenTableOk(p, db, e.id, id, row);
    WrittenReferences(p, db, e.id, id, row);
    var after := WithRow(db, e.id, id, row);
    assert after.tables.Keys == db.tables.Keys;
  }

  /**
   * The DDL's NOT NULL, CHECKs and foreign keys never reject a create: once the body passes
   * coercion, only a duplicate can refuse it, and the rows stay sound.
   */
  lemma CreateOnlyConflicts(env: Env, db: Db, app: App, e: Entity, body: map<string, Json>, stamp: Stamp)
    requires ValidApp(app) && e in app.entities && Sound(env.p, db, app)
    ensures var (after, r) := Created(env, db, app, e, body, stamp);
            && Sound(env.p, after, app)
            && (r.Ok? || r.error.Validation? || r.error == UniqueConflict)
            && (r.Err? ==> after == db)
  {
    hide FieldValues, WriteFault, Sound, AllReadable, ValidEntity, InsertedCells, RowOk, RowRefers, Columns;
    if FieldValues(env, db, app, e.fields, body, true).issues == [] {
      var row := Row(stamp.now, stamp.now, InsertedCells(env.p, e, FieldValues(env, db, app, e.fields, body, true).values));
      SoundIsReadable(env.p, db, app, e);
      CreatedRowFits(env, db, app, e, body, stamp);
      WriteOnlyConflicts(env.p, db, app, e, stamp.id, row);
      if WriteFault(env.p, db, e.id, stamp.id, row).None? {
        WriteStaysSound(env.p, db, app, e, stamp.id, row);
      }
    }
  }

  lemma RowOfTable(p: Platform, db: Db, app: App, e: Entity, id: string)
    requires Sound(p, db, app) && e in app.entities && e.id in db.tables && id in db.tables[e.id].rows
    ensures RowOk(p, Columns(e.fields), db.tables[e.id].rows[id])
    ensures RowRefers(db, Columns(e.fields), db.tables[e.id].rows[id])
  {
    hide RowOk, RowRefers, Columns, NoDuplicates, ForeignKeysHold;
    TableOf(p, db, app, e);
    ForeignKeysOfRows(db);
  }

  /** Nor an update: only validation, an absent row or a duplicate can refuse it. */
  lemma UpdateOnlyConflicts(env: Env, db: Db, app: App, e: Entity, id: string, body: map<string, Json>, stamp: Stamp)
    requires ValidApp(app) && e in app.entities && Sound(env.p, db, app)
    ensures var (after, r) := Updated(env, db, app, e, id, body, stamp);
            && Sound(env.p, after, app)
            && (r.Ok? || r.error.Validation? || r.error == UniqueConflict || r.error == RowNotFound)
            && (r.Err? ==> after == db)
  {
    hide FieldValues, WriteFault, Sound, AllReadable, ValidEntity, UpdatedCells, RowOk, RowRefers, Columns;
    TableOf(env.p, db, app, e);
    if id in db.tables[e.id].rows && FieldValues(env, db, app, e.fields, body, false).issues == [] {
      var before := db.tables[e.id].rows[id];
      var row := Row(before.created, stamp.now, UpdatedCells(env.p, e, FieldValues(env, db, app, e.fields, body, false).values, before.cells));
      RowOfTable(env.p, db, app, e, id);
      SoundIsReadable(env.p, db, app, e);
      UpdatedRowFits(env, db, app, e, body, stamp, before);
      WriteOnlyConflicts(env.p, db, app, e, id, row);
      if WriteFault(env.p, db, e.id, id, row).None? {
        WriteStaysSound(env.p, db, app, e, id, row);
      }
    }
  }

  // ----- deletes -----

  /** A cell after a delete: as it was, or a nullable reference set to null. */
  predicate KeptOrNulled(c: Column, before: Value, after: Value) {
    after == before || (c.fk.Some? && !c.notNull && after.NULL?)
  }

  predicate TableAfterDelete(before: Table, after: Table) {
    && after.cols == before.cols && after.indexes == before.indexes && after.inline == before.inline
    && forall r | r in after.rows ::
         && r in before.rows && after.rows[r].cells.Keys == before.rows[r].cells.Keys
         && forall c | c in after.rows[r].cells && c in before.cols ::
              KeptOrNulled(before.cols[c], before.rows[r].cells[c], after.rows[r].cells[c])
  }

  /** SQLite's foreign-key actions: rows go, nullable references become null, none is left dangling. */
  predicate FaithfulDelete(db: Db, table: string, id: string, after: Db) {
    && after.fingerprint == db.fingerprint && after.tables.Keys == db.tables.Keys
    && (forall t | t in db.tables :: TableAfterDelete(db.tables[t], after.tables[t]))
    && (table in after.tables ==> id !in after.tables[table].rows)
    && (ForeignKeysHold(db) ==> ForeignKeysHold(after))
  }

  ghost predicate FaithfulDeletes(env: Env) {
    forall db, table, id :: env.deleted(db, table, id).Ok? ==> FaithfulDelete(db, table, id, env.deleted(db, table, id).value)
  }

  lemma NulledCellOk(p: Platform, name: string, c: Column, before: Value, after: Value)
    requires KeptOrNulled(c, before, after) && Stored(p, c.affinity, before) == before && Satisfies(p, name, c, before)
    ensures Stored(p, c.affinity, after) == after && Satisfies(p, name, c, after)
  {
  }

  lemma DeletedTableOk(p: Platform, before: Table, after: Table)
    requires TableOk(p, before) && TableAfterDelete(before, after)
    ensures TableOk(p, after)
  {
    hide Stored, Satisfies, KeptOrNulled;
    forall r | r in after.rows ensures RowOk(p, after.cols, after.rows[r]) {
      assert RowOk(p, before.cols, before.rows[r]);
      forall c | c in after.cols
        ensures Stored(p, after.cols[c].affinity, after.rows[r].cells[c]) == after.rows[r].cells[c]
                && Satisfies(p, c, after.cols[c], after.rows[r].cells[c])
      {
        NulledCellOk(p, c, before.cols[c], before.rows[r].cells[c], after.rows[r].cells[c]);
      }
    }
    forall c | c in after.indexes ensures c in after.cols && NoDuplicates(after.rows, c) {
      DeletedKeepsUnique(before, after, c);
    }
  }

  lemma DeletedKeepsUnique(before: Table, after: Table, c: string)
    requires TableAfterDelete(before, after) && c in before.cols && NoDuplicates(before.rows, c)
    ensures NoDuplicates(after.rows, c)
  {
    forall i, j | i in after.rows && j in after.rows && i != j && c in after.rows[i].cells && c in after.rows[j].cells
                  && after.rows[i].cells[c] == after.rows[j].cells[c]
      ensures after.rows[i].cells[c].NULL?
    {
      assert KeptOrNulled(before.cols[c], before.rows[i].cells[c], after.rows[i].cells[c]);
      assert KeptOrNulled(before.cols[c], before.rows[j].cells[c], after.rows[j].cells[c]);
    }
  }

  lemma DeleteStaysSound(env: Env, db: Db, app: App, e: Entity, id: string)
    requires FaithfulDeletes(env) && Sound(env.p, db, app)
    ensures Sound(env.p, Deleted(env, db, e, id).0, app)
  {
    hide TableOk, TableAfterDelete, ForeignKeysHold, Columns, Indexes;
    var after := Deleted(env, db, e, id).0;
    if after != db {
      assert FaithfulDelete(db, e.id, id, after);
      forall t | t in db.tables
        ensures TableOk(env.p, after.tables[t]) && after.tables[t].cols == db.tables[t].cols
        ensures after.tables[t].indexes == db.tables[t].indexes
      {
        DeletedTableOk(env.p, db.tables[t], after.tables[t]);
        SameShape(db.tables[t], after.tables[t]);
      }
      forall e | e in app.entities ensures e.id in db.tables {
        assert e.id in EntityIds(app.entities);
      }
    }
  }

  lemma SameShape(before: Table, after: Table)
    requires TableAfterDelete(before, after)
    ensures after.cols == before.cols && after.indexes == before.indexes
  {
  }

  // ----- runs of calls -----

  datatype RowEvent =
    | CreateRow(e: Entity, body: map<string, Json>, stamp: Stamp)
    | UpdateRow(e: Entity, id: string, body: map<string, Json>, stamp: Stamp)
    | DeleteRow(e: Entity, id: string)
    | GetRow(e: Entity, id: string)
    | ListRows(e: Entity, filters: set<Filter>)

  function RowStep(env: Env, db: Db, app: App, event: RowEvent): Db {
    match event
    case CreateRow(e, body, stamp) => Created(env, db, app, e, body, stamp).0
    case UpdateRow(e, id, body, stamp) => Updated(env, db, app, e, id, body, stamp).0
    case DeleteRow(e, id) => Deleted(env, db, e, id).0
    case _ => db
  }

  function RowRun(env: Env, db: Db, app: App, events: seq<RowEvent>): Db {
    if events == [] then db
    else RowStep(env, RowRun(env, db, app, events[..|events| - 1]), app, events[|events| - 1])
  }

  /** Over any sequence of creates, reads, lists, updates and deletes, every row meets every constraint of the DDL. */
  lemma {:induction false} RowsStaySound(env: Env, db: Db, app: App, events: seq<RowEvent>)
    requires ValidApp(app) && FaithfulDeletes(env) && Sound(env.p, db, app)
    requires forall event | event in events :: event.e in app.entities
    ensures Sound(env.p, RowRun(env, db, app, events), app)
  {
    hide Sound, ValidApp, FaithfulDeletes, Created, Updated, Deleted;
    if events != [] {
      var before := RowRun(env, db, app, events[..|events| - 1]);
      RowsStaySound(env, db, app, events[..|events| - 1]);
      assert events[|events| - 1] in events;
      match events[|events| - 1] {
        case CreateRow(e, body, stamp) => CreateOnlyConflicts(env, before, app, e, body, stamp);
        case UpdateRow(e, id, body, stamp) => UpdateOnlyConflicts(env, before, app, e, id, body, stamp);
        case DeleteRow(e, id) => DeleteStaysSound(env, before, app, e, id);
        case _ =>
      }
    }
  }
}

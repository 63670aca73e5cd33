/** When a create or an update succeeds, and what it answers when it does not. */
module WriteOutcomes {
  import opened Results
  import opened Schema
  import opened Sql
  import opened Materialize
  import opened RowCodec
  import opened Listing
  import opened DomainOps
  import opened DomainSound
  import opened FieldMeaning
  import opened SentValues
  import opened ListOrder

  // ----- duplicates -----

  /** Another row reads the same in a unique field, and not null. */
  predicate Clashes(e: Entity, rows: map<string, Row>, id: string, row: Row) {
    exists f, r | f in e.fields && f.unique && r in rows && r != id :: SameRead(e, f, r, rows[r], id, row)
  }

  predicate SameRead(e: Entity, f: Field, r: string, other: Row, id: string, row: Row) {
    var x, y := ReadRow(e, r, other), ReadRow(e, id, row);
    f.name in x && f.name in y && x[f.name] == y[f.name] && !y[f.name].Nil?
  }

  /** What is read of a column that holds no booleans tells what it holds. */
  lemma ReadTellsCell(e: Entity, f: Field, v: Value, w: Value)
    requires NamedFields(e) && f in e.fields && !f.typ.Boolean?
    ensures Decode(e, f.name, v) == Decode(e, f.name, w) <==> v == w
    ensures Decode(e, f.name, v).Nil? <==> v.NULL?
  {
    FieldByNameFinds(e.fields, f);
  }

  lemma SameReadIsSameCell(e: Entity, f: Field, r: string, other: Row, id: string, row: Row)
    requires NamedFields(e) && f in e.fields && !f.typ.Boolean? && f.id in other.cells && f.id in row.cells
    ensures SameRead(e, f, r, other, id, row) <==> other.cells[f.id] == row.cells[f.id] && !row.cells[f.id].NULL?
  {
    hide ReadRow, Decode, NamedFields;
    ReadField(e, r, other, f);
    ReadField(e, id, row, f);
    ReadTellsCell(e, f, other.cells[f.id], row.cells[f.id]);
  }

  lemma DuplicateInColumn(rows: map<string, Row>, id: string, row: Row, col: string)
    requires NoDuplicates(rows, col) && col in row.cells && forall r | r in rows :: col in rows[r].cells
    ensures NoDuplicates(rows[id := row], col) <==>
            forall r | r in rows && r != id :: rows[r].cells[col] == row.cells[col] ==> row.cells[col].NULL?
  {
    var after := rows[id := row];
    if NoDuplicates(after, col) {
      forall r | r in rows && r != id && rows[r].cells[col] == row.cells[col] ensures row.cells[col].NULL? {
        assert after[r] == rows[r] && after[id] == row;
      }
    }
  }

  /** The unique indexes accept a row if and only if it reads like no other row in a unique field. */
  lemma IndexesRefuseClashes(p: Platform, db: Db, app: App, e: Entity, id: string, row: Row)
    requires ValidApp(app) && e in app.entities && Sound(p, db, app) && RowOk(p, Columns(e.fields), row)
    ensures e.id in db.tables
    ensures (forall c | c in db.tables[e.id].indexes :: NoDuplicates(db.tables[e.id].rows[id := row], c))
            <==> !Clashes(e, db.tables[e.id].rows, id, row)
  {
    hide Sound, ValidApp, NoDuplicates, SameRead, IsIdentifier, Stored, Satisfies, ColumnDef;
    TableOf(p, db, app, e);
    IndexesOfTable(p, db, app, e);
    ValidMember(app, e);
    var t := db.tables[e.id];
    forall f | f in e.fields && f.unique
      ensures f.id in t.indexes && NoDuplicates(t.rows, f.id)
      ensures NoDuplicates(t.rows[id := row], f.id) <==>
              forall r | r in t.rows && r != id :: !SameRead(e, f, r, t.rows[r], id, row)
    {
      ColumnOfField(e.fields, f);
      forall r | r in t.rows ensures f.id in t.rows[r].cells {
        assert RowOk(p, t.cols, t.rows[r]);
      }
      DuplicateInColumn(t.rows, id, row, f.id);
      forall r | r in t.rows && r != id {
        SameReadIsSameCell(e, f, r, t.rows[r], id, row);
      }
    }
    forall c | c in t.indexes ensures exists f :: f in e.fields && f.unique && f.id == c {
    }
  }

  lemma IndexesOfTable(p: Platform, db: Db, app: App, e: Entity)
    requires Sound(p, db, app) && e in app.entities && e.id in db.tables
    ensures db.tables[e.id].indexes == Indexes(e.id, e.fields)
  {
    hide DbOk, ForeignKeysHold, Columns, Indexes, AllReadable;
  }

  lemma ValidMember(app: App, e: Entity)
    requires ValidApp(app) && e in app.entities
    ensures ValidEntity(app.entities, e) && NamedFields(e)
    ensures forall f | f in e.fields && f.unique :: !f.typ.Boolean?
  {
    hide IsIdentifier, CheckedField;
  }

  // ----- create -----

  /** Nothing is wrong with any field of the body. */
  ghost predicate Acceptable(env: Env, db: Db, app: App, e: Entity, body: map<string, Json>, onCreate: bool) {
    forall f, problem | f in e.fields :: !Wrong(env, db, app, f, body, onCreate, problem)
  }

  /** The error lists exactly what is wrong with the body. */
  ghost predicate ListsIssues(env: Env, db: Db, app: App, e: Entity, body: map<string, Json>, onCreate: bool, error: OpError) {
    error.Validation? &&
    forall issue :: issue in error.issues <==>
      exists f | f in e.fields :: issue.field == f.name && Wrong(env, db, app, f, body, onCreate, issue.problem)
  }

  lemma AcceptableHasNoIssues(env: Env, db: Db, app: App, e: Entity, body: map<string, Json>, onCreate: bool)
    ensures var issues := FieldValues(env, db, app, e.fields, body, onCreate).issues;
            && (issues == [] <==> Acceptable(env, db, app, e, body, onCreate))
            && ListsIssues(env, db, app, e, body, onCreate, Validation(Members(issues)))
  {
    hide FieldValues, Wrong;
    IssuesAreExact(env, db, app, e.fields, body, onCreate);
    var issues := FieldValues(env, db, app, e.fields, body, onCreate).issues;
    if issues != [] {
      assert issues[0] in issues;
    }
    if !Acceptable(env, db, app, e, body, onCreate) {
      var f, problem :| f in e.fields && Wrong(env, db, app, f, body, onCreate, problem);
      assert Issue(f.name, problem) in issues;
    }
  }

  /** A value that a unique field of the new row is to hold is some row's already. */
  ghost predicate InitialIsTaken(env: Env, db: Db, app: App, e: Entity, body: map<string, Json>)
    requires e.id in db.tables
  {
    exists f, v, r | f in e.fields && f.unique && r in db.tables[e.id].rows ::
      Initial(env, db, app, f, body, v) && !v.Nil? && ReadsAs(e, r, db.tables[e.id].rows[r], f, v)
  }

  /** The row reads as this value in the field. */
  predicate ReadsAs(e: Entity, id: string, row: Row, f: Field, v: GoValue) {
    f.name in ReadRow(e, id, row) && ReadRow(e, id, row)[f.name] == v
  }

  lemma InitialIsOne(env: Env, db: Db, app: App, f: Field, body: map<string, Json>, v: GoValue, w: GoValue)
    requires Initial(env, db, app, f, body, v) && Initial(env, db, app, f, body, w)
    ensures v == w
  {
    hide FieldValue, Initial;
    FieldCreates(env, db, app, f, body, v);
    FieldCreates(env, db, app, f, body, w);
  }

  lemma CreateClashes(env: Env, db: Db, app: App, e: Entity, body: map<string, Json>, stamp: Stamp)
    requires ValidEntity(app.entities, e) && e.id in db.tables && stamp.id !in db.tables[e.id].rows
    requires FieldValues(env, db, app, e.fields, body, true).issues == []
    ensures var row := Row(stamp.now, stamp.now, InsertedCells(env.p, e, FieldValues(env, db, app, e.fields, body, true).values));
            Clashes(e, db.tables[e.id].rows, stamp.id, row) <==> InitialIsTaken(env, db, app, e, body)
  {
    hide FieldValues, ReadRow, InsertedCells, Initial, ValidEntity;
    var rows := db.tables[e.id].rows;
    var row := Row(stamp.now, stamp.now, InsertedCells(env.p, e, FieldValues(env, db, app, e.fields, body, true).values));
    forall f | f in e.fields {
      CreatedFieldReads(env, db, app, e, body, stamp, f);
    }
    if Clashes(e, rows, stamp.id, row) {
      var f, r :| f in e.fields && f.unique && r in rows && r != stamp.id && SameRead(e, f, r, rows[r], stamp.id, row);
      assert ReadsAs(e, r, rows[r], f, ReadRow(e, stamp.id, row)[f.name]);
    }
    if InitialIsTaken(env, db, app, e, body) {
      var f, v, r :| f in e.fields && f.unique && r in rows && Initial(env, db, app, f, body, v) && !v.Nil? && ReadsAs(e, r, rows[r], f, v);
      InitialIsOne(env, db, app, f, body, v, ReadRow(e, stamp.id, row)[f.name]);
      assert SameRead(e, f, r, rows[r], stamp.id, row);
    }
  }

  lemma WriteFaultIsClash(p: Platform, db: Db, app: App, e: Entity, id: string, row: Row)
    requires ValidApp(app) && e in app.entities && Sound(p, db, app)
    requires RowOk(p, Columns(e.fields), row) && RowRefers(db, Columns(e.fields), row)
    ensures e.id in db.tables
    ensures WriteFault(p, db, e.id, id, row) == if Clashes(e, db.tables[e.id].rows, id, row) then Some(UniqueConflict) else None
  {
    hide RowOk, RowRefers, Columns, Sound, NoDuplicates, ValidApp, Clashes;
    TableOf(p, db, app, e);
    IndexesRefuseClashes(p, db, app, e, id, row);
    AddedRowRefers(db, e.id, id, Columns(e.fields), row, row);
  }

  /**
   * What create answers. A body with something wrong is refused with everything that is wrong;
   * any other body creates its row unless the id is taken, or a unique field's value is.
   */
  lemma CreateOutcome(env: Env, db: Db, app: App, e: Entity, body: map<string, Json>, stamp: Stamp)
    requires ValidApp(app) && e in app.entities && Sound(env.p, db, app)
    ensures e.id in db.tables
    ensures var (after, r) := Created(env, db, app, e, body, stamp);
            if !Acceptable(env, db, app, e, body, true) then after == db && r.Err? && ListsIssues(env, db, app, e, body, true, r.error)
            else if stamp.id in db.tables[e.id].rows || InitialIsTaken(env, db, app, e, body) then after == db && r == Err(UniqueConflict)
            else r.Ok?
  {
    hide FieldValues, WriteFault, Sound, AllReadable, ValidEntity, InsertedCells, RowOk, RowRefers, Columns, InitialIsTaken, Acceptable, ListsIssues, ReadRow, Clashes;
    AcceptableHasNoIssues(env, db, app, e, body, true);
    TableOf(env.p, db, app, e);
    if FieldValues(env, db, app, e.fields, body, true).issues == [] {
      var row := Row(stamp.now, stamp.now, InsertedCells(env.p, e, FieldValues(env, db, app, e.fields, body, true).values));
      SoundIsReadable(env.p, db, app, e);
      CreatedRowFits(env, db, app, e, body, stamp);
      WriteFaultIsClash(env.p, db, app, e, stamp.id, row);
      if stamp.id !in db.tables[e.id].rows {
        CreateClashes(env, db, app, e, body, stamp);
      }
    }
  }

  // ----- update -----

  /** A value that a unique field of the row is to hold is another row's already. */
  ghost predicate NextIsTaken(env: Env, db: Db, app: App, e: Entity, id: string, body: map<string, Json>)
    requires e.id in db.tables && id in db.tables[e.id].rows
  {
    exists f, v, r | f in e.fields && f.unique && r in db.tables[e.id].rows && r != id ::
      ChangesTo(env, db, app, e, id, body, f, v) && !v.Nil? && ReadsAs(e, r, db.tables[e.id].rows[r], f, v)
  }

  predicate ChangesTo(env: Env, db: Db, app: App, e: Entity, id: string, body: map<string, Json>, f: Field, v: GoValue)
    requires e.id in db.tables && id in db.tables[e.id].rows
  {
    var was := ReadRow(e, id, db.tables[e.id].rows[id]);
    f.name in was && Next(env, db, app, f, body, was[f.name], v)
  }

  lemma NextIsOne(env: Env, db: Db, app: App, f: Field, body: map<string, Json>, before: GoValue, v: GoValue, w: GoValue)
    requires Next(env, db, app, f, body, before, v) && Next(env, db, app, f, body, before, w)
    ensures v == w
  {
    hide FieldValue, Next;
    FieldUpdates(env, db, app, f, body, before, v);
    FieldUpdates(env, db, app, f, body, before, w);
  }

  lemma UpdateClashes(env: Env, db: Db, app: App, e: Entity, id: string, body: map<string, Json>, now: string)
    requires ValidEntity(app.entities, e) && e.id in db.tables && id in db.tables[e.id].rows
    requires forall f | f in e.fields :: f.id in db.tables[e.id].rows[id].cells
    requires FieldValues(env, db, app, e.fields, body, false).issues == []
    ensures var before := db.tables[e.id].rows[id];
            var row := Row(before.created, now, UpdatedCells(env.p, e, FieldValues(env, db, app, e.fields, body, false).values, before.cells));
            Clashes(e, db.tables[e.id].rows, id, row) <==> NextIsTaken(env, db, app, e, id, body)
  {
    hide FieldValues, ReadRow, UpdatedCells, Next, ValidEntity;
    var rows, before := db.tables[e.id].rows, db.tables[e.id].rows[id];
    var row := Row(before.created, now, UpdatedCells(env.p, e, FieldValues(env, db, app, e.fields, body, false).values, before.cells));
    forall f | f in e.fields {
      UpdatedFieldReads(env, db, app, e, id, body, before, now, f);
    }
    if Clashes(e, rows, id, row) {
      var f, r :| f in e.fields && f.unique && r in rows && r != id && SameRead(e, f, r, rows[r], id, row);
      assert ChangesTo(env, db, app, e, id, body, f, ReadRow(e, id, row)[f.name]);
      assert ReadsAs(e, r, rows[r], f, ReadRow(e, id, row)[f.name]);
    }
    if NextIsTaken(env, db, app, e, id, body) {
      var f, v, r :| f in e.fields && f.unique && r in rows && r != id
        && ChangesTo(env, db, app, e, id, body, f, v) && !v.Nil? && ReadsAs(e, r, rows[r], f, v);
      NextIsOne(env, db, app, f, body, ReadRow(e, id, before)[f.name], v, ReadRow(e, id, row)[f.name]);
      assert SameRead(e, f, r, rows[r], id, row);
    }
  }

  lemma CellsOfFields(p: Platform, db: Db, app: App, e: Entity, id: string)
    requires ValidApp(app) && Sound(p, db, app) && e in app.entities && e.id in db.tables && id in db.tables[e.id].rows
    ensures forall f | f in e.fields :: f.id in db.tables[e.id].rows[id].cells
  {
    hide Sound, ValidApp, Columns, FieldIds;
    RowOfTable(p, db, app, e, id);
    RowKeys(p, e, db.tables[e.id].rows[id]);
    forall f | f in e.fields {
      IdOfField(e.fields, f);
    }
  }

  /**
   * What update answers: an absent row first, then everything wrong with the body, and otherwise the
   * row is changed unless a unique field's value is another row's.
   */
  lemma UpdateOutcome(env: Env, db: Db, app: App, e: Entity, id: string, body: map<string, Json>, stamp: Stamp)
    requires ValidApp(app) && e in app.entities && Sound(env.p, db, app)
    ensures e.id in db.tables
    ensures var (after, r) := Updated(env, db, app, e, id, body, stamp);
            if id !in db.tables[e.id].rows then after == db && r == Err(RowNotFound)
            else if !Acceptable(env, db, app, e, body, false) then after == db && r.Err? && ListsIssues(env, db, app, e, body, false, r.error)
            else if NextIsTaken(env, db, app, e, id, body) then after == db && r == Err(UniqueConflict)
            else r.Ok?
  {
    hide FieldValues, WriteFault, Sound, AllReadable, ValidEntity, UpdatedCells, RowOk, RowRefers, Columns, NextIsTaken, Acceptable, ListsIssues, ReadRow, Clashes;
    AcceptableHasNoIssues(env, db, app, e, body, false);
    TableOf(env.p, db, app, e);
    if id in db.tables[e.id].rows && FieldValues(env, db, app, e.fields, body, false).issues == [] {
      var before := db.tables[e.id].rows[id];
      var row := Row(before.created, stamp.now, UpdatedCells(env.p, e, FieldValues(env, db, app, e.fields, body, false).values, before.cells));
      RowOfTable(env.p, db, app, e, id);
      SoundIsReadable(env.p, db, app, e);
      UpdatedRowFits(env, db, app, e, body, stamp, before);
      WriteFaultIsClash(env.p, db, app, e, id, row);
      CellsOfFields(env.p, db, app, e, id);
      UpdateClashes(env, db, app, e, id, body, stamp.now);
    }
  }

  // ----- delete -----

  /**
   * What delete answers, given that SQLite keeps its word: an absent row is reported, a present one is
   * gone afterwards, and where foreign keys stand in the way nothing changes.
   */
  lemma DeleteOutcome(env: Env, db: Db, app: App, e: Entity, id: string)
    requires FaithfulDeletes(env) && e in app.entities && Sound(env.p, db, app)
    ensures e.id in db.tables
    ensures var (after, r) := Deleted(env, db, e, id);
            match r
            case Ok(deleted) =>
              && deleted && id in db.tables[e.id].rows && e.id in after.tables && id !in after.tables[e.id].rows
              && after.tables.Keys == db.tables.Keys
              && forall t | t in db.tables :: TableAfterDelete(db.tables[t], after.tables[t])
            case Err(error) =>
              && after == db
              && (error == RowNotFound <==> id !in db.tables[e.id].rows)
              && (error == ReferenceConflict <==> id in db.tables[e.id].rows && env.deleted(db, e.id, id) == Err(ForeignKeyConflict))
  {
    hide Sound, TableAfterDelete;
    TableOf(env.p, db, app, e);
    if id in db.tables[e.id].rows && env.deleted(db, e.id, id).Ok? {
      assert FaithfulDelete(db, e.id, id, env.deleted(db, e.id, id).value);
    }
  }

  // ----- get -----

  lemma ReadIsCell(p: Platform, e: Entity, id: string, row: Row, f: Field)
    requires NamedFields(e) && AllReadable(p, e) && RowOk(p, Columns(e.fields), row) && f in e.fields
    ensures f.name in ReadRow(e, id, row) && Encode(ReadRow(e, id, row)[f.name]) == Cell(row.cells, f.id)
  {
    hide ReadRow, Decode, Columns, Encode, InDomain, Cell, RowOk;
    var x := Entry(id, row);
    assert StoredRow(p, e, x) by { RowIsStored(p, e, x); }
    FieldByNameFinds(e.fields, f);
    if f.typ.Boolean? {
      BooleanCell(p, e, x, f);
      NotReservedColumn(e, x, f);
    }
    ReadField(e, id, row, f);
    EncodeDecode(e, f.name, Cell(row.cells, f.id));
  }

  lemma RowIsStored(p: Platform, e: Entity, x: Entry)
    requires RowOk(p, Columns(e.fields), x.row)
    ensures StoredRow(p, e, x)
  {
    hide RowOk;
  }

  lemma NotReservedColumn(e: Entity, x: Entry, f: Field)
    requires NamedFields(e) && f in e.fields
    ensures Physical(x.id, x.row, f.id) == Cell(x.row.cells, f.id)
  {
  }

  /** What get answers: an absent row is reported; a present one is read, its id, its times and every field. */
  lemma GetOutcome(p: Platform, db: Db, app: App, e: Entity, id: string)
    requires ValidApp(app) && e in app.entities && Sound(p, db, app)
    ensures e.id in db.tables
    ensures match Got(db, e, id)
            case Err(error) => error == RowNotFound && id !in db.tables[e.id].rows
            case Ok(read) =>
              && id in db.tables[e.id].rows
              && var row := db.tables[e.id].rows[id];
              && read.Keys == FieldNames(e.fields) + PlatformColumns()
              && read["id"] == Str(id) && read["created_at"] == Str(row.created) && read["updated_at"] == Str(row.updated)
              && forall f | f in e.fields :: f.name in read && Encode(read[f.name]) == Cell(row.cells, f.id)
  {
    hide Sound, ValidApp, FieldNames, Encode, Decode, PhysCol, Physical, Columns, RowOk;
    TableOf(p, db, app, e);
    if id in db.tables[e.id].rows {
      var row := db.tables[e.id].rows[id];
      ValidMember(app, e);
      SoundIsReadable(p, db, app, e);
      RowOfTable(p, db, app, e, id);
      PlatformReads(e, id, row);
      forall f | f in e.fields ensures f.name in ReadRow(e, id, row) && Encode(ReadRow(e, id, row)[f.name]) == Cell(row.cells, f.id) {
        ReadIsCell(p, e, id, row, f);
      }
    }
  }
}

/** The default of an added field, in the rows that were there and in the rows that come after. */
module Defaults {
  import opened Results
  import opened Schema
  import opened Sql
  import opened Materialize
  import opened Changesets
  import opened Witnesses
  import opened Diffs
  import opened Executor
  import opened Views
  import opened NativePath
  import opened ChangesetShape
  import opened Migration
  import WholeMigration
  import opened Reach
  import opened FastSlow
  import opened RowCodec
  import opened Listing
  import opened DomainOps
  import opened DomainSound

  /** The default is already in the form the data API would store it in. */
  predicate InStoredForm(p: Platform, f: Field)
    requires f.default.Some? && TypedDefault(f, f.default.value)
  {
    f.typ.Datetime? ==> var canonical := p.canonical(f.default.value.s); canonical.Some? ==> canonical.value == f.default.value.s
  }

  // ----- one value -----

  /** The literal in the DDL denotes the default as it is declared. */
  lemma LiteralIsDefault(p: Platform, f: Field)
    requires f.default.Some? && TypedDefault(f, f.default.value)
    ensures DefaultLiteral(p, f) == Encode(f.default.value)
  {
  }

  /**
   * The default the DDL gives existing rows and the default the data API gives new ones are the
   * same stored value, except for a datetime that is declared in another form than the canonical.
   */
  lemma DefaultsAgree(env: Env, f: Field)
    requires f.default.Some? && TypedDefault(f, f.default.value)
    ensures Stored(env.p, ColumnDef(f).affinity, DefaultLiteral(env.p, f))
            == Stored(env.p, ColumnDef(f).affinity, Encode(DefaultStoreValue(env, f)))
            <==> InStoredForm(env.p, f)
  {
    LiteralIsDefault(env.p, f);
  }

  // ----- a migrated table -----

  /** By either path, every old row holds an added field's literal default, in stored form. */
  lemma AddedCell(p: Platform, t: Table, after: Table, oe: Entity, ne: Entity, own: seq<Operation>, nf: Field, r: string)
    requires Migrated(p, t, after, oe, ne, own) && DistinctFieldIds(ne.fields)
    requires nf in ne.fields && nf.id !in FieldIds(oe.fields) && nf.id !in t.cols && nf.default.Some? && r in t.rows
    ensures r in after.rows && Cell(after.rows[r].cells, nf.id) == Stored(p, ColumnDef(nf).affinity, DefaultLiteral(p, nf))
  {
    hide ColumnDef, Stored, SqlLiteral, Columns, Indexes, NeedsRebuild, WitnessOf, Selectable, LosesInformation, AllRowsOk, RebuiltRow;
    FieldByIdFinds(ne.fields, nf);
    if NeedsRebuild(own) {
      RebuiltRowCell(p, oe.fields, ne.fields, own, t.rows[r], nf);
      assert after.rows[r] == RebuiltRow(p, oe.fields, ne.fields, own, t.rows[r]);
    } else {
      assert ViewOf(after, nf.id) == NativeView(p, ne.id, ne.fields, t, nf.id);
      assert CellsOf(after.rows, nf.id)[r] == Filled(p, nf, t.rows.Keys)[r];
    }
  }

  /** A row created without a field that has a default reads as the default, canonical if a datetime. */
  lemma CreatedReadsDefault(env: Env, db: Db, app: App, e: Entity, body: map<string, Json>, stamp: Stamp, f: Field)
    requires ValidEntity(app.entities, e) && f in e.fields && f.default.Some? && f.name !in body
    requires Created(env, db, app, e, body, stamp).1.Ok?
    ensures f.name in Created(env, db, app, e, body, stamp).1.value
    ensures Created(env, db, app, e, body, stamp).1.value[f.name] == DefaultStoreValue(env, f)
  {
    hide FieldValues, WriteFault, ReadRow, InsertedCells, ValidField, DefaultStoreValue, HasType, CoerceValue;
    var b := FieldValues(env, db, app, e.fields, body, true);
    BodyHoldsOutcomes(env, db, app, e.fields, body, true, f);
    DefaultHasType(env, db, app, f);
    InsertReadsBack(env.p, e, stamp.id, stamp.now, b.values, f);
  }

  lemma DefaultHasType(env: Env, db: Db, app: App, f: Field)
    requires ValidField(app.entities, f) && f.default.Some?
    ensures HasType(f, DefaultStoreValue(env, f)) && HasType(f, f.default.value)
  {
    match f.typ
    case Text =>
    case Integer =>
    case Real =>
    case Boolean =>
    case Datetime =>
    case Enum =>
    case Reference =>
  }

  lemma OldRowReadsDefault(p: Platform, app: App, e: Entity, f: Field, id: string, row: Row)
    requires ValidEntity(app.entities, e) && f in e.fields && f.default.Some?
    requires Cell(row.cells, f.id) == Stored(p, ColumnDef(f).affinity, DefaultLiteral(p, f))
    ensures f.name in ReadRow(e, id, row) && ReadRow(e, id, row)[f.name] == f.default.value
  {
    hide ColumnDef, Stored, Decode, ReadRow, DefaultLiteral, Encode, CheckedField, HasType;
    assert ValidField(app.entities, f);
    LiteralIsDefault(p, f);
    ReadField(e, id, row, f);
    TypedHasType(f, f.default.value);
    DecodeEncode(p, e, f, f.default.value);
  }

  lemma TypedHasType(f: Field, v: GoValue)
    requires TypedDefault(f, v)
    ensures HasType(f, v)
  {
  }

  lemma StoredFormExactly(env: Env, f: Field)
    requires f.default.Some? && TypedDefault(f, f.default.value)
    ensures f.default.value == DefaultStoreValue(env, f) <==> InStoredForm(env.p, f)
  {
  }

  /**
   * A field with a default, added by a migration, reads the same in a row that was there before
   * and in a row created afterwards without the field if and only if its default is in stored
   * form: neither path of the migration canonicalises a datetime, and the data API does.
   */
  lemma AddedDefaultReadsAlike(env: Env, db: Db, oldApp: App, newApp: App, ops: seq<Operation>, commits: bool,
                               oe: Entity, ne: Entity, nf: Field, r: string, body: map<string, Json>, stamp: Stamp)
    requires ValidApp(oldApp) && ValidApp(newApp) && NoNameClash(oldApp.entities, newApp.entities)
    requires CatalogueButBounds(db, oldApp) && WellShaped(db)
    requires SameChanges(ops, DiffOps(oldApp.entities, newApp.entities))
    requires Executed(env.p, db, oldApp, newApp, ops, commits).Ok?
    requires ne in newApp.entities && EntityById(oldApp.entities, ne.id) == Some(oe)
    requires nf in ne.fields && nf.id !in FieldIds(oe.fields) && nf.default.Some?
    requires ne.id in db.tables && r in db.tables[ne.id].rows && nf.name !in body
    requires Created(env, Executed(env.p, db, oldApp, newApp, ops, commits).value, newApp, ne, body, stamp).1.Ok?
    ensures var after := Executed(env.p, db, oldApp, newApp, ops, commits).value;
            var (_, created) := Created(env, after, newApp, ne, body, stamp);
            && TypedDefault(nf, nf.default.value)
            && ne.id in after.tables && r in after.tables[ne.id].rows
            && nf.name in ReadRow(ne, r, after.tables[ne.id].rows[r]) && nf.name in created.value
            && (ReadRow(ne, r, after.tables[ne.id].rows[r])[nf.name] == created.value[nf.name] <==> InStoredForm(env.p, nf))
  {
    hide DiffOps, Executed, Migrated, Created, ReadRow, NoNameClash, MatchesButBounds, WellShaped, InStoredForm, DefaultStoreValue, CheckedField, NamedFields, Stored, ColumnDef, DefaultLiteral;
    var after := Executed(env.p, db, oldApp, newApp, ops, commits).value;
    ExecuteReaches(env.p, db, oldApp, newApp, ops, commits);
    assert WholeMigration.Survived(env.p, db, after, oldApp.entities, ne, ops);
    assert ValidEntity(newApp.entities, ne) && ValidEntity(oldApp.entities, oe) && ValidField(newApp.entities, nf);
    assert oe.id in EntityIds(oldApp.entities);
    MatchingColumns(db.tables[ne.id], oe);
    AddedCell(env.p, db.tables[ne.id], after.tables[ne.id], oe, ne, OpsOf(ops, ne.id), nf, r);
    OldRowReadsDefault(env.p, newApp, ne, nf, r, after.tables[ne.id].rows[r]);
    CreatedReadsDefault(env, after, newApp, ne, body, stamp, nf);
    StoredFormExactly(env, nf);
  }
}

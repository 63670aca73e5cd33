/**
 * The row boundary of engine/store/store.go: logical field names over physical columns keyed by
 * stable id, and the conversion between Go values and SQLite storage classes.
 */
module RowCodec {
  import opened Results
  import opened Schema
  import opened Sql
  import opened Materialize
  import opened Changesets
  import opened Diffs
  import opened Executor
  import opened NativePath
  import opened DiffMembers
  import opened Reach
  import opened FingerprintDiff

  type GoRow = map<string, GoValue>

  // ----- names and columns -----

  /** physCol. */
  function PhysCol(e: Entity, logical: string): string {
    if IsReserved(logical) then logical
    else
      match FieldByName(e.fields, logical)
      case Some(f) => f.id
      case None => logical
  }

  /** What SQLite holds in a physical column of a row. */
  function Physical(id: string, row: Row, col: string): Value {
    if col == "id" then TEXT(id)
    else if col == "created_at" then TEXT(row.created)
    else if col == "updated_at" then TEXT(row.updated)
    else Cell(row.cells, col)
  }

  /** encode and the driver's binding: booleans become 0 or 1, everything else binds directly. */
  function Encode(v: GoValue): Value {
    match v
    case Nil => NULL
    case Str(s) => TEXT(s)
    case Int(i) => INTEGER(i)
    case Float(r) => REAL(r)
    case Bool(b) => if b then INTEGER(1) else INTEGER(0)
    case Rows(_) => NULL // never bound: no field holds rows
  }

  /** decode. */
  function Decode(e: Entity, col: string, v: Value): GoValue {
    var f := FieldByName(e.fields, col);
    match v
    case NULL => Nil
    case TEXT(s) => Str(s)
    case INTEGER(i) => if f.Some? && f.value.typ.Boolean? then Bool(i != 0) else Int(i)
    case REAL(r) => if f.Some? && f.value.typ.Boolean? then Bool(r != 0.0) else Float(r)
  }

  /** selectColumns. */
  method SelectColumns(e: Entity) returns (cols: seq<string>)
    ensures forall c :: c in cols <==> c in FieldNames(e.fields) + PlatformColumns()
  {
    cols := ["id"];
    for i := 0 to |e.fields|
      invariant forall c :: c in cols <==> c in FieldNames(e.fields[..i]) + {"id"}
    {
      assert e.fields[..i + 1] == e.fields[..i] + [e.fields[i]];
      assert FieldNames(e.fields[..i + 1]) == FieldNames(e.fields[..i]) + {e.fields[i].name};
      cols := cols + [e.fields[i].name];
    }
    assert e.fields[..|e.fields|] == e.fields;
    cols := cols + ["created_at", "updated_at"];
  }

  /** What a row reads as through a schema. */
  function ReadRow(e: Entity, id: string, row: Row): GoRow {
    map c | c in FieldNames(e.fields) + PlatformColumns() :: Decode(e, c, Physical(id, row, PhysCol(e, c)))
  }

  /** scanRow over the selected columns. */
  method ScanRow(e: Entity, id: string, row: Row) returns (out: GoRow)
    ensures out == ReadRow(e, id, row)
  {
    hide PhysCol, Decode, Physical;
    var cols := SelectColumns(e);
    out := map[];
    for i := 0 to |cols|
      invariant forall c :: c in out <==> c in cols[..i]
      invariant forall c | c in out :: out[c] == Decode(e, c, Physical(id, row, PhysCol(e, c)))
    {
      out := out[cols[i] := Decode(e, cols[i], Physical(id, row, PhysCol(e, cols[i])))];
    }
    assert cols[..|cols|] == cols;
  }

  // ----- writing and reading back -----

  /** The Go value a field of this type holds, or nil. */
  predicate HasType(f: Field, v: GoValue) {
    v.Nil? ||
    match f.typ
    case Text => v.Str?
    case Integer => v.Int?
    case Real => v.Float?
    case Boolean => v.Bool?
    case Datetime => v.Str?
    case Enum => v.Str?
    case Reference => v.Str?
  }

  function Written(p: Platform, e: Entity, f: Field, values: GoRow): Value {
    Stored(p, ColumnDef(f).affinity, if f.name in values then Encode(values[f.name]) else NULL)
  }

  /** The cells an INSERT of `values` leaves: columns not mentioned are null. */
  function InsertedCells(p: Platform, e: Entity, values: GoRow): map<string, Value> {
    map id | id in FieldIds(e.fields) :: Written(p, e, FieldById(e.fields, id).value, values)
  }

  /** The cells an UPDATE of `values` leaves: columns not mentioned keep their value. */
  function UpdatedCells(p: Platform, e: Entity, values: GoRow, cells: map<string, Value>): map<string, Value> {
    map id | id in cells ::
      match FieldById(e.fields, id)
      case None => cells[id]
      case Some(f) => if f.name in values then Written(p, e, f, values) else cells[id]
  }

  predicate NamedFields(e: Entity) {
    && DistinctFieldIds(e.fields) && DistinctFieldNames(e.fields)
    && forall f | f in e.fields :: !IsReserved(f.id) && !IsReserved(f.name)
  }

  // ----- the columns a write binds -----

  /** Every written name is bound to its field's column, and nothing else is bound. */
  predicate Binds(e: Entity, values: GoRow, bound: map<string, Value>) {
    && bound.Keys <= FieldIds(e.fields)
    && forall f | f in e.fields ::
         (f.id in bound <==> f.name in values) && (f.id in bound ==> bound[f.id] == Encode(values[f.name]))
  }

  lemma BindsOneMore(e: Entity, values: GoRow, bound: map<string, Value>, f: Field, v: GoValue)
    requires NamedFields(e) && f in e.fields && f.name !in values && Binds(e, values, bound)
    ensures PhysCol(e, f.name) == f.id
    ensures Binds(e, values[f.name := v], bound[f.id := Encode(v)])
  {
    hide Encode;
    FieldByNameFinds(e.fields, f);
    IdOfField(e.fields, f);
    forall g | g in e.fields && g != f ensures g.id != f.id && g.name != f.name {
      FieldByNameFinds(e.fields, g);
      FieldByIdFinds(e.fields, f);
      FieldByIdFinds(e.fields, g);
    }
  }

  /** The column and argument lists of insertWith and updateWith, over the values in whatever order. */
  method Bindings(e: Entity, values: GoRow) returns (bound: map<string, Value>)
    requires NamedFields(e) && values.Keys <= FieldNames(e.fields)
    ensures Binds(e, values, bound)
  {
    hide Binds, PhysCol, Encode, NamedFields;
    bound := map[];
    var left := values;
    ghost var done: GoRow := map[];
    NothingBound(e);
    while left != map[]
      invariant forall k :: k in values <==> k in done || k in left
      invariant forall k | k in done :: k !in left && done[k] == values[k]
      invariant forall k | k in left :: left[k] == values[k]
      invariant Binds(e, done, bound)
      decreases |left|
    {
      var name :| name in left;
      ghost var f := NamedField(e.fields, name);
      BindsOneMore(e, done, bound, f, left[name]);
      bound := bound[PhysCol(e, name) := Encode(left[name])];
      done := done[name := left[name]];
      left := left - {name};
    }
    assert done == values;
  }

  lemma NothingBound(e: Entity)
    ensures Binds(e, map[], map[])
  {
  }

  /** What an INSERT of these bindings stores. */
  function InsertOf(p: Platform, e: Entity, bound: map<string, Value>): map<string, Value> {
    map id | id in FieldIds(e.fields) ::
      Stored(p, ColumnDef(FieldById(e.fields, id).value).affinity, if id in bound then bound[id] else NULL)
  }

  /** What an UPDATE of these bindings stores. */
  function UpdateOf(p: Platform, e: Entity, bound: map<string, Value>, cells: map<string, Value>): map<string, Value> {
    map id | id in cells ::
      if id in bound && id in FieldIds(e.fields)
      then Stored(p, ColumnDef(FieldById(e.fields, id).value).affinity, bound[id]) else cells[id]
  }

  lemma BoundById(e: Entity, values: GoRow, bound: map<string, Value>, id: string)
    requires Binds(e, values, bound) && FieldById(e.fields, id).Some?
    ensures var f := FieldById(e.fields, id).value;
            (id in bound <==> f.name in values) && (id in bound ==> bound[id] == Encode(values[f.name]))
  {
    hide Encode, FieldIds;
    assert FieldById(e.fields, id).value in e.fields;
  }

  /** Writing through physical columns is writing each field by its own name. */
  lemma BoundIsWritten(p: Platform, e: Entity, values: GoRow, bound: map<string, Value>, cells: map<string, Value>)
    requires NamedFields(e) && Binds(e, values, bound)
    ensures InsertOf(p, e, bound) == InsertedCells(p, e, values)
    ensures UpdateOf(p, e, bound, cells) == UpdatedCells(p, e, values, cells)
  {
    hide Encode, ColumnDef, Stored, NamedFields, Binds, FieldIds;
    forall id | FieldById(e.fields, id).Some? {
      BoundById(e, values, bound, id);
    }
    assert InsertOf(p, e, bound) == InsertedCells(p, e, values);
    forall id | id in cells ensures UpdateOf(p, e, bound, cells)[id] == UpdatedCells(p, e, values, cells)[id] {
      assert FieldById(e.fields, id).None? <==> id !in FieldIds(e.fields);
    }
  }

  lemma ReadField(e: Entity, id: string, row: Row, f: Field)
    requires NamedFields(e) && f in e.fields
    ensures PhysCol(e, f.name) == f.id
    ensures f.name in ReadRow(e, id, row)
    ensures ReadRow(e, id, row)[f.name] == Decode(e, f.name, Cell(row.cells, f.id))
  {
    FieldByNameFinds(e.fields, f);
  }

  /** decode undoes encode, through the column's affinity, on values of the field's type. */
  lemma DecodeEncode(p: Platform, e: Entity, f: Field, v: GoValue)
    requires NamedFields(e) && f in e.fields && HasType(f, v)
    ensures Decode(e, f.name, Stored(p, ColumnDef(f).affinity, Encode(v))) == v
  {
    FieldByNameFinds(e.fields, f);
  }

  /** An inserted row reads back as the values written, and null elsewhere. */
  lemma InsertReadsBack(p: Platform, e: Entity, id: string, now: string, values: GoRow, f: Field)
    requires NamedFields(e) && f in e.fields
    requires f.name in values ==> HasType(f, values[f.name])
    ensures var read := ReadRow(e, id, Row(now, now, InsertedCells(p, e, values)));
            && f.name in read && read[f.name] == (if f.name in values then values[f.name] else Nil)
            && read["id"] == Str(id) && read["created_at"] == Str(now) && read["updated_at"] == Str(now)
  {
    hide Decode, ColumnDef, Stored, HasType;
    var row := Row(now, now, InsertedCells(p, e, values));
    ReadField(e, id, row, f);
    FieldByIdFinds(e.fields, f);
    assert f.id in FieldIds(e.fields);
    if f.name in values {
      DecodeEncode(p, e, f, values[f.name]);
    } else {
      HasNil(f);
      DecodeEncode(p, e, f, Nil);
    }
    PlatformReads(e, id, row);
  }

  lemma HasNil(f: Field)
    ensures HasType(f, Nil)
  {
  }

  lemma PlatformReads(e: Entity, id: string, row: Row)
    requires NamedFields(e)
    ensures var read := ReadRow(e, id, row);
            && PlatformColumns() <= read.Keys
            && read["id"] == Str(id) && read["created_at"] == Str(row.created) && read["updated_at"] == Str(row.updated)
  {
  }

  // ----- renames -----

  /** The two schemas of an entity differ in names alone: the same ids with the same types. */
  predicate SameTypesById(oe: Entity, ne: Entity) {
    && FieldIds(oe.fields) == FieldIds(ne.fields)
    && forall of, nf | of in oe.fields && nf in ne.fields && of.id == nf.id :: of.typ == nf.typ
  }

  /** The old name of the column a new name stands for. */
  function OldName(oe: Entity, ne: Entity, name: string): string {
    if IsReserved(name) then name
    else
      match FieldByName(ne.fields, name)
      case None => name
      case Some(nf) =>
        match FieldById(oe.fields, nf.id)
        case None => name
        case Some(of) => of.name
  }

  function Relabelled(oe: Entity, ne: Entity, read: GoRow): GoRow
    requires forall n | n in FieldNames(ne.fields) + PlatformColumns() :: OldName(oe, ne, n) in read
  {
    map n | n in FieldNames(ne.fields) + PlatformColumns() :: read[OldName(oe, ne, n)]
  }

  lemma OldNameOfField(oe: Entity, ne: Entity, of: Field, nf: Field)
    requires NamedFields(oe) && NamedFields(ne)
    requires of in oe.fields && nf in ne.fields && of.id == nf.id
    ensures OldName(oe, ne, nf.name) == of.name
  {
    FieldByIdFinds(oe.fields, of);
    FieldByNameFinds(ne.fields, nf);
  }

  lemma OldNameIsRead(oe: Entity, ne: Entity, id: string, row: Row, n: string)
    requires NamedFields(oe) && NamedFields(ne) && SameTypesById(oe, ne)
    requires n in FieldNames(ne.fields) + PlatformColumns()
    ensures OldName(oe, ne, n) in ReadRow(oe, id, row)
    ensures ReadRow(oe, id, row)[OldName(oe, ne, n)] == ReadRow(ne, id, row)[n]
  {
    hide FieldNames, ReadRow, Decode, PhysCol, FieldIds;
    if n in PlatformColumns() {
      PlatformReads(oe, id, row);
      PlatformReads(ne, id, row);
    } else {
      var nf := NamedField(ne.fields, n);
      IdOfField(ne.fields, nf);
      var of := FieldById(oe.fields, nf.id).value;
      OldNameOfField(oe, ne, of, nf);
      ReadField(ne, id, row, nf);
      ReadField(oe, id, row, of);
      SameTypeDecodes(oe, ne, of, nf, Cell(row.cells, nf.id));
    }
  }

  lemma NamedField(fields: seq<Field>, n: string) returns (f: Field)
    requires n in FieldNames(fields)
    ensures f in fields && f.name == n
  {
    f :| f in fields && f.name == n;
  }

  lemma IdOfField(fields: seq<Field>, f: Field)
    requires f in fields
    ensures f.id in FieldIds(fields)
  {
  }

  lemma SameTypeDecodes(oe: Entity, ne: Entity, of: Field, nf: Field, v: Value)
    requires DistinctFieldNames(oe.fields) && DistinctFieldNames(ne.fields)
    requires of in oe.fields && nf in ne.fields && of.typ == nf.typ
    ensures Decode(oe, of.name, v) == Decode(ne, nf.name, v)
  {
    FieldByNameFinds(oe.fields, of);
    FieldByNameFinds(ne.fields, nf);
  }

  /**
   * A rename is pure relabelling: whatever the new names (two fields may swap theirs), reading any
   * row through the new schema is reading it through the old one with the keys relabelled by field id.
   */
  lemma RenameRelabels(oe: Entity, ne: Entity, id: string, row: Row)
    requires NamedFields(oe) && NamedFields(ne) && SameTypesById(oe, ne)
    ensures forall n | n in FieldNames(ne.fields) + PlatformColumns() :: OldName(oe, ne, n) in ReadRow(oe, id, row)
    ensures ReadRow(ne, id, row) == Relabelled(oe, ne, ReadRow(oe, id, row))
  {
    hide OldName, Decode, PhysCol, Physical;
    forall n | n in FieldNames(ne.fields) + PlatformColumns()
      ensures OldName(oe, ne, n) in ReadRow(oe, id, row)
      ensures ReadRow(oe, id, row)[OldName(oe, ne, n)] == ReadRow(ne, id, row)[n]
    {
      OldNameIsRead(oe, ne, id, row, n);
    }
  }

  lemma ValidIsNamed(entities: seq<Entity>, e: Entity)
    requires ValidEntity(entities, e)
    ensures NamedFields(e)
  {
    hide ValidField, IsIdentifier;
  }

  lemma RenamedTypes(oe: Entity, ne: Entity)
    requires DistinctFieldIds(oe.fields) && OnlyRenamed(oe, ne)
    ensures SameTypesById(oe, ne)
  {
    hide EnumChanged, ReferenceChanged;
    forall of, nf | of in oe.fields && nf in ne.fields && of.id == nf.id ensures of.typ == nf.typ {
      FieldByIdFinds(oe.fields, of);
    }
  }

  /**
   * Executing a rename-only changeset moves no data at all, and through the new manifest every row
   * of every entity reads as before with its keys relabelled.
   */
  lemma RenamesMoveNoData(p: Platform, db: Db, oldApp: App, newApp: App, ops: seq<Operation>, commits: bool,
                          oe: Entity, ne: Entity, id: string, row: Row)
    requires ValidApp(oldApp) && ValidApp(newApp) && AllRenames(ops)
    requires SameChanges(ops, DiffOps(oldApp.entities, newApp.entities))
    requires oe in oldApp.entities && ne in newApp.entities && oe.id == ne.id
    ensures Executed(p, db, oldApp, newApp, ops, commits) == Ok(db)
    ensures forall n | n in FieldNames(ne.fields) + PlatformColumns() :: OldName(oe, ne, n) in ReadRow(oe, id, row)
    ensures ReadRow(ne, id, row) == Relabelled(oe, ne, ReadRow(oe, id, row))
  {
    hide DiffOps, AllRenames, OnlyRenamed, ReadRow, OldName, ApplyOps, ValidEntity, WellFormed;
    NeedsRebuildOfSameChanges(ops, DiffOps(oldApp.entities, newApp.entities));
    ValidIsWellFormed(oldApp);
    ValidIsWellFormed(newApp);
    RenameOnlyDifference(oldApp.entities, newApp.entities);
    WellFormedFields(oldApp.entities, oe);
    assert EntityById(oldApp.entities, ne.id) == Some(oe) && ne.id in EntityIds(oldApp.entities);
    RenamedTypes(oe, ne);
    ValidIsNamed(oldApp.entities, oe);
    ValidIsNamed(newApp.entities, ne);
    RenameRelabels(oe, ne, id, row);
  }

  lemma WellFormedFields(entities: seq<Entity>, e: Entity)
    requires WellFormed(entities) && e in entities
    ensures DistinctFieldIds(e.fields) && EntityById(entities, e.id) == Some(e) && e.id in EntityIds(entities)
  {
    EntityByIdFinds(entities, e);
  }
}

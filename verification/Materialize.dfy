/** engine/materialize/materialize.go: what a manifest means as a database catalogue. */
module Materialize {
  import opened Results
  import opened Schema
  import opened Sql

  // ----- the meaning of one field, entity and manifest -----

  /** columnDef: type keyword, NOT NULL, CHECKs and foreign key of one field. */
  function ColumnDef(f: Field): Column {
    match f.typ
    case Text => Column(TextAffinity, f.required, f.min, f.max, AnyValue, None)
    case Integer => Column(IntegerAffinity, f.required, f.min, f.max, AnyValue, None)
    case Real => Column(RealAffinity, f.required, f.min, f.max, AnyValue, None)
    case Boolean => Column(IntegerAffinity, f.required, None, None, ZeroOrOne, None)
    case Datetime => Column(TextAffinity, f.required, None, None, AnyValue, None)
    case Enum => Column(TextAffinity, f.required, None, None, OneOf(set v | v in f.values), None)
    case Reference =>
      Column(TextAffinity, f.required, None, None, AnyValue, Some(ForeignKey(f.target, f.onDelete)))
  }

  function IndexName(entity: string, field: string): string {
    "ux_" + entity + "_" + field
  }

  function Columns(fields: seq<Field>): map<string, Column> {
    map id | id in FieldIds(fields) :: ColumnDef(FieldById(fields, id).value)
  }

  function UniqueIds(fields: seq<Field>): set<string> {
    set f | f in fields && f.unique :: f.id
  }

  function Indexes(entity: string, fields: seq<Field>): map<string, string> {
    map id | id in UniqueIds(fields) :: IndexName(entity, id)
  }

  predicate Matches(t: Table, e: Entity) {
    t.cols == Columns(e.fields) && t.indexes == Indexes(e.id, e.fields)
  }

  /** The catalogue is exactly what materialize produces: tables, columns, constraints, indexes. */
  predicate CatalogueIs(db: Db, app: App) {
    && db.tables.Keys == EntityIds(app.entities)
    && forall e | e in app.entities :: Matches(db.tables[e.id], e)
  }

  function WithoutBounds(c: Column): Column {
    c.(min := None, max := None)
  }

  predicate SameButBounds(a: map<string, Column>, b: map<string, Column>) {
    a.Keys == b.Keys && forall c | c in a :: WithoutBounds(a[c]) == WithoutBounds(b[c])
  }

  predicate MatchesButBounds(t: Table, e: Entity) {
    SameButBounds(t.cols, Columns(e.fields)) && t.indexes == Indexes(e.id, e.fields)
  }

  /** As CatalogueIs, except that surviving columns may carry older min/max CHECKs. */
  predicate CatalogueButBounds(db: Db, app: App) {
    && db.tables.Keys == EntityIds(app.entities)
    && forall e | e in app.entities :: MatchesButBounds(db.tables[e.id], e)
  }

  // ----- index names -----

  function UniquePairs(entities: seq<Entity>): set<(string, string)> {
    set e, f | e in entities && f in e.fields && f.unique :: (e.id, f.id)
  }

  /** No two of these (entity, field) pairs share an index name. */
  predicate NamesDistinct(pairs: set<(string, string)>) {
    forall x, y | x in pairs && y in pairs && IndexName(x.0, x.1) == IndexName(y.0, y.1) :: x == y
  }

  /** Every index of the database is named after its table and column, drawn from `pairs`. */
  ghost predicate Named(db: Db, pairs: set<(string, string)>) {
    forall t, c, i | Holds(db, t, c, i) :: i == IndexName(t, c) && (t, c) in pairs
  }

  lemma CatalogueIsNamed(db: Db, app: App, pairs: set<(string, string)>)
    requires CatalogueButBounds(db, app) && UniquePairs(app.entities) <= pairs
    ensures Named(db, pairs)
  {
    forall t, c, i | Holds(db, t, c, i)
      ensures i == IndexName(t, c) && (t, c) in pairs
    {
      var e :| e in app.entities && e.id == t;
      var f :| f in e.fields && f.unique && f.id == c;
      assert (e.id, f.id) in UniquePairs(app.entities);
    }
  }

  // ----- what a manifest asks of the names -----

  /**
   * Every id can stand in SQL where it has to, no entity id is one SQLite keeps to itself, and every
   * unique field is an expression.
   */
  predicate Speakable(p: Platform, entities: seq<Entity>) {
    forall e | e in entities ::
      && UsableTable(p, e.id) && UsableColumns(p, Columns(e.fields))
      && forall f | f in e.fields && f.unique :: f.id !in p.unreadable
  }

  /** No unique field's index is named like an entity. */
  predicate IndexesApart(entities: seq<Entity>) {
    forall x | x in UniquePairs(entities) :: IndexName(x.0, x.1) !in EntityIds(entities)
  }

  /**
   * An index must not read the clock. CREATE UNIQUE INDEX IF NOT EXISTS gets away with it only where an
   * earlier one took the name.
   */
  predicate ClocksShadowed(p: Platform, stmts: seq<Stmt>) {
    forall i | 0 <= i < |stmts| && stmts[i].CreateUniqueIndex? && stmts[i].col in p.clock ::
      exists j | 0 <= j < i :: stmts[j].CreateUniqueIndex? && stmts[j].index == stmts[i].index
  }

  predicate NamesUsable(p: Platform, app: App) {
    Speakable(p, app.entities) && IndexesApart(app.entities)
  }

  /** SQLite accepts the names of the manifest's tables, columns and indexes. */
  predicate Bootable(p: Platform, app: App) {
    NamesUsable(p, app) && ClocksShadowed(p, AllIndexStmts(app.entities))
  }

  // ----- statements -----

  /** The CREATE UNIQUE INDEX statements of an entity, in field order. */
  function IndexStmts(entity: string, table: string, fields: seq<Field>): seq<Stmt> {
    if fields == [] then []
    else
      var rest := IndexStmts(entity, table, fields[..|fields| - 1]);
      var f := fields[|fields| - 1];
      if f.unique then rest + [CreateUniqueIndex(IndexName(entity, f.id), table, f.id)] else rest
  }

  function CreateStmts(entities: seq<Entity>): seq<Stmt> {
    if entities == [] then []
    else
      var e := entities[|entities| - 1];
      CreateStmts(entities[..|entities| - 1]) + [CreateTable(e.id, Columns(e.fields), true)]
  }

  function AllIndexStmts(entities: seq<Entity>): seq<Stmt> {
    if entities == [] then []
    else
      var e := entities[|entities| - 1];
      AllIndexStmts(entities[..|entities| - 1]) + IndexStmts(e.id, e.id, e.fields)
  }

  /** With distinct ids, the columns are exactly one ColumnDef per field. */
  lemma ColumnsExactly(fields: seq<Field>, cols: map<string, Column>)
    requires DistinctFieldIds(fields)
    requires forall f | f in fields :: f.id in cols && cols[f.id] == ColumnDef(f)
    requires forall id | id in cols :: id in FieldIds(fields)
    ensures cols == Columns(fields)
  {
    forall id | id in cols ensures cols[id] == Columns(fields)[id] {
      FieldByIdFinds(fields, FieldById(fields, id).value);
    }
  }

  lemma ColumnOfField(fields: seq<Field>, f: Field)
    requires DistinctFieldIds(fields) && f in fields
    ensures f.id in Columns(fields) && Columns(fields)[f.id] == ColumnDef(f)
  {
    FieldByIdFinds(fields, f);
  }

  /** TableDDL: the CREATE TABLE of an entity under a physical name, and its unique indexes. */
  method TableDDL(e: Entity, table: string, ifNotExists: bool) returns (create: Stmt, indexes: seq<Stmt>)
    requires DistinctFieldIds(e.fields)
    ensures create == CreateTable(table, Columns(e.fields), ifNotExists)
    ensures indexes == IndexStmts(e.id, table, e.fields)
  {
    hide ColumnDef, Columns;
    var cols: map<string, Column> := map[];
    indexes := [];
    for i := 0 to |e.fields|
      invariant forall k | 0 <= k < i :: e.fields[k].id in cols && cols[e.fields[k].id] == ColumnDef(e.fields[k])
      invariant forall id | id in cols :: id in FieldIds(e.fields)
      invariant indexes == IndexStmts(e.id, table, e.fields[..i])
    {
      var f := e.fields[i];
      cols := cols[f.id := ColumnDef(f)];
      assert e.fields[..i + 1][..i] == e.fields[..i];
      if f.unique {
        indexes := indexes + [CreateUniqueIndex(IndexName(e.id, f.id), table, f.id)];
      }
    }
    assert e.fields[..|e.fields|] == e.fields;
    ColumnsExactly(e.fields, cols);
    create := CreateTable(table, cols, ifNotExists);
  }

  /** Statements: one guarded CREATE TABLE per entity, then every unique index. */
  method Statements(app: App) returns (stmts: seq<Stmt>)
    requires ValidApp(app)
    ensures stmts == CreateStmts(app.entities) + AllIndexStmts(app.entities)
  {
    stmts := [];
    var indexes := [];
    for i := 0 to |app.entities|
      invariant stmts == CreateStmts(app.entities[..i])
      invariant indexes == AllIndexStmts(app.entities[..i])
    {
      var e := app.entities[i];
      assert ValidEntity(app.entities, e);
      var create, idx := TableDDL(e, e.id, true);
      assert app.entities[..i + 1][..i] == app.entities[..i];
      stmts := stmts + [create];
      indexes := indexes + idx;
    }
    assert app.entities[..|app.entities|] == app.entities;
    stmts := stmts + indexes;
  }

  function RunAll(p: Platform, stmts: seq<Stmt>, db: Db): Result<Db, Fault> {
    if stmts == [] then Ok(db)
    else
      var before :- RunAll(p, stmts[..|stmts| - 1], db);
      Run(p, stmts[|stmts| - 1], before)
  }

  lemma {:induction false} RunAllAppend(p: Platform, a: seq<Stmt>, b: seq<Stmt>, db: Db)
    ensures RunAll(p, a + b, db) ==
            (match RunAll(p, a, db) case Ok(mid) => RunAll(p, b, mid) case Err(x) => Err(x))
  {
    if b == [] {
      assert a + b == a;
    } else {
      assert (a + b)[..|a + b| - 1] == a + b[..|b| - 1];
      RunAllAppend(p, a, b[..|b| - 1], db);
    }
  }

  // ----- materializing twice changes nothing -----

  lemma {:induction false} CreatesAreNoOps(p: Platform, entities: seq<Entity>, db: Db)
    requires EntityIds(entities) <= db.tables.Keys && Speakable(p, entities)
    ensures RunAll(p, CreateStmts(entities), db) == Ok(db)
  {
    hide UsableTable, UsableColumns, Columns, IndexTaken;
    if entities != [] {
      assert entities[|entities| - 1] in entities && entities[|entities| - 1].id in EntityIds(entities);
      CreatesAreNoOps(p, entities[..|entities| - 1], db);
    }
  }

  lemma {:induction false} IndexStmtsAreNoOps(p: Platform, e: Entity, fields: seq<Field>, db: Db)
    requires e.id in db.tables && db.tables[e.id].indexes == Indexes(e.id, e.fields)
    requires forall f | f in fields ::
               f in e.fields && (f.unique ==> IndexName(e.id, f.id) !in db.tables && f.id !in p.unreadable)
    ensures RunAll(p, IndexStmts(e.id, e.id, fields), db) == Ok(db)
  {
    hide Indexes, IndexName, NoDuplicates, IndexTaken;
    if fields != [] {
      var f := fields[|fields| - 1];
      IndexStmtsAreNoOps(p, e, fields[..|fields| - 1], db);
      if f.unique {
        IndexIsTaken(e, f, db);
      }
    }
  }

  lemma IndexIsTaken(e: Entity, f: Field, db: Db)
    requires e.id in db.tables && db.tables[e.id].indexes == Indexes(e.id, e.fields) && f in e.fields && f.unique
    ensures IndexTaken(db, IndexName(e.id, f.id))
  {
    assert f.id in Indexes(e.id, e.fields);
    assert Holds(db, e.id, f.id, IndexName(e.id, f.id));
  }

  lemma {:induction false} AllIndexStmtsAreNoOps(p: Platform, entities: seq<Entity>, db: Db)
    requires forall e | e in entities :: e.id in db.tables && db.tables[e.id].indexes == Indexes(e.id, e.fields)
    requires forall e, f | e in entities && f in e.fields && f.unique ::
               IndexName(e.id, f.id) !in db.tables && f.id !in p.unreadable
    ensures RunAll(p, AllIndexStmts(entities), db) == Ok(db)
  {
    hide IndexName, Indexes;
    if entities != [] {
      var e := entities[|entities| - 1];
      var rest := entities[..|entities| - 1];
      assert e in entities;
      AllIndexStmtsAreNoOps(p, rest, db);
      IndexStmtsAreNoOps(p, e, e.fields, db);
      RunAllAppend(p, AllIndexStmts(rest), IndexStmts(e.id, e.id, e.fields), db);
    }
  }

  /** Re-running boot's DDL on a database that already has the manifest's catalogue is a no-op. */
  lemma MaterializeIsIdempotent(p: Platform, app: App, db: Db)
    requires CatalogueButBounds(db, app) && NamesUsable(p, app)
    ensures RunAll(p, CreateStmts(app.entities) + AllIndexStmts(app.entities), db) == Ok(db)
  {
    hide UsableTable, UsableColumns, Columns;
    forall e | e in app.entities ensures e.id in db.tables {
      assert e.id in EntityIds(app.entities);
    }
    forall e, f | e in app.entities && f in e.fields && f.unique ensures IndexName(e.id, f.id) !in db.tables {
      assert (e.id, f.id) in UniquePairs(app.entities);
    }
    CreatesAreNoOps(p, app.entities, db);
    AllIndexStmtsAreNoOps(p, app.entities, db);
    RunAllAppend(p, CreateStmts(app.entities), AllIndexStmts(app.entities), db);
  }
}

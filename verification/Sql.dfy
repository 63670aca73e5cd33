/**
 * The abstract relational database the engine drives: a catalogue of tables, columns and unique
 * indexes, rows by id, and the recorded schema fingerprint. Only the statements the engine issues
 * are modelled, each total or an error, with SQLite's documented rules for when it refuses.
 */
module Sql {
  import opened Results
  import opened Schema

  /** Words SQL reserves. None has an underscore. */
  type Words = s: set<string> | forall w | w in s :: '_' !in w

  /** What the model leaves to Go and SQLite: SQL's words, the clock, and text conversions the engine calls. */
  datatype Platform = Platform(
    words: Words,                     // words that cannot stand unquoted for any name
    tableWords: Words,                // further words that cannot name a table one creates (if)
    unreadable: set<string>,          // columns that are no expression (cast, raise)
    clock: map<string, string>,       // columns that read as the time (current_date, ...), and the time they read
    num: real -> string,              // strconv.FormatFloat(v, 'g', -1, 64)
    goText: GoValue -> string,        // fmt's %v
    intText: int -> string,           // an INTEGER rendered as TEXT
    realText: real -> string,         // a REAL rendered as TEXT
    numeric: string -> Option<real>,  // the number a whole TEXT spells, if it spells one
    prefixInt: string -> int,         // CAST(text AS INTEGER)
    prefixReal: string -> real,       // CAST(text AS REAL)
    canonical: string -> Option<string>) // store.CanonicalDatetime

  datatype Value = NULL | INTEGER(i: int) | REAL(r: real) | TEXT(s: string)

  datatype Affinity = TextAffinity | IntegerAffinity | RealAffinity

  /** The values a CHECK restricts a column to, apart from its bounds. */
  datatype Domain = AnyValue | ZeroOrOne | OneOf(values: set<string>)

  datatype ForeignKey = ForeignKey(target: string, onDelete: OnDelete)

  /** A column definition. The bounds limit the length of TEXT and the value of numbers. */
  datatype Column = Column(
    affinity: Affinity,
    notNull: bool,
    min: Option<real>,
    max: Option<real>,
    domain: Domain,
    fk: Option<ForeignKey>)

  datatype Row = Row(created: string, updated: string, cells: map<string, Value>)

  /**
   * `indexes` maps a uniquely indexed column to the name of its index; `inline` holds the columns
   * whose foreign key is part of the column definition rather than of the table.
   */
  datatype Table = Table(
    cols: map<string, Column>,
    indexes: map<string, string>,
    rows: map<string, Row>,
    inline: set<string>)

  datatype Db = Db(tables: map<string, Table>, fingerprint: Option<string>)

  datatype Fault =
    | UnusableName | NameTaken | NoSuchTable | TableExists | NoSuchColumn | ColumnExists | ColumnInUse
    | NotNullOrCheckFailed | UniqueFailed | NoSuchIndex | ForeignKeyFailed
    | SyntaxError | MissingWitness | UnknownCoerceMode | LossyCoercion | NotANativeOp | TransactionFailed

  const EMPTY_DB := Db(map[], None)

  // ----- values -----

  /** A number in an INTEGER column is an INTEGER when it is whole. */
  function WholeOrReal(r: real): Value {
    if IsWhole(r) then INTEGER(r.Floor) else REAL(r)
  }

  /** The value actually stored when `v` is written to a column (column affinity). */
  function Stored(p: Platform, a: Affinity, v: Value): (w: Value)
    ensures v.NULL? <==> w.NULL?
  {
    match a
    case TextAffinity => (
      match v
      case INTEGER(i) => TEXT(p.intText(i))
      case REAL(r) => TEXT(p.realText(r))
      case _ => v)
    case IntegerAffinity => (
      match v
      case REAL(r) => WholeOrReal(r)
      case TEXT(s) => if p.numeric(s).Some? then WholeOrReal(p.numeric(s).value) else v
      case _ => v)
    case RealAffinity => (
      match v
      case INTEGER(i) => REAL(i as real)
      case TEXT(s) => if p.numeric(s).Some? then REAL(p.numeric(s).value) else v
      case _ => v)
  }

  /** Writing a stored value back changes nothing. */
  lemma StoredIsStable(p: Platform, a: Affinity, v: Value)
    ensures Stored(p, a, Stored(p, a, v)) == Stored(p, a, v)
  {
  }

  function Truncate(r: real): int {
    if r >= 0.0 then r.Floor else -((-r).Floor)
  }

  /** SQLite's round(x): to the nearest whole number, halves away from zero. */
  function RoundHalfAway(r: real): int {
    if r >= 0.0 then (r + 0.5).Floor else -((-r + 0.5).Floor)
  }

  function Cast(p: Platform, a: Affinity, v: Value): Value {
    match v
    case NULL => NULL
    case INTEGER(i) => (
      match a
      case TextAffinity => TEXT(p.intText(i))
      case IntegerAffinity => v
      case RealAffinity => REAL(i as real))
    case REAL(r) => (
      match a
      case TextAffinity => TEXT(p.realText(r))
      case IntegerAffinity => INTEGER(Truncate(r))
      case RealAffinity => v)
    case TEXT(s) => (
      match a
      case TextAffinity => v
      case IntegerAffinity => INTEGER(p.prefixInt(s))
      case RealAffinity => REAL(p.prefixReal(s)))
  }

  /** CAST(round(v) AS INTEGER). */
  function RoundCast(p: Platform, v: Value): Value {
    match v
    case NULL => NULL
    case INTEGER(i) => INTEGER(i)
    case REAL(r) => INTEGER(RoundHalfAway(r))
    case TEXT(s) => INTEGER(RoundHalfAway(p.prefixReal(s)))
  }

  /** The number a value compares as once NUMERIC affinity is applied to it. */
  function AsNumber(p: Platform, v: Value): Option<real> {
    match v
    case NULL => None
    case INTEGER(i) => Some(i as real)
    case REAL(r) => Some(r)
    case TEXT(s) => p.numeric(s)
  }

  /** `x = y` where the operands carry affinities `a` and `b`; neither is NULL. */
  predicate SqlEqual(p: Platform, a: Affinity, x: Value, b: Affinity, y: Value) {
    if a.TextAffinity? && b.TextAffinity? then x == y
    else if AsNumber(p, x).Some? || AsNumber(p, y).Some? then AsNumber(p, x) == AsNumber(p, y)
    else x == y
  }

  // ----- constraints -----

  predicate WithinBounds(c: Column, v: Value) {
    match v
    case NULL => true
    case INTEGER(i) => AtLeast(c.min, i as real) && AtMost(c.max, i as real)
    case REAL(r) => AtLeast(c.min, r) && AtMost(c.max, r)
    case TEXT(s) =>
      if c.affinity.TextAffinity? then AtLeast(c.min, |s| as real) && AtMost(c.max, |s| as real)
      else c.max.None? // any TEXT compares greater than any number
  }

  predicate InDomain(d: Domain, v: Value) {
    v.NULL? ||
    match d
    case AnyValue => true
    case ZeroOrOne => v == INTEGER(0) || v == INTEGER(1)
    case OneOf(values) => v.TEXT? && v.s in values
  }

  /** The name of a column, as an expression, is the column's value. */
  predicate Readable(p: Platform, name: string) {
    name !in p.unreadable && name !in p.clock
  }

  /** What a column that holds `v` reads as in an expression. */
  function Seen(p: Platform, name: string, v: Value): Value {
    if name in p.clock then TEXT(p.clock[name]) else v
  }

  /** The value satisfies the NOT NULL constraint of the column, and the column's CHECKs hold. */
  predicate Satisfies(p: Platform, name: string, c: Column, v: Value) {
    (c.notNull ==> !v.NULL?) && WithinBounds(c, Seen(p, name, v)) && InDomain(c.domain, Seen(p, name, v))
  }

  /** A row a table may hold: one cell per column, in stored form, satisfying its constraints. */
  predicate RowOk(p: Platform, cols: map<string, Column>, row: Row) {
    && row.cells.Keys == cols.Keys
    && forall c | c in cols ::
         Stored(p, cols[c].affinity, row.cells[c]) == row.cells[c] && Satisfies(p, c, cols[c], row.cells[c])
  }

  predicate NoDuplicates(rows: map<string, Row>, col: string) {
    forall i, j | i in rows && j in rows && i != j && col in rows[i].cells && col in rows[j].cells
                  && rows[i].cells[col] == rows[j].cells[col] :: rows[i].cells[col].NULL?
  }

  predicate TableOk(p: Platform, t: Table) {
    && (forall r | r in t.rows :: RowOk(p, t.cols, t.rows[r]))
    && (forall c | c in t.indexes :: c in t.cols && NoDuplicates(t.rows, c))
    && t.inline <= t.cols.Keys
  }

  predicate DbOk(p: Platform, db: Db) {
    forall t | t in db.tables :: TableOk(p, db.tables[t])
  }

  /** PRAGMA foreign_key_check reports nothing. */
  predicate ForeignKeysHold(db: Db) {
    forall t, r, c | t in db.tables && r in db.tables[t].rows && c in db.tables[t].cols
                     && db.tables[t].cols[c].fk.Some? && c in db.tables[t].rows[r].cells ::
      RefersToRow(db, db.tables[t].cols[c].fk.value.target, db.tables[t].rows[r].cells[c])
  }

  predicate RefersToRow(db: Db, target: string, v: Value) {
    v.NULL? || (v.TEXT? && target in db.tables && v.s in db.tables[target].rows)
  }

  // ----- expressions -----

  /** The SELECT expressions a table rebuild copies rows through. */
  datatype Expr =
    | Col(col: string)
    | Lit(v: Value)
    | Coalesce(e: Expr, dflt: Value)
    | CaseOf(col: string, arms: seq<(string, string)>)
    | CastOf(col: string, to: Affinity)
    | RoundOf(col: string)

  function Reads(e: Expr): set<string> {
    match e
    case Col(c) => {c}
    case Lit(_) => {}
    case Coalesce(e1, _) => Reads(e1)
    case CaseOf(c, _) => {c}
    case CastOf(c, _) => {c}
    case RoundOf(c) => {c}
  }

  /** A CASE needs at least one WHEN to be SQL at all, and the columns must be expressions. */
  predicate Parses(p: Platform, e: Expr) {
    match e
    case Lit(_) => true
    case Coalesce(e1, _) => Parses(p, e1)
    case CaseOf(c, arms) => c !in p.unreadable && arms != []
    case Col(c) => c !in p.unreadable
    case CastOf(c, _) => c !in p.unreadable
    case RoundOf(c) => c !in p.unreadable
  }

  /** CASE v WHEN from THEN to ... ELSE v END: the first matching arm decides. */
  function FirstMatch(arms: seq<(string, string)>, v: Value): Value {
    if arms == [] then v
    else if v == TEXT(arms[0].0) then TEXT(arms[0].1)
    else FirstMatch(arms[1..], v)
  }

  function Cell(cells: map<string, Value>, c: string): Value {
    if c in cells then cells[c] else NULL
  }

  function Eval(p: Platform, e: Expr, cells: map<string, Value>): Value {
    match e
    case Col(c) => Seen(p, c, Cell(cells, c))
    case Lit(v) => v
    case Coalesce(e1, dflt) => var v := Eval(p, e1, cells); if v.NULL? then dflt else v
    case CaseOf(c, arms) => FirstMatch(arms, Seen(p, c, Cell(cells, c)))
    case CastOf(c, a) => Cast(p, a, Seen(p, c, Cell(cells, c)))
    case RoundOf(c) => RoundCast(p, Seen(p, c, Cell(cells, c)))
  }

  // ----- statements -----

  datatype Stmt =
    | CreateTable(name: string, cols: map<string, Column>, ifNotExists: bool)
    | DropTable(name: string)
    | RenameTable(name: string, to: string)
    | AddColumn(name: string, col: string, def: Column, dflt: Value)
    | DropColumn(name: string, col: string)
    | CreateUniqueIndex(index: string, name: string, col: string)
    | DropIndex(index: string)
    | InsertSelect(name: string, exprs: map<string, Expr>, source: string)
    | RecordFingerprint(text: string)

  /** The unique index on column `c` of table `t` is called `index`. */
  predicate Holds(db: Db, t: string, c: string, index: string) {
    t in db.tables && c in db.tables[t].indexes && db.tables[t].indexes[c] == index
  }

  predicate IndexTaken(db: Db, index: string) {
    exists t, c | t in db.tables && c in db.tables[t].indexes :: Holds(db, t, c, index)
  }

  function CopiedRow(p: Platform, cols: map<string, Column>, exprs: map<string, Expr>, row: Row): Row
  {
    Row(row.created, row.updated,
        map c | c in cols ::
          Stored(p, cols[c].affinity, if c in exprs then Eval(p, exprs[c], row.cells) else NULL))
  }

  function WithTable(db: Db, name: string, t: Table): Db {
    db.(tables := db.tables[name := t])
  }

  // ----- names -----

  /** SQLite keeps names with this prefix to itself. */
  predicate IsInternal(name: string) {
    |name| >= 7 && name[..7] == "sqlite_"
  }

  predicate UsableName(p: Platform, name: string) {
    name !in p.words && !IsInternal(name)
  }

  /** A table can be created under this name. */
  predicate UsableTable(p: Platform, name: string) {
    UsableName(p, name) && name !in p.tableWords
  }

  predicate HasCheck(c: Column) {
    c.min.Some? || c.max.Some? || !c.domain.AnyValue?
  }

  /**
   * The column definition is SQL: neither the column nor the target of its foreign key is a reserved
   * word, and a column with a CHECK is an expression.
   */
  predicate UsableColumn(p: Platform, name: string, c: Column) {
    && name !in p.words && (c.fk.Some? ==> c.fk.value.target !in p.words)
    && (HasCheck(c) ==> name !in p.unreadable)
  }

  predicate UsableColumns(p: Platform, cols: map<string, Column>) {
    forall c | c in cols :: UsableColumn(p, c, cols[c])
  }

  // ----- what each statement does -----

  /** ADD COLUMN: every existing row reads the default; NOT NULL and CHECK are tested on them. */
  function Widened(p: Platform, t: Table, col: string, def: Column, dflt: Value): Table {
    var v := Stored(p, def.affinity, dflt);
    t.(cols := t.cols[col := def],
       rows := map r | r in t.rows :: t.rows[r].(cells := t.rows[r].cells[col := v]),
       inline := if def.fk.Some? then t.inline + {col} else t.inline - {col})
  }

  function Narrowed(t: Table, col: string): Table {
    t.(cols := t.cols - {col},
       rows := map r | r in t.rows :: t.rows[r].(cells := t.rows[r].cells - {col}),
       inline := t.inline - {col})
  }

  /** Tables and indexes share one namespace. */
  function RunCreateTable(p: Platform, db: Db, name: string, cols: map<string, Column>, ifNotExists: bool): Result<Db, Fault> {
    if !UsableTable(p, name) || !UsableColumns(p, cols) then Err(UnusableName)
    else if name in db.tables then if ifNotExists then Ok(db) else Err(TableExists)
    else if IndexTaken(db, name) then Err(NameTaken)
    else Ok(WithTable(db, name, Table(cols, map[], map[], {})))
  }

  function RunDropTable(db: Db, name: string): Result<Db, Fault> {
    if name !in db.tables then Err(NoSuchTable) else Ok(db.(tables := db.tables - {name}))
  }

  function RunRenameTable(p: Platform, db: Db, name: string, to: string): Result<Db, Fault> {
    if !UsableName(p, to) then Err(UnusableName)
    else if name !in db.tables then Err(NoSuchTable)
    else if to in db.tables then Err(TableExists)
    else if IndexTaken(db, to) then Err(NameTaken)
    else Ok(WithTable(db.(tables := db.tables - {name}), to, db.tables[name]))
  }

  /** ADD COLUMN declares a foreign key within the column. */
  function RunAddColumn(p: Platform, db: Db, name: string, col: string, def: Column, dflt: Value): Result<Db, Fault> {
    if !UsableColumn(p, col, def) then Err(UnusableName)
    else if name !in db.tables then Err(NoSuchTable)
    else if col in db.tables[name].cols || IsReserved(col) then Err(ColumnExists)
    else if db.tables[name].rows != map[] && !Satisfies(p, col, def, Stored(p, def.affinity, dflt)) then
      Err(NotNullOrCheckFailed)
    else Ok(WithTable(db, name, Widened(p, db.tables[name], col, def, dflt)))
  }

  /** The column's index, or a foreign key the table declares on it, stands in the way of dropping it. */
  predicate InUse(t: Table, col: string) {
    col in t.cols && (col in t.indexes || (t.cols[col].fk.Some? && col !in t.inline))
  }

  function RunDropColumn(db: Db, name: string, col: string): Result<Db, Fault> {
    if name !in db.tables then Err(NoSuchTable)
    else if col !in db.tables[name].cols then Err(NoSuchColumn)
    else if InUse(db.tables[name], col) then Err(ColumnInUse)
    else Ok(WithTable(db, name, Narrowed(db.tables[name], col)))
  }

  /**
   * CREATE UNIQUE INDEX IF NOT EXISTS: an index of that name anywhere makes it a no-op, a table an
   * error. The column is an expression, and one that must not read the clock.
   */
  function RunCreateUniqueIndex(p: Platform, db: Db, index: string, name: string, col: string): Result<Db, Fault> {
    if col in p.unreadable then Err(SyntaxError)
    else if name !in db.tables then Err(NoSuchTable)
    else if index in db.tables then Err(NameTaken)
    else if IndexTaken(db, index) then Ok(db)
    else if col in p.clock then Err(UnusableName)
    else if col !in db.tables[name].cols then Err(NoSuchColumn)
    else if !NoDuplicates(db.tables[name].rows, col) then Err(UniqueFailed)
    else
      var t := db.tables[name];
      Ok(WithTable(db, name, t.(indexes := t.indexes[col := index])))
  }

  function RunDropIndex(db: Db, index: string): Result<Db, Fault> {
    if !IndexTaken(db, index) then Err(NoSuchIndex)
    else Ok(db.(tables := map t | t in db.tables ::
                  db.tables[t].(indexes := WithoutName(db.tables[t].indexes, index))))
  }

  function Copied(p: Platform, cols: map<string, Column>, exprs: map<string, Expr>, rows: map<string, Row>): map<string, Row> {
    map r | r in rows :: CopiedRow(p, cols, exprs, rows[r])
  }

  function RunInsertSelect(p: Platform, db: Db, name: string, exprs: map<string, Expr>, source: string): Result<Db, Fault> {
    if exists c | c in exprs :: !Parses(p, exprs[c]) then Err(SyntaxError)
    else if name !in db.tables || source !in db.tables then Err(NoSuchTable)
    else
      var into, from := db.tables[name], db.tables[source];
      if !(exprs.Keys <= into.cols.Keys && (forall c | c in exprs :: Reads(exprs[c]) <= from.cols.Keys)) then
        Err(NoSuchColumn)
      else
        var copied := Copied(p, into.cols, exprs, from.rows);
        if !(copied.Keys !! into.rows.Keys) then Err(UniqueFailed)
        else if !(forall r | r in copied :: RowOk(p, into.cols, copied[r])) then Err(NotNullOrCheckFailed)
        else if !(forall c | c in into.indexes :: NoDuplicates(into.rows + copied, c)) then Err(UniqueFailed)
        else Ok(WithTable(db, name, into.(rows := into.rows + copied)))
  }

  function Run(p: Platform, stmt: Stmt, db: Db): Result<Db, Fault> {
    match stmt
    case CreateTable(name, cols, ifNotExists) => RunCreateTable(p, db, name, cols, ifNotExists)
    case DropTable(name) => RunDropTable(db, name)
    case RenameTable(name, to) => RunRenameTable(p, db, name, to)
    case AddColumn(name, col, def, dflt) => RunAddColumn(p, db, name, col, def, dflt)
    case DropColumn(name, col) => RunDropColumn(db, name, col)
    case CreateUniqueIndex(index, name, col) => RunCreateUniqueIndex(p, db, index, name, col)
    case DropIndex(index) => RunDropIndex(db, index)
    case InsertSelect(name, exprs, source) => RunInsertSelect(p, db, name, exprs, source)
    case RecordFingerprint(text) => Ok(db.(fingerprint := Some(text)))
  }

  function WithoutName(indexes: map<string, string>, index: string): map<string, string> {
    map c | c in indexes && indexes[c] != index :: indexes[c]
  }
}

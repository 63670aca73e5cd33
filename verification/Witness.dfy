/** The executing half of engine/migrate/witness.go and selectExpr of execute.go. */
module Witnesses {
  import opened Results
  import opened Schema
  import opened Sql
  import opened Changesets

  // ----- literals, casts and loss -----

  /** fmt's %v of a value; a string renders as itself. */
  function GoText(p: Platform, v: GoValue): string {
    if v.Str? then v.s else p.goText(v)
  }

  /** sqlLiteral: the value the literal denotes once it is stored in a column of the type. */
  function SqlLiteral(p: Platform, v: GoValue, t: FieldType): Value {
    if v.Nil? then NULL
    else if t.Integer? && v.Int? then INTEGER(v.i)
    else if t.Integer? && v.Float? then INTEGER(Truncate(v.r))
    else if t.Real? && v.Float? then REAL(v.r)
    else if t.Real? && v.Int? then REAL(v.i as real)
    else if t.Boolean? && v.Bool? then INTEGER(if v.b then 1 else 0)
    else TEXT(GoText(p, v))
  }

  function SqlAffinity(t: FieldType): Affinity {
    match t
    case Integer => IntegerAffinity
    case Boolean => IntegerAffinity
    case Real => RealAffinity
    case _ => TextAffinity
  }

  /** lossGuard: true of a value that differs from its cast to the target affinity. */
  predicate Lossy(p: Platform, from: Affinity, to: FieldType, v: Value) {
    !v.NULL? && !SqlEqual(p, from, v, SqlAffinity(to), Cast(p, SqlAffinity(to), v))
  }

  predicate KnownMode(mode: CoerceMode) {
    !mode.OtherMode?
  }

  /** The value a declared coercion maps `v` to. */
  function Coerced(p: Platform, to: FieldType, mode: CoerceMode, v: Value): Value {
    match mode
    case CoerceTruncate => Cast(p, SqlAffinity(to), v)
    case CoerceRound => if to.Integer? then RoundCast(p, v) else Cast(p, SqlAffinity(to), v)
    case _ => v
  }

  /** A remap is one simultaneous substitution: its results are not mapped again. */
  function Remapped(remap: map<string, string>, v: Value): Value {
    if v.TEXT? && v.s in remap then TEXT(remap[v.s]) else v
  }

  predicate HasKind(w: Option<Witness>, kind: WitnessKind) {
    w.Some? && w.value.kind == kind
  }

  predicate NeedsBackfill(f: Field) {
    f.required && f.default.None?
  }

  predicate Tightens(of: Field, nf: Field) {
    nf.required && !of.required
  }

  // ----- what a rebuild declares for one field -----

  /** The remap's CASE expression would have no WHEN. */
  predicate EmptyRemap(of: Option<Field>, nf: Field, w: Option<Witness>) {
    of.Some? && of.value.typ == nf.typ && nf.typ.Enum? && HasKind(w, WitnessRemap) && w.value.remap == map[]
  }

  /** The field survives, and its column is no expression. */
  predicate Unread(p: Platform, olds: seq<Field>, nf: Field) {
    nf.id in FieldIds(olds) && nf.id in p.unreadable
  }

  /** The field survives, and its column reads as the clock. */
  predicate Timed(p: Platform, olds: seq<Field>, nf: Field) {
    nf.id in FieldIds(olds) && nf.id in p.clock
  }

  predicate Timeless(p: Platform, olds: seq<Field>, news: seq<Field>) {
    forall nf | nf in news :: !Timed(p, olds, nf)
  }

  /** Why selectExpr refuses to produce an expression, if it does. */
  function SelectFault(of: Option<Field>, nf: Field, w: Option<Witness>): Option<Fault> {
    if of.None? then
      if NeedsBackfill(nf) && !HasKind(w, WitnessBackfill) then Some(MissingWitness) else None
    else if of.value.typ == nf.typ then
      if Tightens(of.value, nf) && !HasKind(w, WitnessBackfill) then Some(MissingWitness) else None
    else if IsWidening(of.value.typ, nf.typ) then None
    else if !HasKind(w, WitnessCoerce) then Some(MissingWitness)
    else if !KnownMode(w.value.coerce) then Some(UnknownCoerceMode)
    else None
  }

  function Backfill(p: Platform, w: Option<Witness>, t: FieldType): Value {
    if w.Some? then SqlLiteral(p, w.value.backfill, t) else NULL
  }

  /** The declared value of a field in a rebuilt row, from its value `v` in the old row. */
  function Declared(p: Platform, of: Option<Field>, nf: Field, w: Option<Witness>, v: Value): Value {
    if of.None? then
      if nf.default.Some? then SqlLiteral(p, nf.default.value, nf.typ)
      else if nf.required then Backfill(p, w, nf.typ)
      else NULL
    else if of.value.typ == nf.typ then
      if Tightens(of.value, nf) then if v.NULL? then Backfill(p, w, nf.typ) else v
      else if nf.typ.Enum? && HasKind(w, WitnessRemap) then Remapped(w.value.remap, v)
      else v
    else if IsWidening(of.value.typ, nf.typ) then v
    else if w.Some? then Coerced(p, nf.typ, w.value.coerce, v)
    else v
  }

  // ----- the expressions that realise it -----

  function Froms(arms: seq<(string, string)>): set<string> {
    set a | a in arms :: a.0
  }

  lemma {:induction false} FirstMatchAppend(arms: seq<(string, string)>, from: string, to: string, v: Value)
    requires from !in Froms(arms)
    ensures FirstMatch(arms + [(from, to)], v) == if v == TEXT(from) then TEXT(to) else FirstMatch(arms, v)
  {
    if arms != [] {
      assert arms[0].0 in Froms(arms);
      assert Froms(arms[1..]) <= Froms(arms);
      assert (arms + [(from, to)])[1..] == arms[1..] + [(from, to)];
      FirstMatchAppend(arms[1..], from, to, v);
    }
  }

  /** `arms` lists each pair of `remap` once, in whatever order. */
  predicate Enumerates(arms: seq<(string, string)>, remap: map<string, string>) {
    && (forall i, j | 0 <= i < j < |arms| :: arms[i].0 != arms[j].0)
    && (forall a | a in arms :: a.0 in remap && remap[a.0] == a.1)
    && Froms(arms) == remap.Keys
  }

  lemma EnumeratesNothing()
    ensures Enumerates([], map[])
  {
  }

  lemma EnumeratesMore(arms: seq<(string, string)>, remap: map<string, string>, from: string, to: string)
    requires Enumerates(arms, remap) && from !in remap
    ensures Enumerates(arms + [(from, to)], remap[from := to])
  {
    var more := arms + [(from, to)];
    assert forall a | a in more :: a in arms || a == (from, to);
    forall i, j | 0 <= i < j < |more| ensures more[i].0 != more[j].0 {
      assert more[i] in arms;
    }
    assert forall a | a in arms :: a in more;
    assert (from, to) in more;
    assert Froms(more) == Froms(arms) + {from};
  }

  /** The CASE expression means the same whatever order the map was iterated in. */
  lemma {:induction false} RemapIgnoresOrder(arms: seq<(string, string)>, remap: map<string, string>, v: Value)
    requires Enumerates(arms, remap)
    ensures FirstMatch(arms, v) == Remapped(remap, v)
  {
    if arms == [] {
      assert remap.Keys == {};
    } else {
      var n := |arms| - 1;
      var (from, to) := arms[n];
      var rest, smaller := arms[..n], remap - {from};
      assert arms == rest + [(from, to)];
      assert arms[n] in arms;
      assert from !in Froms(rest);
      assert Froms(arms) == Froms(rest) + {from};
      assert Froms(rest) == smaller.Keys;
      RemapIgnoresOrder(rest, smaller, v);
      FirstMatchAppend(rest, from, to, v);
    }
  }

  /** remapExpr: one WHEN arm per pair, in the order the map happens to be iterated. */
  method RemapExpr(p: Platform, col: string, remap: map<string, string>) returns (e: Expr)
    ensures Reads(e) == {col} && (Parses(p, e) <==> col !in p.unreadable && remap != map[])
    ensures forall cells :: Eval(p, e, cells) == Remapped(remap, Seen(p, col, Cell(cells, col)))
  {
    hide Enumerates, Remapped, FirstMatch, Seen, Cell;
    var arms: seq<(string, string)> := [];
    var left := remap;
    EnumeratesNothing();
    ghost var done: map<string, string> := map[];
    while left != map[]
      invariant Enumerates(arms, done)
      invariant arms == [] <==> done == map[]
      invariant forall k :: k in remap <==> k in done || k in left
      invariant forall k | k in done :: k !in left && done[k] == remap[k]
      invariant forall k | k in left :: left[k] == remap[k]
      decreases |left|
    {
      var from :| from in left;
      EnumeratesMore(arms, done, from, left[from]);
      arms := arms + [(from, left[from])];
      done := done[from := left[from]];
      left := left - {from};
    }
    assert forall k :: k in remap <==> k in done;
    assert done == remap;
    CaseIsRemap(p, col, arms, remap);
    e := CaseOf(col, arms);
  }

  lemma CaseIsRemap(p: Platform, col: string, arms: seq<(string, string)>, remap: map<string, string>)
    requires Enumerates(arms, remap)
    ensures forall cells :: Eval(p, CaseOf(col, arms), cells) == Remapped(remap, Seen(p, col, Cell(cells, col)))
  {
    hide Enumerates, Remapped, FirstMatch, Seen, Cell;
    forall v ensures FirstMatch(arms, v) == Remapped(remap, v) {
      RemapIgnoresOrder(arms, remap, v);
    }
  }

  /** coerceExpr. */
  method CoerceExpr(p: Platform, col: string, to: FieldType, mode: CoerceMode) returns (r: Result<Expr, Fault>)
    ensures r.Ok? <==> KnownMode(mode)
    ensures r.Ok? ==> Reads(r.value) == {col} && (Parses(p, r.value) <==> col !in p.unreadable)
    ensures r.Ok? ==> forall cells :: Eval(p, r.value, cells) == Coerced(p, to, mode, Seen(p, col, Cell(cells, col)))
  {
    match mode
    case CoerceTruncate => r := Ok(CastOf(col, SqlAffinity(to)));
    case CoerceRound =>
      if to.Integer? {
        r := Ok(RoundOf(col));
      } else {
        r := Ok(CastOf(col, SqlAffinity(to)));
      }
    case CoerceFail => r := Ok(Col(col));
    case OtherMode(_) => r := Err(UnknownCoerceMode);
  }

  /**
   * selectExpr: refuses exactly when a required witness is missing, and otherwise produces an
   * expression that computes the declared value of the field on every row.
   */
  method SelectExpr(p: Platform, oldFields: seq<Field>, nf: Field, w: Option<Witness>) returns (r: Result<Expr, Fault>)
    ensures r.Ok? <==> SelectFault(FieldById(oldFields, nf.id), nf, w).None?
    ensures r.Ok? ==> (Parses(p, r.value) <==> !EmptyRemap(FieldById(oldFields, nf.id), nf, w) && !Unread(p, oldFields, nf))
    ensures r.Ok? ==> Reads(r.value) == if nf.id in FieldIds(oldFields) then {nf.id} else {}
    ensures r.Ok? ==> forall cells ::
              Eval(p, r.value, cells) == Declared(p, FieldById(oldFields, nf.id), nf, w, Seen(p, nf.id, Cell(cells, nf.id)))
  {
    hide SqlLiteral, Coerced, Remapped, Seen, Cell;
    var of := FieldById(oldFields, nf.id);
    if of.None? {
      if nf.required && nf.default.None? {
        if w.None? || w.value.kind != WitnessBackfill {
          return Err(MissingWitness);
        }
        return Ok(Lit(SqlLiteral(p, w.value.backfill, nf.typ)));
      }
      if nf.default.Some? {
        return Ok(Lit(SqlLiteral(p, nf.default.value, nf.typ)));
      }
      return Ok(Lit(NULL));
    }
    if of.value.typ == nf.typ {
      var expr := Col(nf.id);
      if nf.typ.Enum? && w.Some? && w.value.kind == WitnessRemap {
        expr := RemapExpr(p, nf.id, w.value.remap);
      }
      if nf.required && !of.value.required {
        if w.None? || w.value.kind != WitnessBackfill {
          return Err(MissingWitness);
        }
        expr := Coalesce(expr, SqlLiteral(p, w.value.backfill, nf.typ));
      }
      return Ok(expr);
    }
    if IsWidening(of.value.typ, nf.typ) {
      return Ok(Col(nf.id));
    }
    if w.None? || w.value.kind != WitnessCoerce {
      return Err(MissingWitness);
    }
    r := CoerceExpr(p, nf.id, nf.typ, w.value.coerce);
  }

  // ----- witnesses by field -----

  /** witnessByField: the last witness attached to an operation of each field. */
  function WitnessOf(ops: seq<Operation>, fieldId: string): Option<Witness> {
    if ops == [] then None
    else
      var op := ops[|ops| - 1];
      if op.witness_.Some? && op.fieldId == fieldId && fieldId != "" then op.witness_
      else WitnessOf(ops[..|ops| - 1], fieldId)
  }

  method WitnessByField(ops: seq<Operation>) returns (m: map<string, Witness>)
    ensures forall id :: WitnessOf(ops, id) == if id in m then Some(m[id]) else None
  {
    m := map[];
    for i := 0 to |ops|
      invariant forall id :: WitnessOf(ops[..i], id) == if id in m then Some(m[id]) else None
    {
      assert ops[..i + 1][..i] == ops[..i];
      if ops[i].witness_.Some? && ops[i].fieldId != "" {
        m := m[ops[i].fieldId := ops[i].witness_.value];
      }
    }
    assert ops[..|ops|] == ops;
  }
}

/** What a declared witness means for the values of a rebuilt table. */
module Meaning {
  import opened Results
  import opened Schema
  import opened Sql
  import opened Materialize
  import opened Changesets
  import opened Witnesses
  import opened Executor
  import opened Views
  import opened NativePath
  import opened Migration
  import opened Reach
  import opened FastSlow
  import opened Lossless

  // ----- the meanings, stated without the code that computes them -----

  /** `i` is `r` without its fraction. */
  predicate TowardZero(r: real, i: int) {
    if r >= 0.0 then i as real <= r < i as real + 1.0 else i as real - 1.0 < r <= i as real
  }

  /** `i` is the whole number nearest to `r`, the one further from zero when two are. */
  predicate NearestHalfAway(r: real, i: int) {
    if r >= 0.0 then i as real - 0.5 <= r < i as real + 0.5 else i as real - 0.5 < r <= i as real + 0.5
  }

  lemma TruncateMeans(r: real)
    ensures TowardZero(r, Truncate(r))
  {
  }

  lemma RoundMeans(r: real)
    ensures NearestHalfAway(r, RoundHalfAway(r))
  {
  }

  /** The value is of the storage class its column is declared with. */
  predicate OfClass(a: Affinity, v: Value) {
    match a
    case TextAffinity => v.TEXT?
    case IntegerAffinity => v.INTEGER?
    case RealAffinity => v.REAL?
  }

  /** What a backfill or a default means in a column of the type; a JSON number may arrive as a float. */
  predicate Denotes(v: GoValue, t: FieldType, after: Value) {
    && (v.Nil? ==> after.NULL?)
    && (t.Integer? && v.Int? ==> after == INTEGER(v.i))
    && (t.Integer? && v.Float? ==> after.INTEGER? && TowardZero(v.r, after.i))
    && (t.Real? && v.Int? ==> after == REAL(v.i as real))
    && (t.Real? && v.Float? ==> after == REAL(v.r))
    && (t.Boolean? && v.Bool? ==> after == INTEGER(if v.b then 1 else 0))
    && (v.Str? && SqlAffinity(t).TextAffinity? ==> after == TEXT(v.s))
  }

  /** The literal of a backfill or a default denotes it. */
  lemma LiteralDenotes(p: Platform, v: GoValue, t: FieldType)
    ensures Denotes(v, t, Stored(p, SqlAffinity(t), SqlLiteral(p, v, t)))
  {
    if v.Float? {
      TruncateMeans(v.r);
    }
  }

  predicate IsRemapped(nf: Field, w: Option<Witness>) {
    nf.typ.Enum? && HasKind(w, WitnessRemap)
  }

  /** What becomes of the value `v` of a surviving field: `after` is its value in the rebuilt row. */
  predicate Means(p: Platform, of: Field, nf: Field, w: Option<Witness>, v: Value, after: Value) {
    // verbatim, unless a witness says otherwise
    && (of.typ == nf.typ && !Tightens(of, nf) && !IsRemapped(nf, w) ==> after == v)
    // a backfill fills nulls and nothing else
    && (of.typ == nf.typ && Tightens(of, nf) ==>
          && (!v.NULL? ==> after == v)
          && (v.NULL? ==> !after.NULL? && HasKind(w, WitnessBackfill)
                          && Denotes(w.value.backfill, nf.typ, after)
                          && after == Stored(p, ColumnDef(nf).affinity, SqlLiteral(p, w.value.backfill, nf.typ))))
    // a remap substitutes once, simultaneously
    && (of.typ == nf.typ && !Tightens(of, nf) && IsRemapped(nf, w) ==>
          && (v.NULL? ==> after.NULL?)
          && (v.TEXT? ==> after == TEXT(if v.s in w.value.remap then w.value.remap[v.s] else v.s)))
    // widening embeds integers in the reals; a tightened one had no nulls to fill
    && (IsWidening(of.typ, nf.typ) ==>
          && (v.INTEGER? ==> after == REAL(v.i as real))
          && (v.NULL? ==> after.NULL? && !nf.required))
    // a declared narrowing
    && (of.typ.Real? && nf.typ.Integer? && HasKind(w, WitnessCoerce) && v.REAL? ==>
          && after.INTEGER?
          && (w.value.coerce == CoerceTruncate ==> TowardZero(v.r, after.i))
          && (w.value.coerce == CoerceRound ==> NearestHalfAway(v.r, after.i))
          && (w.value.coerce == CoerceFail ==> after.i as real == v.r))
    // coerce=fail, between any two types, keeps every value
    && (of.typ != nf.typ && !IsWidening(of.typ, nf.typ) && HasKind(w, WitnessCoerce) && w.value.coerce == CoerceFail ==>
          if v.NULL? then after.NULL?
          else OfClass(SqlAffinity(nf.typ), after) && SqlEqual(p, SqlAffinity(of.typ), v, SqlAffinity(nf.typ), after))
  }

  /** What an added field holds in a row that was there before. */
  predicate AddedMeans(p: Platform, nf: Field, w: Option<Witness>, after: Value) {
    // its default, with or without a witness
    && (nf.default.Some? ==> Denotes(nf.default.value, nf.typ, after) && after == Stored(p, SqlAffinity(nf.typ), SqlLiteral(p, nf.default.value, nf.typ)))
    // a required field without one holds the declared backfill, which is not null
    && (NeedsBackfill(nf) ==>
          && HasKind(w, WitnessBackfill) && !after.NULL? && Denotes(w.value.backfill, nf.typ, after)
          && after == Stored(p, SqlAffinity(nf.typ), SqlLiteral(p, w.value.backfill, nf.typ)))
    // any other field is null
    && (nf.default.None? && !nf.required ==> after.NULL?)
  }

  /** What a field whose column reads as the clock holds, in every row alike. */
  predicate TimeMeans(p: Platform, of: Field, nf: Field, w: Option<Witness>, after: Value)
    requires nf.id in p.clock
  {
    of.typ == nf.typ && !IsRemapped(nf, w) ==> after == Stored(p, SqlAffinity(nf.typ), TEXT(p.clock[nf.id]))
  }

  // ----- one value -----

  lemma AffinityOfColumn(f: Field)
    ensures ColumnDef(f).affinity == SqlAffinity(f.typ)
  {
  }

  lemma SameTypeMeans(p: Platform, of: Field, nf: Field, w: Option<Witness>, v: Value)
    requires of.typ == nf.typ && SelectFault(Some(of), nf, w).None?
    requires Stored(p, SqlAffinity(of.typ), v) == v
    requires nf.required ==> !Stored(p, SqlAffinity(nf.typ), Declared(p, Some(of), nf, w, v)).NULL?
    ensures Means(p, of, nf, w, v, Stored(p, SqlAffinity(nf.typ), Declared(p, Some(of), nf, w, v)))
  {
    hide SqlLiteral, SqlEqual, Denotes;
    AffinityOfColumn(nf);
    if HasKind(w, WitnessBackfill) {
      LiteralDenotes(p, w.value.backfill, nf.typ);
    }
  }

  /** A value that survives its cast is kept, in the storage class of its new column. */
  lemma LosslessMeans(p: Platform, from: FieldType, to: FieldType, v: Value)
    requires !v.NULL? && !Lossy(p, SqlAffinity(from), to, v)
    ensures var after := Stored(p, SqlAffinity(to), v);
            OfClass(SqlAffinity(to), after) && SqlEqual(p, SqlAffinity(from), v, SqlAffinity(to), after)
  {
  }

  lemma FailMeans(p: Platform, of: Field, nf: Field, w: Option<Witness>, v: Value)
    requires of.typ != nf.typ && !IsWidening(of.typ, nf.typ) && HasKind(w, WitnessCoerce) && w.value.coerce == CoerceFail
    requires !Lossy(p, SqlAffinity(of.typ), nf.typ, v)
    ensures Means(p, of, nf, w, v, Stored(p, SqlAffinity(nf.typ), Declared(p, Some(of), nf, w, v)))
  {
    hide SqlLiteral, Lossy;
    if !v.NULL? {
      LosslessMeans(p, of.typ, nf.typ, v);
    }
  }

  lemma NarrowMeans(p: Platform, of: Field, nf: Field, w: Option<Witness>, v: Value)
    requires of.typ != nf.typ && !IsWidening(of.typ, nf.typ) && HasKind(w, WitnessCoerce)
    requires w.value.coerce == CoerceTruncate || w.value.coerce == CoerceRound
    ensures Means(p, of, nf, w, v, Stored(p, SqlAffinity(nf.typ), Declared(p, Some(of), nf, w, v)))
  {
    hide SqlLiteral, SqlEqual, TowardZero, NearestHalfAway;
    if v.REAL? {
      TruncateMeans(v.r);
      RoundMeans(v.r);
    }
  }

  lemma WidenMeans(p: Platform, of: Field, nf: Field, w: Option<Witness>, v: Value)
    requires IsWidening(of.typ, nf.typ)
    requires nf.required ==> !Stored(p, SqlAffinity(nf.typ), Declared(p, Some(of), nf, w, v)).NULL?
    ensures Means(p, of, nf, w, v, Stored(p, SqlAffinity(nf.typ), Declared(p, Some(of), nf, w, v)))
  {
    hide SqlLiteral, SqlEqual;
  }

  lemma AddedValueMeans(p: Platform, nf: Field, w: Option<Witness>, v: Value)
    requires SelectFault(None, nf, w).None?
    requires nf.required ==> !Stored(p, SqlAffinity(nf.typ), Declared(p, None, nf, w, v)).NULL?
    ensures AddedMeans(p, nf, w, Stored(p, SqlAffinity(nf.typ), Declared(p, None, nf, w, v)))
  {
    hide SqlLiteral, Denotes;
    if HasKind(w, WitnessBackfill) {
      LiteralDenotes(p, w.value.backfill, nf.typ);
    }
    if nf.default.Some? {
      LiteralDenotes(p, nf.default.value, nf.typ);
    }
  }

  lemma ValueMeans(p: Platform, of: Field, nf: Field, w: Option<Witness>, v: Value)
    requires SelectFault(Some(of), nf, w).None?
    requires Stored(p, SqlAffinity(of.typ), v) == v
    requires nf.required ==> !Stored(p, SqlAffinity(nf.typ), Declared(p, Some(of), nf, w, v)).NULL?
    requires MustNotLose(Some(of), nf, w) ==> !Lossy(p, SqlAffinity(of.typ), nf.typ, v)
    ensures Means(p, of, nf, w, v, Stored(p, SqlAffinity(nf.typ), Declared(p, Some(of), nf, w, v)))
  {
    hide Stored, Declared, Means, Lossy;
    if of.typ == nf.typ {
      SameTypeMeans(p, of, nf, w, v);
    } else if IsWidening(of.typ, nf.typ) {
      WidenMeans(p, of, nf, w, v);
    } else if w.value.coerce == CoerceFail {
      FailMeans(p, of, nf, w, v);
    } else {
      NarrowMeans(p, of, nf, w, v);
    }
  }

  // ----- a rebuilt table -----

  lemma FieldMeans(p: Platform, oe: Entity, ne: Entity, ops: seq<Operation>, t: Table, of: Field, nf: Field, r: string)
    requires DistinctFieldIds(oe.fields) && DistinctFieldIds(ne.fields) && MatchesButBounds(t, oe) && TableOk(p, t)
    requires Selectable(oe.fields, ne.fields, ops) && !LosesInformation(p, t, oe.fields, ne.fields, ops)
    requires AllRowsOk(p, Columns(ne.fields), RebuiltRows(p, oe.fields, ne.fields, ops, t.rows))
    requires nf in ne.fields && FieldById(oe.fields, nf.id) == Some(of) && r in t.rows && nf.id !in p.clock
    ensures Means(p, of, nf, WitnessOf(ops, nf.id), Cell(t.rows[r].cells, nf.id),
                  Cell(RebuiltTable(p, oe, ne, ops, t).rows[r].cells, nf.id))
  {
    hide ColumnDef, Stored, Declared, Means, WitnessOf, SelectFault, Lossy, MustNotLose, WithinBounds, InDomain, RebuiltRow, Columns, Indexes, TableOk, FieldById;
    var rebuilt := RebuiltTable(p, oe, ne, ops, t);
    var w, v := WitnessOf(ops, nf.id), Cell(t.rows[r].cells, nf.id);
    AffinityOfColumn(of);
    AffinityOfColumn(nf);
    RebuiltRowCell(p, oe.fields, ne.fields, ops, t.rows[r], nf);
    StableCell(p, oe, t, of, of, r);
    ColumnsOfFields(ne.fields);
    assert rebuilt.rows[r] == RebuiltRow(p, oe.fields, ne.fields, ops, t.rows[r]);
    assert RowOk(p, Columns(ne.fields), rebuilt.rows[r]);
    assert nf.id in FieldIds(ne.fields);
    RequiredIsNotNull(nf);
    if MustNotLose(Some(of), nf, w) {
      NotLossy(p, oe, ne, ops, t, of, nf, r);
    }
    ValueMeans(p, of, nf, w, v);
  }

  lemma TimedFieldMeans(p: Platform, oe: Entity, ne: Entity, ops: seq<Operation>, t: Table, of: Field, nf: Field, r: string)
    requires DistinctFieldIds(ne.fields) && nf in ne.fields && FieldById(oe.fields, nf.id) == Some(of) && r in t.rows && nf.id in p.clock
    ensures TimeMeans(p, of, nf, WitnessOf(ops, nf.id), Cell(RebuiltTable(p, oe, ne, ops, t).rows[r].cells, nf.id))
  {
    hide ColumnDef, Stored, SqlLiteral, WitnessOf, RebuiltRow, Columns, Indexes, FieldById;
    AffinityOfColumn(nf);
    RebuiltRowCell(p, oe.fields, ne.fields, ops, t.rows[r], nf);
  }

  lemma AddedFieldMeans(p: Platform, oe: Entity, ne: Entity, ops: seq<Operation>, t: Table, nf: Field, r: string)
    requires DistinctFieldIds(ne.fields) && Selectable(oe.fields, ne.fields, ops)
    requires AllRowsOk(p, Columns(ne.fields), RebuiltRows(p, oe.fields, ne.fields, ops, t.rows))
    requires nf in ne.fields && FieldById(oe.fields, nf.id).None? && r in t.rows
    ensures AddedMeans(p, nf, WitnessOf(ops, nf.id), Cell(RebuiltTable(p, oe, ne, ops, t).rows[r].cells, nf.id))
  {
    hide ColumnDef, Stored, Declared, AddedMeans, WitnessOf, SelectFault, WithinBounds, InDomain, RebuiltRow, Columns, Indexes, FieldById;
    var rebuilt := RebuiltTable(p, oe, ne, ops, t);
    AffinityOfColumn(nf);
    RebuiltRowCell(p, oe.fields, ne.fields, ops, t.rows[r], nf);
    ColumnsOfFields(ne.fields);
    assert rebuilt.rows[r] == RebuiltRow(p, oe.fields, ne.fields, ops, t.rows[r]);
    assert RowOk(p, Columns(ne.fields), rebuilt.rows[r]);
    assert nf.id in FieldIds(ne.fields);
    RequiredIsNotNull(nf);
    AddedValueMeans(p, nf, WitnessOf(ops, nf.id), Seen(p, nf.id, Cell(t.rows[r].cells, nf.id)));
  }

  lemma RequiredIsNotNull(f: Field)
    ensures ColumnDef(f).notNull == f.required
  {
  }

  lemma NotLossy(p: Platform, oe: Entity, ne: Entity, ops: seq<Operation>, t: Table, of: Field, nf: Field, r: string)
    requires DistinctFieldIds(oe.fields) && MatchesButBounds(t, oe) && !LosesInformation(p, t, oe.fields, ne.fields, ops)
    requires nf in ne.fields && FieldById(oe.fields, nf.id) == Some(of) && r in t.rows && nf.id !in p.clock
    requires MustNotLose(Some(of), nf, WitnessOf(ops, nf.id))
    ensures !Lossy(p, SqlAffinity(of.typ), nf.typ, Cell(t.rows[r].cells, nf.id))
  {
    hide Lossy, MustNotLose, WitnessOf, FieldById;
    MatchingColumns(t, oe);
    AffinityOfColumn(of);
    assert nf.id in t.cols by {
      assert of.id in FieldIds(oe.fields);
    }
    assert WithoutBounds(t.cols[of.id]).affinity == WithoutBounds(ColumnDef(of)).affinity;
    assert r !in LossyRows(p, t, nf);
  }

  /**
   * The meaning of a rebuild. When it succeeds, the rows are the old rows by id, with their
   * timestamps, each value of each surviving field means what its witness declares, and an added
   * field holds its default, its backfill or null. A surviving field that reads as the clock holds the
   * time, whatever it held.
   */
  lemma RebuildMeans(p: Platform, db: Db, oe: Entity, ne: Entity, ops: seq<Operation>, pairs: set<(string, string)>)
    requires oe.id == ne.id && DistinctFieldIds(oe.fields) && DistinctFieldIds(ne.fields)
    requires Ready(db, ne.id, pairs) && UniquePairs([ne]) <= pairs
    requires MatchesButBounds(db.tables[ne.id], oe) && TableOk(p, db.tables[ne.id])
    requires Rebuild(p, db, oe, ne, ops).Ok?
    ensures ne.id in Rebuild(p, db, oe, ne, ops).value.tables
    ensures var t, after := db.tables[ne.id], Rebuild(p, db, oe, ne, ops).value.tables[ne.id];
            && SameRows(t.rows, after.rows)
            && forall nf, r | nf in ne.fields && r in t.rows ::
                 match FieldById(oe.fields, nf.id)
                 case None => AddedMeans(p, nf, WitnessOf(ops, nf.id), Cell(after.rows[r].cells, nf.id))
                 case Some(of) =>
                   if nf.id in p.clock then TimeMeans(p, of, nf, WitnessOf(ops, nf.id), Cell(after.rows[r].cells, nf.id))
                   else Means(p, of, nf, WitnessOf(ops, nf.id), Cell(t.rows[r].cells, nf.id), Cell(after.rows[r].cells, nf.id))
  {
    hide Means, AddedMeans, TimeMeans, Rebuild, RebuiltTable, MatchesButBounds, TableOk, Selectable, LosesInformation, AllRowsOk, WitnessOf, Shaped, Named, NamesDistinct, UniquePairs, Columns;
    RebuildOutcome(p, db, oe, ne, ops, pairs);
    var t := db.tables[ne.id];
    forall nf, r | nf in ne.fields && r in t.rows && nf.id in p.clock && FieldById(oe.fields, nf.id).Some? {
      TimedFieldMeans(p, oe, ne, ops, t, FieldById(oe.fields, nf.id).value, nf, r);
    }
    forall nf, r | nf in ne.fields && r in t.rows && nf.id !in p.clock && FieldById(oe.fields, nf.id).Some? {
      FieldMeans(p, oe, ne, ops, t, FieldById(oe.fields, nf.id).value, nf, r);
    }
    forall nf, r | nf in ne.fields && r in t.rows && FieldById(oe.fields, nf.id).None? {
      AddedFieldMeans(p, oe, ne, ops, t, nf, r);
    }
  }

  // ----- what coerce=fail refuses -----

  /** A real is lost in an integer column exactly when it has a fraction, and text when it is no whole number. */
  lemma LossIsOfInformation(p: Platform, v: Value)
    ensures !Lossy(p, RealAffinity, Integer, NULL)
    ensures v.REAL? ==> (Lossy(p, RealAffinity, Integer, v) <==> v.r != v.r.Floor as real)
    ensures v.TEXT? ==> (Lossy(p, TextAffinity, Integer, v) <==> p.numeric(v.s) != Some(p.prefixInt(v.s) as real))
    ensures v.TEXT? ==> !Lossy(p, TextAffinity, Text, v)
  {
    if v.REAL? && v.r < 0.0 {
      assert v.r == v.r.Floor as real ==> (-v.r).Floor == -(v.r.Floor);
    }
  }

  /** And nothing else: a rebuild refused for loss has a value that a field narrowed with coerce=fail would lose. */
  lemma CoerceFailRefusesOnlyLoss(p: Platform, db: Db, oe: Entity, ne: Entity, ops: seq<Operation>)
    requires Rebuild(p, db, oe, ne, ops) == Err(LossyCoercion)
    ensures ne.id in db.tables
    ensures exists of, nf, r | of in oe.fields && nf in ne.fields && r in db.tables[ne.id].rows ::
              && of.id == nf.id && of.typ != nf.typ
              && WitnessOf(ops, nf.id).Some? && WitnessOf(ops, nf.id).value.kind == WitnessCoerce && WitnessOf(ops, nf.id).value.coerce == CoerceFail
              && nf.id in db.tables[ne.id].cols
              && Lossy(p, db.tables[ne.id].cols[nf.id].affinity, nf.typ, Seen(p, nf.id, Cell(db.tables[ne.id].rows[r].cells, nf.id)))
  {
    hide Lossy, WitnessOf, Columns, RebuiltRows, Selectable, HasEmptyRemap, HasUnreadable, FieldIds, NamesAccepted, Seen, IndexStmts, RowOk;
    NotLossyElsewhere(p, db, oe, ne, ops);
    var t := db.tables[ne.id];
    var nf :| nf in ne.fields && MustNotLose(FieldById(oe.fields, nf.id), nf, WitnessOf(ops, nf.id)) && nf.id in t.cols && LossyRows(p, t, nf) != {};
    var r :| r in LossyRows(p, t, nf);
    assert FieldById(oe.fields, nf.id).value in oe.fields;
  }

  lemma {:induction false} IndexFaults(p: Platform, eid: string, fields: seq<Field>, db: Db)
    ensures RunAll(p, IndexStmts(eid, eid, fields), db) != Err(LossyCoercion)
  {
    hide NoDuplicates, IndexTaken, IndexName;
    if fields != [] {
      var rest, f := fields[..|fields| - 1], fields[|fields| - 1];
      IndexFaults(p, eid, rest, db);
      if f.unique {
        RunAllAppend(p, IndexStmts(eid, eid, rest), [CreateUniqueIndex(IndexName(eid, f.id), eid, f.id)], db);
      }
    }
  }

  lemma NotLossyElsewhere(p: Platform, db: Db, oe: Entity, ne: Entity, ops: seq<Operation>)
    requires Rebuild(p, db, oe, ne, ops) == Err(LossyCoercion)
    ensures ne.id in db.tables && LosesInformation(p, db.tables[ne.id], oe.fields, ne.fields, ops)
  {
    hide LosesInformation, Columns, RebuiltRows, Selectable, HasEmptyRemap, HasUnreadable, FieldIds, NamesAccepted, IndexStmts, RowOk;
    if ne.id in db.tables {
      var rows := RebuiltRows(p, oe.fields, ne.fields, ops, db.tables[ne.id].rows);
      IndexFaults(p, ne.id, ne.fields, WithTable(db, ne.id, Table(Columns(ne.fields), map[], rows, {})));
    }
  }

  /** coerce=fail refuses the rebuild if even one value would change. */
  lemma CoerceFailRefuses(p: Platform, db: Db, oe: Entity, ne: Entity, ops: seq<Operation>, of: Field, nf: Field, r: string)
    requires ne.id in db.tables && nf in ne.fields && FieldById(oe.fields, nf.id) == Some(of)
    requires nf.id in db.tables[ne.id].cols && r in db.tables[ne.id].rows
    requires MustNotLose(Some(of), nf, WitnessOf(ops, nf.id))
    requires Lossy(p, db.tables[ne.id].cols[nf.id].affinity, nf.typ, Seen(p, nf.id, Cell(db.tables[ne.id].rows[r].cells, nf.id)))
    ensures Rebuild(p, db, oe, ne, ops).Err?
  {
    hide Lossy, MustNotLose, WitnessOf, Columns, RebuiltRows, Selectable, FieldIds;
    assert r in LossyRows(p, db.tables[ne.id], nf);
  }
}

/** What a successful changeset leaves: the whole database, table by table. */
module Migration {
  import opened Results
  import opened Schema
  import opened Sql
  import opened Materialize
  import opened Changesets
  import opened Witnesses
  import opened Diffs
  import opened Executor
  import opened Views
  import opened NativePath
  import opened ChangesetShape

  // ----- indexes after a rebuild or a create -----

  lemma CreateIndexExact(p: Platform, db: Db, eid: string, c: string, pairs: set<(string, string)>)
    requires Ready(db, eid, pairs) && (eid, c) in pairs
    requires RunCreateUniqueIndex(p, db, IndexName(eid, c), eid, c).Ok?
    ensures var after := RunCreateUniqueIndex(p, db, IndexName(eid, c), eid, c).value;
            && Ready(after, eid, pairs)
            && after == WithTable(db, eid, db.tables[eid].(indexes := db.tables[eid].indexes[c := IndexName(eid, c)]))
            && c in db.tables[eid].cols
            && (NoDuplicates(db.tables[eid].rows, c) || c in db.tables[eid].indexes)
  {
    CreateIndexTouches(p, db, eid, c, pairs);
    var t := db.tables[eid];
    if IndexTaken(db, IndexName(eid, c)) {
      TakenMeansIndexed(db, pairs, eid, c);
      assert t.indexes[c := IndexName(eid, c)] == t.indexes;
      assert db == WithTable(db, eid, t);
    }
  }

  lemma IndexesOfLast(eid: string, fields: seq<Field>)
    requires fields != []
    ensures var rest, f := fields[..|fields| - 1], fields[|fields| - 1];
            Indexes(eid, fields) ==
            if f.unique then Indexes(eid, rest)[f.id := IndexName(eid, f.id)] else Indexes(eid, rest)
  {
    var rest, f := fields[..|fields| - 1], fields[|fields| - 1];
    assert fields == rest + [f];
    assert UniqueIds(fields) == UniqueIds(rest) + if f.unique then {f.id} else {};
  }

  function WithIndexes(db: Db, eid: string, indexes: map<string, string>): Db
    requires eid in db.tables
  {
    WithTable(db, eid, db.tables[eid].(indexes := db.tables[eid].indexes + indexes))
  }

  lemma OneMoreIndex(p: Platform, db: Db, eid: string, before: map<string, string>, c: string, pairs: set<(string, string)>)
    requires Ready(db, eid, pairs) && Ready(WithIndexes(db, eid, before), eid, pairs) && (eid, c) in pairs
    requires RunCreateUniqueIndex(p, WithIndexes(db, eid, before), IndexName(eid, c), eid, c).Ok?
    ensures var after := RunCreateUniqueIndex(p, WithIndexes(db, eid, before), IndexName(eid, c), eid, c).value;
            Ready(after, eid, pairs) && after == WithIndexes(db, eid, before[c := IndexName(eid, c)])
  {
    hide RunCreateUniqueIndex, Shaped, Named, NamesDistinct, NoDuplicates, IndexName;
    CreateIndexExact(p, WithIndexes(db, eid, before), eid, c, pairs);
    var indexes := db.tables[eid].indexes;
    assert (indexes + before)[c := IndexName(eid, c)] == indexes + before[c := IndexName(eid, c)];
  }

  /** Running an entity's index statements adds exactly its unique indexes. */
  lemma {:induction false} IndexStmtsOutcome(p: Platform, db: Db, eid: string, fields: seq<Field>, pairs: set<(string, string)>)
    requires Ready(db, eid, pairs) && forall f | f in fields && f.unique :: (eid, f.id) in pairs
    requires RunAll(p, IndexStmts(eid, eid, fields), db).Ok?
    ensures var after := RunAll(p, IndexStmts(eid, eid, fields), db).value;
            Ready(after, eid, pairs) && after == WithIndexes(db, eid, Indexes(eid, fields))
  {
    hide Indexes, RunCreateUniqueIndex, WithTable, Shaped, Named, NamesDistinct, IndexName;
    if fields == [] {
      NoIndexes(eid);
      UnchangedTable(db, eid, pairs);
      assert db.tables[eid].indexes + map[] == db.tables[eid].indexes;
    } else {
      var rest, f := fields[..|fields| - 1], fields[|fields| - 1];
      assert f in fields && forall g | g in rest :: g in fields;
      IndexesOfLast(eid, fields);
      if f.unique {
        RunAllAppend(p, IndexStmts(eid, eid, rest), [CreateUniqueIndex(IndexName(eid, f.id), eid, f.id)], db);
        IndexStmtsOutcome(p, db, eid, rest, pairs);
        OneMoreIndex(p, db, eid, Indexes(eid, rest), f.id, pairs);
      } else {
        IndexStmtsOutcome(p, db, eid, rest, pairs);
      }
    }
  }

  lemma NoIndexes(eid: string)
    ensures Indexes(eid, []) == map[]
  {
  }

  lemma UnchangedTable(db: Db, eid: string, pairs: set<(string, string)>)
    requires Ready(db, eid, pairs)
    ensures db == WithTable(db, eid, db.tables[eid])
  {
    assert db.tables == db.tables[eid := db.tables[eid]];
  }

  // ----- one entity -----

  function FreshTable(e: Entity): Table {
    Table(Columns(e.fields), Indexes(e.id, e.fields), map[], {})
  }

  function RebuiltTable(p: Platform, oe: Entity, ne: Entity, ops: seq<Operation>, t: Table): Table {
    Table(Columns(ne.fields), Indexes(ne.id, ne.fields), RebuiltRows(p, oe.fields, ne.fields, ops, t.rows), {})
  }

  predicate AllRowsOk(p: Platform, cols: map<string, Column>, rows: map<string, Row>) {
    forall r | r in rows :: RowOk(p, cols, rows[r])
  }

  lemma NewTableIsReady(db: Db, eid: string, t: Table, pairs: set<(string, string)>)
    requires Named(db, pairs) && NamesDistinct(pairs) && t.indexes == map[] && Shaped(t)
    ensures Ready(WithTable(db, eid, t), eid, pairs)
  {
    assert forall u, c, i | Holds(WithTable(db, eid, t), u, c, i) :: Holds(db, u, c, i);
  }

  lemma PairsOfEntity(e: Entity, pairs: set<(string, string)>)
    requires UniquePairs([e]) <= pairs
    ensures forall f | f in e.fields && f.unique :: (e.id, f.id) in pairs
  {
    forall f | f in e.fields {
      UniqueCovered(e, f, pairs);
    }
  }

  lemma CreateEntityOutcome(p: Platform, db: Db, e: Entity, pairs: set<(string, string)>)
    requires Named(db, pairs) && NamesDistinct(pairs) && UniquePairs([e]) <= pairs
    requires e.id !in db.tables && CreateEntity(p, db, e).Ok?
    ensures CreateEntity(p, db, e).value == WithTable(db, e.id, FreshTable(e))
    ensures Ready(CreateEntity(p, db, e).value, e.id, pairs)
  {
    hide Columns, Indexes;
    var bare := Table(Columns(e.fields), map[], map[], {});
    NewTableIsReady(db, e.id, bare, pairs);
    PairsOfEntity(e, pairs);
    IndexStmtsOutcome(p, WithTable(db, e.id, bare), e.id, e.fields, pairs);
    assert map[] + Indexes(e.id, e.fields) == Indexes(e.id, e.fields);
  }

  lemma RebuiltShape(p: Platform, olds: seq<Field>, news: seq<Field>, ops: seq<Operation>, rows: map<string, Row>)
    ensures Shaped(Table(Columns(news), map[], RebuiltRows(p, olds, news, ops, rows), {}))
    ensures SameRows(rows, RebuiltRows(p, olds, news, ops, rows))
  {
    hide Declared, Stored, WitnessOf;
  }

  /**
   * The rebuild path: every old row survives under its id with its timestamps, each field holding
   * its declared value; the columns and indexes are exactly the new entity's; every row satisfies
   * them. Nothing outside the table changes, and no guarded narrowing lost anything.
   */
  lemma RebuildOutcome(p: Platform, db: Db, oe: Entity, ne: Entity, ops: seq<Operation>, pairs: set<(string, string)>)
    requires Ready(db, ne.id, pairs) && UniquePairs([ne]) <= pairs
    requires Rebuild(p, db, oe, ne, ops).Ok?
    ensures var after := Rebuild(p, db, oe, ne, ops).value;
            && Ready(after, ne.id, pairs)
            && after == WithTable(db, ne.id, RebuiltTable(p, oe, ne, ops, db.tables[ne.id]))
    ensures SameRows(db.tables[ne.id].rows, RebuiltTable(p, oe, ne, ops, db.tables[ne.id]).rows)
    ensures Selectable(oe.fields, ne.fields, ops)
    ensures !LosesInformation(p, db.tables[ne.id], oe.fields, ne.fields, ops)
    ensures AllRowsOk(p, Columns(ne.fields), RebuiltRows(p, oe.fields, ne.fields, ops, db.tables[ne.id].rows))
  {
    hide Columns, Indexes, RebuiltRows, Selectable, HasEmptyRemap, LosesInformation, RowOk, NamesAccepted, IndexStmts;
    var rows := RebuiltRows(p, oe.fields, ne.fields, ops, db.tables[ne.id].rows);
    var bare := Table(Columns(ne.fields), map[], rows, {});
    RebuiltShape(p, oe.fields, ne.fields, ops, db.tables[ne.id].rows);
    NewTableIsReady(db, ne.id, bare, pairs);
    PairsOfEntity(ne, pairs);
    IndexStmtsOutcome(p, WithTable(db, ne.id, bare), ne.id, ne.fields, pairs);
    assert map[] + Indexes(ne.id, ne.fields) == Indexes(ne.id, ne.fields);
    SetTwice(db, ne.id, bare, RebuiltTable(p, oe, ne, ops, db.tables[ne.id]));
  }

  lemma SetTwice(db: Db, eid: string, a: Table, b: Table)
    ensures WithTable(WithTable(db, eid, a), eid, b) == WithTable(db, eid, b)
  {
    assert db.tables[eid := a][eid := b] == db.tables[eid := b];
  }

  /** What a successful changeset makes of the table of a surviving entity. */
  ghost predicate Migrated(p: Platform, t: Table, after: Table, oe: Entity, ne: Entity, own: seq<Operation>) {
    if NeedsRebuild(own) then
      && after == RebuiltTable(p, oe, ne, own, t)
      && Selectable(oe.fields, ne.fields, own)
      && !LosesInformation(p, t, oe.fields, ne.fields, own)
      && AllRowsOk(p, after.cols, after.rows)
    else
      && Shaped(after) && SameRows(t.rows, after.rows)
      && forall id :: ViewOf(after, id) == NativeView(p, ne.id, ne.fields, t, id)
  }

  lemma NativeOpsOfNothing(p: Platform, db: Db, eid: string)
    ensures NativeOps(p, db, eid, []) == Ok(db)
  {
  }

  lemma ChangeEntityOutcome(p: Platform, db: Db, olds: seq<Entity>, oe: Entity, ne: Entity, ops: seq<Operation>, pairs: set<(string, string)>)
    requires EntityById(olds, ne.id) == Some(oe) && DistinctFieldIds(oe.fields) && DistinctFieldIds(ne.fields)
    requires Ready(db, ne.id, pairs) && Carries(db.tables[ne.id], ne.id, oe.fields)
    requires UniquePairs([oe]) <= pairs && UniquePairs([ne]) <= pairs
    requires !Adds(ops, ne.id) && SameChanges(OpsOf(ops, ne.id), EntityChanges(oe, ne))
    requires ChangeEntity(p, db, olds, ne, ops).Ok?
    ensures var after := ChangeEntity(p, db, olds, ne, ops).value;
            && Ready(after, ne.id, pairs) && SameElsewhere(db, after, ne.id)
            && Migrated(p, db.tables[ne.id], after.tables[ne.id], oe, ne, OpsOf(ops, ne.id))
  {
    hide EntityChanges, ViewOf, NativeView, Rebuild, NativeOps, OpsOf, Named, NamesDistinct, Shaped, Columns, Indexes, UniquePairs;
    var own := OpsOf(ops, ne.id);
    if NeedsRebuild(own) {
      RebuildOutcome(p, db, oe, ne, own, pairs);
    } else {
      assert own == [] ==> NativeOps(p, db, ne.id, own) == Ok(db) by {
        NativeOpsOfNothing(p, db, ne.id);
      }
      NativeOutcome(p, db, oe, ne, own, pairs);
    }
  }
}

/** Materializing a manifest into an empty database (the first boot of an app). */
module MaterializeFresh {
  import opened Results
  import opened Schema
  import opened Sql
  import opened Materialize

  /** After the CREATE TABLEs: one empty, unindexed table per entity. */
  predicate BareTables(db: Db, entities: seq<Entity>) {
    && db.tables.Keys == EntityIds(entities)
    && db.fingerprint == None
    && forall e | e in entities :: db.tables[e.id] == Table(Columns(e.fields), map[], map[], {})
  }

  lemma NothingTaken(db: Db, entities: seq<Entity>, index: string)
    requires BareTables(db, entities)
    ensures !IndexTaken(db, index)
  {
    forall t | t in db.tables ensures db.tables[t].indexes == map[] {
      var e :| e in entities && e.id == t;
    }
  }

  lemma CreateAddsBareTable(p: Platform, entities: seq<Entity>, db: Db)
    requires DistinctEntityIds(entities) && entities != []
    requires BareTables(db, entities[..|entities| - 1]) && Speakable(p, entities)
    ensures var e := entities[|entities| - 1];
            && RunCreateTable(p, db, e.id, Columns(e.fields), true).Ok?
            && BareTables(RunCreateTable(p, db, e.id, Columns(e.fields), true).value, entities)
  {
    hide UsableTable, UsableColumns, Columns, EntityIds, IndexTaken;
    var rest, e := entities[..|entities| - 1], entities[|entities| - 1];
    assert e in entities && forall x | x in entities :: x in rest || x == e;
    NothingTaken(db, rest, e.id);
    LastId(entities);
  }

  lemma LastId(entities: seq<Entity>)
    requires DistinctEntityIds(entities) && entities != []
    ensures var rest, e := entities[..|entities| - 1], entities[|entities| - 1];
            && EntityIds(entities) == EntityIds(rest) + {e.id} && e.id !in EntityIds(rest)
            && forall x | x in rest :: x.id in EntityIds(rest)
  {
    var rest, e := entities[..|entities| - 1], entities[|entities| - 1];
    assert entities == rest + [e];
  }

  lemma {:induction false} CreatesBuildBareTables(p: Platform, entities: seq<Entity>)
    requires DistinctEntityIds(entities) && Speakable(p, entities)
    ensures RunAll(p, CreateStmts(entities), EMPTY_DB).Ok?
    ensures BareTables(RunAll(p, CreateStmts(entities), EMPTY_DB).value, entities)
  {
    hide UsableTable, UsableColumns, IndexTaken;
    if entities != [] {
      var rest, e := entities[..|entities| - 1], entities[|entities| - 1];
      CreatesBuildBareTables(p, rest);
      var db := RunAll(p, CreateStmts(rest), EMPTY_DB).value;
      CreateAddsBareTable(p, entities, db);
      assert RunAll(p, CreateStmts(entities), EMPTY_DB) == Run(p, CreateTable(e.id, Columns(e.fields), true), db);
    }
  }

  /** Index names are used once, and each names its own table and column. */
  ghost predicate HeldOnce(db: Db) {
    && (forall t, c, i | Holds(db, t, c, i) :: i == IndexName(t, c))
    && (forall t, c, u, d, i | Holds(db, t, c, i) && Holds(db, u, d, i) :: t == u && c == d)
  }

  /** Two databases that differ at most in their indexes, those of `after` including `before`'s. */
  predicate IndexesAdded(before: Db, after: Db) {
    && before.tables.Keys == after.tables.Keys
    && before.fingerprint == after.fingerprint
    && (forall t | t in before.tables :: after.tables[t] == before.tables[t].(indexes := after.tables[t].indexes))
  }

  ghost predicate HoldsMore(before: Db, after: Db) {
    forall t, c, i | Holds(before, t, c, i) :: Holds(after, t, c, i)
  }

  /** Tables without rows, their foreign keys declared with them. */
  predicate JustCreated(db: Db) {
    forall t | t in db.tables :: db.tables[t].rows == map[] && db.tables[t].inline == {}
  }

  /** On an empty table the index is created unless its name is already taken. */
  lemma IndexOnEmptyTable(p: Platform, db: Db, t: string, c: string)
    requires t in db.tables && c in db.tables[t].cols && JustCreated(db) && HeldOnce(db)
    requires IndexName(t, c) !in db.tables && c !in p.unreadable
    requires c in p.clock ==> IndexTaken(db, IndexName(t, c))
    ensures var r := RunCreateUniqueIndex(p, db, IndexName(t, c), t, c);
            && r.Ok? && IndexesAdded(db, r.value) && HoldsMore(db, r.value)
            && HeldOnce(r.value) && IndexTaken(r.value, IndexName(t, c))
            && (!IndexTaken(db, IndexName(t, c)) ==> Holds(r.value, t, c, IndexName(t, c)))
            && (forall u, d, i | Holds(r.value, u, d, i) :: Holds(db, u, d, i) || (u == t && d == c))
  {
    var index := IndexName(t, c);
    if !IndexTaken(db, index) {
      var db' := RunCreateUniqueIndex(p, db, index, t, c).value;
      assert Holds(db', t, c, index);
      if c in db.tables[t].indexes {
        assert Holds(db, t, c, db.tables[t].indexes[c]);
      }
      assert forall u, d, i | Holds(db', u, d, i) :: Holds(db, u, d, i) || (u == t && d == c && i == index);
      assert forall u, d, i | Holds(db, u, d, i) :: i != index;
    }
  }

  function IndexStmtOf(pair: (string, string)): Stmt {
    CreateUniqueIndex(IndexName(pair.0, pair.1), pair.0, pair.1)
  }

  lemma TakenStays(before: Db, after: Db, index: string)
    requires HoldsMore(before, after) && IndexTaken(before, index)
    ensures IndexTaken(after, index)
  {
    var t, c :| Holds(before, t, c, index);
    assert Holds(after, t, c, index);
  }

  /** What creating some of the indexes of `pairs` on the row-free `bare` leaves. */
  ghost predicate PartlyIndexed(bare: Db, db: Db, pairs: set<(string, string)>) {
    IndexesAdded(bare, db) && JustCreated(db) && HeldOnce(db) && Named(db, pairs)
  }

  lemma OneMoreIndex(p: Platform, bare: Db, db: Db, pairs: set<(string, string)>, x: (string, string))
    requires PartlyIndexed(bare, db, pairs) && x in pairs
    requires x.0 in bare.tables && x.1 in bare.tables[x.0].cols && IndexName(x.0, x.1) !in bare.tables
    requires x.1 !in p.unreadable && (x.1 in p.clock ==> IndexTaken(db, IndexName(x.0, x.1)))
    ensures var r := RunCreateUniqueIndex(p, db, IndexName(x.0, x.1), x.0, x.1);
            && r.Ok? && PartlyIndexed(bare, r.value, pairs) && HoldsMore(db, r.value)
            && IndexTaken(r.value, IndexName(x.0, x.1))
  {
    IndexOnEmptyTable(p, db, x.0, x.1);
  }

  lemma ShadowsOfPrefix(p: Platform, stmts: seq<Stmt>)
    requires ClocksShadowed(p, stmts) && stmts != []
    ensures var rest, s := stmts[..|stmts| - 1], stmts[|stmts| - 1];
            && ClocksShadowed(p, rest)
            && (s.CreateUniqueIndex? && s.col in p.clock ==> exists x | x in rest :: x.CreateUniqueIndex? && x.index == s.index)
  {
    var rest, s := stmts[..|stmts| - 1], stmts[|stmts| - 1];
    forall i | 0 <= i < |rest| && rest[i].CreateUniqueIndex? && rest[i].col in p.clock
      ensures exists j | 0 <= j < i :: rest[j].CreateUniqueIndex? && rest[j].index == rest[i].index
    {
      var j :| 0 <= j < i && stmts[j].CreateUniqueIndex? && stmts[j].index == stmts[i].index;
      assert rest[j] == stmts[j];
    }
    if s.CreateUniqueIndex? && s.col in p.clock {
      var j :| 0 <= j < |rest| && stmts[j].CreateUniqueIndex? && stmts[j].index == s.index;
      assert rest[j] in rest;
    }
  }

  /** Creating indexes one after the other, each for one of `pairs`, on tables without rows. */
  lemma {:induction false} IndexesOnEmptyTables(p: Platform, stmts: seq<Stmt>, pairs: set<(string, string)>, db: Db)
    requires PartlyIndexed(db, db, pairs)
    requires forall x | x in pairs :: x.0 in db.tables && x.1 in db.tables[x.0].cols && IndexName(x.0, x.1) !in db.tables
    requires forall x | x in pairs :: x.1 !in p.unreadable
    requires forall s | s in stmts :: s.CreateUniqueIndex? && (s.name, s.col) in pairs
                                      && s == IndexStmtOf((s.name, s.col))
    requires ClocksShadowed(p, stmts)
    ensures var r := RunAll(p, stmts, db);
            && r.Ok? && PartlyIndexed(db, r.value, pairs)
            && (forall s | s in stmts :: IndexTaken(r.value, s.index))
  {
    hide PartlyIndexed;
    if stmts != [] {
      var rest, s := stmts[..|stmts| - 1], stmts[|stmts| - 1];
      ShadowsOfPrefix(p, stmts);
      IndexesOnEmptyTables(p, rest, pairs, db);
      var mid := RunAll(p, rest, db).value;
      OneMoreIndex(p, db, mid, pairs, (s.name, s.col));
      var after := RunAll(p, stmts, db).value;
      assert after == RunCreateUniqueIndex(p, mid, s.index, s.name, s.col).value;
      forall x | x in stmts ensures IndexTaken(after, x.index) {
        if x in rest {
          TakenStays(mid, after, x.index);
        }
      }
    }
  }

  lemma {:induction false} IndexStmtsArePairs(e: Entity, fields: seq<Field>)
    requires forall f | f in fields :: f in e.fields
    ensures forall s | s in IndexStmts(e.id, e.id, fields) ::
              exists f | f in fields && f.unique :: s == IndexStmtOf((e.id, f.id))
    ensures forall f | f in fields && f.unique :: IndexStmtOf((e.id, f.id)) in IndexStmts(e.id, e.id, fields)
  {
    if fields != [] {
      IndexStmtsArePairs(e, fields[..|fields| - 1]);
      assert forall f | f in fields :: f in fields[..|fields| - 1] || f == fields[|fields| - 1];
    }
  }

  /** The index statements of a manifest are one per unique field. */
  lemma {:induction false} AllIndexStmtsArePairs(entities: seq<Entity>)
    ensures forall s | s in AllIndexStmts(entities) ::
              s.CreateUniqueIndex? && (s.name, s.col) in UniquePairs(entities) && s == IndexStmtOf((s.name, s.col))
    ensures forall x | x in UniquePairs(entities) :: IndexStmtOf(x) in AllIndexStmts(entities)
  {
    if entities != [] {
      var rest, e := entities[..|entities| - 1], entities[|entities| - 1];
      AllIndexStmtsArePairs(rest);
      IndexStmtsArePairs(e, e.fields);
      assert forall x | x in entities :: x in rest || x == e;
      assert UniquePairs(rest) <= UniquePairs(entities);
      assert e in entities;
    }
  }

  /** A catalogue without index-name clashes holds one index per unique field. */
  lemma DistinctNamesIndexEveryField(db: Db, app: App)
    requires DistinctEntityIds(app.entities) && HeldOnce(db) && Named(db, UniquePairs(app.entities))
    requires db.tables.Keys == EntityIds(app.entities)
    requires forall e | e in app.entities :: db.tables[e.id].cols == Columns(e.fields)
    requires forall x | x in UniquePairs(app.entities) :: IndexTaken(db, IndexName(x.0, x.1))
    requires NamesDistinct(UniquePairs(app.entities))
    ensures CatalogueIs(db, app)
  {
    forall e | e in app.entities ensures Matches(db.tables[e.id], e) {
      assert e.id in EntityIds(app.entities);
      var indexes := db.tables[e.id].indexes;
      forall c | c in UniqueIds(e.fields) ensures Holds(db, e.id, c, IndexName(e.id, c)) {
        assert (e.id, c) in UniquePairs(app.entities);
        var t, d :| Holds(db, t, d, IndexName(e.id, c));
      }
      forall c | c in indexes ensures c in UniqueIds(e.fields) && indexes[c] == IndexName(e.id, c) {
        assert Holds(db, e.id, c, indexes[c]);
        var x, f :| x in app.entities && f in x.fields && f.unique && (x.id, f.id) == (e.id, c);
        EntityByIdFinds(app.entities, x);
        EntityByIdFinds(app.entities, e);
      }
    }
  }

  lemma IndexedFieldsHaveDistinctNames(db: Db, app: App)
    requires HeldOnce(db) && CatalogueIs(db, app)
    ensures NamesDistinct(UniquePairs(app.entities))
  {
    forall x | x in UniquePairs(app.entities) ensures Holds(db, x.0, x.1, IndexName(x.0, x.1)) {
      var e, f :| e in app.entities && f in e.fields && f.unique && x == (e.id, f.id);
      assert e.id in EntityIds(app.entities) && Matches(db.tables[e.id], e);
    }
  }

  // ----- when the DDL is accepted -----

  lemma {:induction false} CreatesNeedNames(p: Platform, entities: seq<Entity>, db: Db)
    requires RunAll(p, CreateStmts(entities), db).Ok?
    ensures forall e | e in entities :: UsableTable(p, e.id) && UsableColumns(p, Columns(e.fields))
    ensures EntityIds(entities) <= RunAll(p, CreateStmts(entities), db).value.tables.Keys
  {
    hide UsableTable, UsableColumns, IndexTaken, Columns;
    if entities != [] {
      var rest, e := entities[..|entities| - 1], entities[|entities| - 1];
      CreatesNeedNames(p, rest, db);
      assert forall x | x in entities :: x in rest || x == e;
      assert EntityIds(entities) == EntityIds(rest) + {e.id};
    }
  }

  lemma {:induction false} IndexesNeedNames(p: Platform, stmts: seq<Stmt>, db: Db)
    requires forall s | s in stmts :: s.CreateUniqueIndex?
    requires RunAll(p, stmts, db).Ok?
    ensures RunAll(p, stmts, db).value.tables.Keys == db.tables.Keys
    ensures forall s | s in stmts :: s.index !in db.tables && s.col !in p.unreadable
  {
    hide IndexTaken, NoDuplicates;
    if stmts != [] {
      var rest, s := stmts[..|stmts| - 1], stmts[|stmts| - 1];
      assert s in stmts && forall x | x in stmts :: x in rest || x == s;
      IndexesNeedNames(p, rest, db);
    }
  }

  /** Whatever the database, boot's DDL runs through only if SQL can use the manifest's names. */
  lemma DdlNeedsNames(p: Platform, app: App, db: Db)
    requires RunAll(p, CreateStmts(app.entities) + AllIndexStmts(app.entities), db).Ok?
    ensures NamesUsable(p, app)
  {
    hide UsableTable, UsableColumns, IndexName, Columns;
    RunAllAppend(p, CreateStmts(app.entities), AllIndexStmts(app.entities), db);
    CreatesNeedNames(p, app.entities, db);
    AllIndexStmtsArePairs(app.entities);
    IndexesNeedNames(p, AllIndexStmts(app.entities), RunAll(p, CreateStmts(app.entities), db).value);
    forall x | x in UniquePairs(app.entities) ensures IndexName(x.0, x.1) !in EntityIds(app.entities) && x.1 !in p.unreadable {
      assert IndexStmtOf(x) in AllIndexStmts(app.entities);
    }
    forall e, f | e in app.entities && f in e.fields && f.unique ensures f.id !in p.unreadable {
      assert (e.id, f.id) in UniquePairs(app.entities);
    }
  }

  lemma IndexComesFrom(p: Platform, db: Db, s: Stmt, index: string)
    requires s.CreateUniqueIndex? && RunCreateUniqueIndex(p, db, s.index, s.name, s.col).Ok?
    requires IndexTaken(RunCreateUniqueIndex(p, db, s.index, s.name, s.col).value, index) && index != s.index
    ensures IndexTaken(db, index)
  {
    hide NoDuplicates;
    var after := RunCreateUniqueIndex(p, db, s.index, s.name, s.col).value;
    var t, c :| t in after.tables && c in after.tables[t].indexes && Holds(after, t, c, index);
    assert Holds(db, t, c, index);
  }

  /** Where there are no indexes yet, only shadowed clocks get through, and each index has its statement. */
  lemma {:induction false} ClocksNeedShadows(p: Platform, stmts: seq<Stmt>, db: Db)
    requires forall s | s in stmts :: s.CreateUniqueIndex?
    requires (forall index :: !IndexTaken(db, index)) && RunAll(p, stmts, db).Ok?
    ensures ClocksShadowed(p, stmts)
    ensures forall index | IndexTaken(RunAll(p, stmts, db).value, index) :: exists s | s in stmts :: s.index == index
  {
    hide IndexTaken, NoDuplicates;
    if stmts != [] {
      var rest, s := stmts[..|stmts| - 1], stmts[|stmts| - 1];
      assert s in stmts && forall x | x in rest :: x in stmts;
      ClocksNeedShadows(p, rest, db);
      var mid := RunAll(p, rest, db).value;
      forall index | IndexTaken(RunAll(p, stmts, db).value, index) ensures exists x | x in stmts :: x.index == index {
        if index != s.index {
          IndexComesFrom(p, mid, s, index);
        }
      }
      ShadowsOfLonger(p, stmts);
    }
  }

  lemma ShadowsOfLonger(p: Platform, stmts: seq<Stmt>)
    requires stmts != [] && forall s | s in stmts :: s.CreateUniqueIndex?
    requires var rest, s := stmts[..|stmts| - 1], stmts[|stmts| - 1];
             && ClocksShadowed(p, rest)
             && (s.col in p.clock ==> exists x | x in rest :: x.index == s.index)
    ensures ClocksShadowed(p, stmts)
  {
    var rest, s := stmts[..|stmts| - 1], stmts[|stmts| - 1];
    forall i | 0 <= i < |stmts| && stmts[i].CreateUniqueIndex? && stmts[i].col in p.clock
      ensures exists j | 0 <= j < i :: stmts[j].CreateUniqueIndex? && stmts[j].index == stmts[i].index
    {
      if i < |rest| {
        assert rest[i] == stmts[i];
        var j :| 0 <= j < i && rest[j].CreateUniqueIndex? && rest[j].index == rest[i].index;
        assert stmts[j] == rest[j];
      } else {
        var x :| x in rest && x.index == s.index;
        var j :| 0 <= j < |rest| && rest[j] == x;
        assert stmts[j] == x && stmts[j] in stmts;
      }
    }
  }

  lemma FreshNeedsNames(p: Platform, app: App)
    requires ValidApp(app) && RunAll(p, CreateStmts(app.entities) + AllIndexStmts(app.entities), EMPTY_DB).Ok?
    ensures Bootable(p, app)
  {
    hide NamesUsable, ValidEntity, IndexTaken;
    DdlNeedsNames(p, app, EMPTY_DB);
    RunAllAppend(p, CreateStmts(app.entities), AllIndexStmts(app.entities), EMPTY_DB);
    assert Speakable(p, app.entities) by { UsableIsSpeakable(p, app); }
    CreatesBuildBareTables(p, app.entities);
    var bare := RunAll(p, CreateStmts(app.entities), EMPTY_DB).value;
    forall index ensures !IndexTaken(bare, index) {
      NothingTaken(bare, app.entities, index);
    }
    AllIndexStmtsArePairs(app.entities);
    ClocksNeedShadows(p, AllIndexStmts(app.entities), bare);
  }

  lemma UsableIsSpeakable(p: Platform, app: App)
    requires NamesUsable(p, app)
    ensures Speakable(p, app.entities)
  {
  }

  lemma BootableReachesCatalogue(p: Platform, app: App)
    requires ValidApp(app) && Bootable(p, app)
    ensures var r := RunAll(p, CreateStmts(app.entities) + AllIndexStmts(app.entities), EMPTY_DB);
            && r.Ok? && JustCreated(r.value) && r.value.fingerprint == None
            && (CatalogueIs(r.value, app) <==> NamesDistinct(UniquePairs(app.entities)))
  {
    hide UsableTable, UsableColumns, ValidEntity, ClocksShadowed;
    CreatesBuildBareTables(p, app.entities);
    var bare := RunAll(p, CreateStmts(app.entities), EMPTY_DB).value;
    var pairs := UniquePairs(app.entities);
    BareTablesHold(bare, app.entities);
    AllIndexStmtsArePairs(app.entities);
    IndexesOnEmptyTables(p, AllIndexStmts(app.entities), pairs, bare);
    RunAllAppend(p, CreateStmts(app.entities), AllIndexStmts(app.entities), EMPTY_DB);
    var db := RunAll(p, AllIndexStmts(app.entities), bare).value;
    forall x | x in pairs ensures IndexTaken(db, IndexName(x.0, x.1)) {
      assert IndexStmtOf(x) in AllIndexStmts(app.entities);
    }
    forall e | e in app.entities ensures db.tables[e.id].cols == Columns(e.fields) {
      assert e.id in EntityIds(app.entities) && e.id in bare.tables;
    }
    if NamesDistinct(pairs) {
      DistinctNamesIndexEveryField(db, app);
    }
    if CatalogueIs(db, app) {
      IndexedFieldsHaveDistinctNames(db, app);
    }
  }

  /**
   * Materializing a valid manifest into an empty database succeeds if and only if every id can stand
   * where SQL needs it, no entity id is one SQLite keeps to itself, no unique field's index is named
   * like an entity, and no index would read the clock but for one whose name an earlier index took. It
   * then leaves no rows, and the catalogue is the manifest's own exactly when no two unique fields
   * share an index name.
   */
  lemma MaterializeFreshReachesCatalogue(p: Platform, app: App)
    requires ValidApp(app)
    ensures var r := RunAll(p, CreateStmts(app.entities) + AllIndexStmts(app.entities), EMPTY_DB);
            && (r.Ok? <==> Bootable(p, app))
            && (r.Ok? ==> JustCreated(r.value) && r.value.fingerprint == None
                          && (CatalogueIs(r.value, app) <==> NamesDistinct(UniquePairs(app.entities))))
  {
    hide Bootable, ValidApp, RunAll, CatalogueIs, NamesDistinct;
    if RunAll(p, CreateStmts(app.entities) + AllIndexStmts(app.entities), EMPTY_DB).Ok? {
      FreshNeedsNames(p, app);
    }
    if Bootable(p, app) {
      BootableReachesCatalogue(p, app);
    }
  }

  lemma {:induction false} CastsNoShadow(p: Platform, stmts: seq<Stmt>, pairs: set<(string, string)>, i: nat)
    requires forall s | s in stmts :: s.CreateUniqueIndex? && (s.name, s.col) in pairs && s == IndexStmtOf((s.name, s.col))
    requires NamesDistinct(pairs) && ClocksShadowed(p, stmts) && i < |stmts|
    ensures stmts[i].col !in p.clock
  {
    assert stmts[i] in stmts;
    if stmts[i].col in p.clock {
      var j :| 0 <= j < i && stmts[j].CreateUniqueIndex? && stmts[j].index == stmts[i].index;
      assert stmts[j] in stmts;
      CastsNoShadow(p, stmts, pairs, j);
    }
  }

  /** Where index names are used once there are no shadows: no unique field may read the clock. */
  lemma DistinctNamesCastNoShadow(p: Platform, entities: seq<Entity>)
    requires NamesDistinct(UniquePairs(entities))
    ensures ClocksShadowed(p, AllIndexStmts(entities)) <==> forall x | x in UniquePairs(entities) :: x.1 !in p.clock
  {
    hide NamesDistinct, UniquePairs, IndexName;
    var stmts := AllIndexStmts(entities);
    AllIndexStmtsArePairs(entities);
    if ClocksShadowed(p, stmts) {
      forall x | x in UniquePairs(entities) ensures x.1 !in p.clock {
        assert IndexStmtOf(x) in stmts;
        var i :| 0 <= i < |stmts| && stmts[i] == IndexStmtOf(x);
        CastsNoShadow(p, stmts, UniquePairs(entities), i);
      }
    } else {
      var i :| 0 <= i < |stmts| && stmts[i].CreateUniqueIndex? && stmts[i].col in p.clock;
      assert stmts[i] in stmts;
    }
  }

  lemma BareTablesHold(db: Db, entities: seq<Entity>)
    requires BareTables(db, entities)
    ensures JustCreated(db) && HeldOnce(db) && Named(db, UniquePairs(entities))
    ensures forall x | x in UniquePairs(entities) :: x.0 in db.tables && x.1 in db.tables[x.0].cols
  {
    forall t | t in db.tables ensures db.tables[t].rows == map[] && db.tables[t].indexes == map[] && db.tables[t].inline == {} {
      var e :| e in entities && e.id == t;
    }
    assert forall t, c, i :: !Holds(db, t, c, i);
    forall x | x in UniquePairs(entities) ensures x.0 in db.tables && x.1 in db.tables[x.0].cols {
      var e, f :| e in entities && f in e.fields && f.unique && x == (e.id, f.id);
      assert e.id in EntityIds(entities) && f.id in FieldIds(e.fields);
    }
  }

  /** Unique fields `c` of entity `a_b` and `b_c` of entity `a` share the index name ux_a_b_c. */
  lemma IndexNamesClash()
    ensures IndexName("a_b", "c") == IndexName("a", "b_c")
    ensures !NamesDistinct({("a_b", "c"), ("a", "b_c")})
  {
    assert IndexName("a_b", "c") == IndexName("a", "b_c");
    assert ("a_b", "c") != ("a", "b_c") by {
      assert |"a_b"| != |"a"|;
    }
  }
}

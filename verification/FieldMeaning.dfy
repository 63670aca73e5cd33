/** What a field's declaration means for its values, against the column it becomes. */
module FieldMeaning {
  import opened Results
  import opened Schema
  import opened Sql
  import opened Materialize
  import opened MaterializeFresh
  import opened RowCodec
  import opened Listing
  import opened DomainOps
  import opened DomainSound

  /** `x` lies within the field's bounds. */
  predicate Within(f: Field, x: real) {
    (f.min.Some? ==> f.min.value <= x) && (f.max.Some? ==> x <= f.max.value)
  }

  /** The field may hold the value: null if it is optional, or one of its type, bounds and values. */
  predicate Meets(f: Field, v: GoValue) {
    if v.Nil? then !f.required
    else
      match f.typ
      case Text => v.Str? && Within(f, |v.s| as real)
      case Integer => v.Int? && Within(f, v.i as real)
      case Real => v.Float? && Within(f, v.r)
      case Boolean => v.Bool?
      case Datetime => v.Str?
      case Enum => v.Str? && v.s in f.values
      case Reference => v.Str?
  }

  /** Validation takes a default if and only if it is a value of the field's, and not a reference. */
  lemma DefaultIsChecked(f: Field, v: GoValue)
    ensures ValidDefault(f, v) <==> Meets(f, v) && !v.Nil? && !f.typ.Reference?
  {
  }

  function Blank(n: nat): string {
    seq(n, _ => ' ')
  }

  /** Validation takes bounds if and only if they leave room for a value. */
  lemma BoundsLeaveRoom(entities: seq<Entity>, f: Field)
    requires ParsedField(f) && (f.typ.Text? || f.typ.Integer? || f.typ.Real?) && f.default.None?
    ensures CheckedField(entities, f) <==> exists v :: Meets(f, v) && !v.Nil?
  {
    hide IsIdentifier;
    if CheckedField(entities, f) {
      var low := if f.min.Some? then f.min.value else if f.max.Some? && f.max.value < 0.0 then f.max.value else 0.0;
      if f.typ.Text? {
        assert Meets(f, Str(Blank(low.Floor)));
      } else if f.typ.Integer? {
        assert Meets(f, Int(low.Floor));
      } else {
        assert Meets(f, Float(low));
      }
    }
  }

  lemma BoundsMeanField(p: Platform, f: Field, v: GoValue)
    requires HasType(f, v) && (f.typ.Text? || f.typ.Integer? || f.typ.Real?) && Readable(p, f.id)
    ensures Satisfies(p, f.id, ColumnDef(f), Stored(p, ColumnDef(f).affinity, Encode(v))) <==> Meets(f, v)
  {
  }

  /** The column of a field takes a value of the field's type if and only if the field may hold it. */
  lemma ColumnMeansField(p: Platform, f: Field, v: GoValue)
    requires HasType(f, v) && Readable(p, f.id)
    ensures Satisfies(p, f.id, ColumnDef(f), Stored(p, ColumnDef(f).affinity, Encode(v))) <==> Meets(f, v)
  {
    if f.typ.Text? || f.typ.Integer? || f.typ.Real? {
      BoundsMeanField(p, f, v);
    }
  }

  /** The column admits exactly what the field may hold, and refers where the field refers. */
  ghost predicate ColumnIsField(p: Platform, f: Field, c: Column) {
    && (forall v | HasType(f, v) :: Satisfies(p, f.id, c, Stored(p, c.affinity, Encode(v))) <==> Meets(f, v))
    && (f.typ.Reference? ==> c.fk == Some(ForeignKey(f.target, f.onDelete)))
    && (!f.typ.Reference? ==> c.fk == None)
  }

  /** The table has one column per field that is what the field says, and indexes exactly the unique ones. */
  ghost predicate TableIsEntity(p: Platform, e: Entity, t: Table) {
    && (forall c :: c in t.cols <==> exists f | f in e.fields :: f.id == c)
    && (forall f | f in e.fields :: (f.id in t.indexes <==> f.unique))
    && (forall f | f in e.fields && Readable(p, f.id) :: f.id in t.cols && ColumnIsField(p, f, t.cols[f.id]))
  }

  lemma MatchIsEntity(p: Platform, e: Entity, t: Table)
    requires Matches(t, e) && DistinctFieldIds(e.fields)
    ensures TableIsEntity(p, e, t)
  {
    hide ColumnDef, Satisfies, Stored, Encode, HasType, Meets;
    ColumnKeys(e);
    forall f | f in e.fields
      ensures f.id in t.cols && (f.id in t.indexes <==> f.unique)
      ensures Readable(p, f.id) ==> ColumnIsField(p, f, t.cols[f.id])
    {
      ColumnOfField(e.fields, f);
      FieldByIdFinds(e.fields, f);
      forall g | g in e.fields && g.id == f.id ensures g == f {
        FieldByIdFinds(e.fields, g);
      }
      ForeignKeyOf(f);
      if Readable(p, f.id) {
        forall v | HasType(f, v) {
          ColumnMeansField(p, f, v);
        }
      }
    }
  }

  /**
   * The catalogue means the manifest: one table per entity, one column per field, which takes exactly
   * the values the field may hold and refers where the field refers, and an index per unique field.
   */
  lemma CatalogueMeansManifest(p: Platform, db: Db, app: App)
    requires ValidApp(app) && CatalogueIs(db, app)
    ensures forall t :: t in db.tables <==> exists e | e in app.entities :: e.id == t
    ensures forall e | e in app.entities :: e.id in db.tables && TableIsEntity(p, e, db.tables[e.id])
  {
    hide Matches, TableIsEntity, ValidField, IsIdentifier;
    forall e | e in app.entities ensures e.id in db.tables && TableIsEntity(p, e, db.tables[e.id]) {
      assert e.id in EntityIds(app.entities);
      MatchIsEntity(p, e, db.tables[e.id]);
    }
  }

  /** What the DDL of a manifest makes of an empty database means the manifest. */
  lemma FreshDatabaseMeansManifest(p: Platform, app: App)
    requires ValidApp(app) && NamesDistinct(UniquePairs(app.entities))
    ensures match RunAll(p, CreateStmts(app.entities) + AllIndexStmts(app.entities), EMPTY_DB)
            case Ok(db) =>
              && (forall t :: t in db.tables <==> exists e | e in app.entities :: e.id == t)
              && (forall e | e in app.entities :: e.id in db.tables && TableIsEntity(p, e, db.tables[e.id]))
              && (forall t | t in db.tables :: db.tables[t].rows == map[])
            case Err(_) => true
  {
    hide ValidApp, CatalogueIs, TableIsEntity, NamesDistinct, UniquePairs, RunAll;
    MaterializeFreshReachesCatalogue(p, app);
    var r := RunAll(p, CreateStmts(app.entities) + AllIndexStmts(app.entities), EMPTY_DB);
    if r.Ok? {
      CatalogueMeansManifest(p, r.value, app);
    }
  }
}

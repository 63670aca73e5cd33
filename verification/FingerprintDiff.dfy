/** The fingerprint and the structural difference agree on what a change is. */
module FingerprintDiff {
  import opened Results
  import opened Schema
  import opened Strings
  import opened Fingerprints
  import opened FingerprintText
  import opened FingerprintSchema
  import opened Changesets
  import opened Diffs
  import opened Executor
  import opened NativePath
  import opened ChangesetShape
  import opened DiffMembers
  import opened WholeMigration
  import opened Reach

  // ----- enum values -----

  predicate CommaFree(f: Field) {
    forall v | v in f.values :: ',' !in v
  }

  lemma SortedStringsFacts(values: seq<string>)
    ensures multiset(SortedStrings(values)) == multiset(values) && Sorted(SortedStrings(values))
  {
    SortBySorts(values, (v: string) => v);
    assert Keys(SortedStrings(values), (v: string) => v) == SortedStrings(values);
  }

  /** The joined text does not depend on the order of the values. */
  lemma SameStringsJoinAlike(f: Field, g: Field)
    requires SameStrings(f.values, g.values)
    ensures JoinedValues(f) == JoinedValues(g)
  {
    SortedStringsFacts(f.values);
    SortedStringsFacts(g.values);
    SortedListsAgree(SortedStrings(f.values), SortedStrings(g.values));
  }

  /** For comma-free values, the joined text decides the multiset of values. */
  lemma JoinedValuesDecide(f: Field, g: Field)
    requires f.values != [] && g.values != [] && CommaFree(f) && CommaFree(g)
    ensures JoinedValues(f) == JoinedValues(g) <==> SameStrings(f.values, g.values)
  {
    SortedStringsFacts(f.values);
    SortedStringsFacts(g.values);
    var s, t := SortedStrings(f.values), SortedStrings(g.values);
    if SameStrings(f.values, g.values) {
      SameStringsJoinAlike(f, g);
    }
    if JoinedValues(f) == JoinedValues(g) {
      forall v | v in s ensures ',' !in v {
        assert v in multiset(s) && v in multiset(f.values);
      }
      forall v | v in t ensures ',' !in v {
        assert v in multiset(t) && v in multiset(g.values);
      }
      assert |multiset(s)| == |f.values| && |multiset(t)| == |g.values|;
      JoinInjective(s, t, ',');
    }
  }

  /** With commas it does not: one value `a,b` prints as the two values `a` and `b` do. */
  lemma CommasCollide(f: Field, g: Field)
    requires f.values == ["a,b"] && g.values == ["a", "b"]
    ensures JoinedValues(f) == JoinedValues(g) && !SameStrings(f.values, g.values)
  {
    hide Insert;
    SortedStringsFacts(f.values);
    SortedStringsFacts(g.values);
    assert Le("a", "b");
    SortedListsAgree(SortedStrings(f.values), ["a,b"]);
    SortedListsAgree(SortedStrings(g.values), ["a", "b"]);
    assert Join(["a", "b"], ',') == "a" + [','] + "b" by {
      assert ["a", "b"][1..] == ["b"];
    }
    assert "a" + [','] + "b" == "a,b";
    assert |multiset(f.values)| == 1 && |multiset(g.values)| == 2;
  }

  // ----- rename-only differences -----

  /** The entity's fields keep everything but names (and, unchecked, bounds). */
  predicate OnlyRenamed(oe: Entity, ne: Entity) {
    && FieldIds(oe.fields) == FieldIds(ne.fields)
    && forall nf | nf in ne.fields && nf.id in FieldIds(oe.fields) ::
         var of := FieldById(oe.fields, nf.id).value;
         KeepsDefinition(of, nf) && of.unique == nf.unique
  }

  predicate EntitiesOnlyRenamed(olds: seq<Entity>, news: seq<Entity>) {
    && EntityIds(olds) == EntityIds(news)
    && forall ne | ne in news && ne.id in EntityIds(olds) :: OnlyRenamed(EntityById(olds, ne.id).value, ne)
  }

  lemma {:induction false} EntitiesOpsIds(olds: seq<Entity>, news: seq<Entity>)
    ensures forall op | op in EntitiesOps(olds, news) :: op.entityId in EntityIds(news)
  {
    hide EntityChanges;
    if news != [] {
      var ne := news[|news| - 1];
      EntitiesOpsIds(olds, news[..|news| - 1]);
      assert ne in news;
      match EntityById(olds, ne.id) {
        case None =>
        case Some(oe) => EntityChangesWithin(oe, ne);
      }
    }
  }

  lemma RenamesInEntity(oe: Entity, ne: Entity)
    requires DistinctFieldIds(oe.fields) && DistinctFieldIds(ne.fields)
    ensures (forall change | EntityChange(oe, ne, change) :: change.RenameEntity? || change.RenameField?)
            <==> OnlyRenamed(oe, ne)
  {
    hide EnumChanged, ReferenceChanged;
    if OnlyRenamed(oe, ne) {
      forall change | EntityChange(oe, ne, change) ensures change.RenameEntity? || change.RenameField? {
        if nf :| nf in ne.fields && NewFieldChange(oe.fields, nf, change) {
          assert nf.id in FieldIds(ne.fields);
        } else if of :| of in oe.fields && of.id !in FieldIds(ne.fields) && change == DropField(of) {
          assert false;
        }
      }
    }
    if forall change | EntityChange(oe, ne, change) :: change.RenameEntity? || change.RenameField? {
      RenamesKeepFields(oe, ne);
    }
  }

  lemma RenamesKeepFields(oe: Entity, ne: Entity)
    requires DistinctFieldIds(oe.fields) && DistinctFieldIds(ne.fields)
    requires forall change | EntityChange(oe, ne, change) :: change.RenameEntity? || change.RenameField?
    ensures OnlyRenamed(oe, ne)
  {
    hide EnumChanged, ReferenceChanged;
    forall of | of in oe.fields ensures of.id in FieldIds(ne.fields) {
      assert of.id !in FieldIds(ne.fields) ==> EntityChange(oe, ne, DropField(of));
    }
    forall nf | nf in ne.fields
      ensures nf.id in FieldIds(oe.fields)
      ensures KeepsDefinition(FieldById(oe.fields, nf.id).value, nf) && FieldById(oe.fields, nf.id).value.unique == nf.unique
    {
      assert FieldById(oe.fields, nf.id).None? ==> NewFieldChange(oe.fields, nf, AddField(nf));
      assert NewFieldChange(oe.fields, nf, AddField(nf)) ==> EntityChange(oe, ne, AddField(nf));
      var of := FieldById(oe.fields, nf.id).value;
      KeptUnlessChanged(oe, ne, of, nf);
    }
  }

  lemma KeptUnlessChanged(oe: Entity, ne: Entity, of: Field, nf: Field)
    requires nf in ne.fields && FieldById(oe.fields, nf.id) == Some(of)
    requires forall change | EntityChange(oe, ne, change) :: change.RenameEntity? || change.RenameField?
    ensures KeepsDefinition(of, nf) && of.unique == nf.unique
  {
    hide EnumChanged, ReferenceChanged, FieldIds;
    forall change | NewFieldChange(oe.fields, nf, change) ensures change.RenameEntity? || change.RenameField? {
      assert EntityChange(oe, ne, change);
    }
    assert of.typ != nf.typ ==> NewFieldChange(oe.fields, nf, ChangeType(of, nf));
    assert of.required != nf.required ==> NewFieldChange(oe.fields, nf, ChangeRequired(of, nf));
    assert of.unique != nf.unique ==> NewFieldChange(oe.fields, nf, ChangeUnique(of, nf));
    assert EnumChanged(of, nf) ==> NewFieldChange(oe.fields, nf, ChangeEnum(of, nf));
    assert ReferenceChanged(of, nf) ==> NewFieldChange(oe.fields, nf, ChangeReference(of, nf));
  }

  lemma SelfSame(ops: seq<Operation>)
    ensures SameChanges(ops, ops)
  {
  }

  /** A difference consists of renames exactly when everything it looks at is kept. */
  lemma RenameOnlyDifference(olds: seq<Entity>, news: seq<Entity>)
    requires WellFormed(olds) && WellFormed(news)
    ensures AllRenames(DiffOps(olds, news)) <==> EntitiesOnlyRenamed(olds, news)
  {
    hide DiffOps, OnlyRenamed, EntityChange, OpsOf;
    var diff := DiffOps(olds, news);
    SelfSame(diff);
    if AllRenames(diff) {
      forall ne | ne in news
        ensures ne.id in EntityIds(olds) && OnlyRenamed(EntityById(olds, ne.id).value, ne)
      {
        RenamedEntity(olds, news, ne);
      }
      forall oe | oe in olds ensures oe.id in EntityIds(news) {
        DroppedEntity(olds, news, diff, oe);
      }
      assert EntityIds(olds) == EntityIds(news);
    }
    if EntitiesOnlyRenamed(olds, news) {
      forall op | op in diff ensures IsRename(op) {
        RenamedOp(olds, news, op);
      }
    }
  }

  lemma RenamedEntity(olds: seq<Entity>, news: seq<Entity>, ne: Entity)
    requires WellFormed(olds) && WellFormed(news) && ne in news && AllRenames(DiffOps(olds, news))
    ensures ne.id in EntityIds(olds) && OnlyRenamed(EntityById(olds, ne.id).value, ne)
  {
    hide DiffOps, OnlyRenamed, EntityChange, OpsOf;
    var diff := DiffOps(olds, news);
    SelfSame(diff);
    AddedEntities(olds, news, diff, ne);
    var oe := EntityById(olds, ne.id).value;
    assert oe in olds;
    OwnChanges(olds, news, diff, oe, ne);
    OpsOfMembers(diff, ne.id);
    RenamesInEntity(oe, ne);
  }

  lemma RenamedOp(olds: seq<Entity>, news: seq<Entity>, op: Operation)
    requires WellFormed(olds) && WellFormed(news) && EntitiesOnlyRenamed(olds, news) && op in DiffOps(olds, news)
    ensures IsRename(op)
  {
    hide OnlyRenamed, EntityChange, OpsOf, EntitiesOps, EntityDropOps;
    var diff := DiffOps(olds, news);
    SelfSame(diff);
    EntitiesOpsIds(olds, news);
    EntityDropOpsMembers(olds, news);
    assert op.entityId in EntityIds(news);
    var ne := EntityById(news, op.entityId).value;
    var oe := EntityById(olds, op.entityId).value;
    assert oe in olds && ne in news;
    OwnChanges(olds, news, diff, oe, ne);
    OpsOfMembers(diff, ne.id);
    RenamesInEntity(oe, ne);
  }

  // ----- agreement -----

  predicate PlainValues(entities: seq<Entity>) {
    forall e, f | e in entities && f in e.fields && f.typ.Enum? ::
      CommaFree(f) && forall v | v in f.values :: '\n' !in v
  }

  lemma ValidIsPrintable(app: App)
    requires ValidApp(app) && PlainValues(app.entities)
    ensures Printable(app.entities)
  {
    hide IsIdentifier, ValidDefault;
    forall e | e in app.entities
      ensures IsIdentifier(e.id) && DistinctFieldIds(e.fields) && forall f | f in e.fields :: OneLine(f)
    {
      assert ValidEntity(app.entities, e);
      forall f | f in e.fields ensures OneLine(f) {
        assert ValidField(app.entities, f);
        TargetIsIdentifier(app, f);
      }
    }
  }

  lemma TargetIsIdentifier(app: App, f: Field)
    requires ValidApp(app) && ValidField(app.entities, f)
    ensures f.typ.Reference? ==> IsIdentifier(f.target)
  {
    hide IsIdentifier, ValidDefault;
    if f.typ.Reference? {
      var e :| e in app.entities && e.id == f.target;
      assert ValidEntity(app.entities, e);
    }
  }

  predicate AllBoundsKept(olds: seq<Entity>, news: seq<Entity>) {
    forall ne | ne in news ::
      match EntityById(olds, ne.id)
      case None => true
      case Some(oe) => BoundsKept(oe, ne)
  }

  lemma SameLineIsKept(entities: seq<Entity>, others: seq<Entity>, of: Field, nf: Field)
    requires ValidField(entities, of) && ValidField(others, nf)
    requires of.typ.Enum? ==> CommaFree(of)
    requires nf.typ.Enum? ==> CommaFree(nf)
    ensures SameLine(of, nf) <==> KeepsDefinition(of, nf) && of.unique == nf.unique && SameBounds(of, nf)
  {
    hide JoinedValues, SameStrings, CommaFree, IsIdentifier, ValidDefault;
    if of.typ.Enum? && nf.typ.Enum? {
      JoinedValuesDecide(of, nf);
    }
  }

  lemma SameFieldsAreRenamed(olds: seq<Entity>, news: seq<Entity>, oe: Entity, ne: Entity)
    requires ValidEntity(olds, oe) && ValidEntity(news, ne)
    requires forall f | f in oe.fields && f.typ.Enum? :: CommaFree(f)
    requires forall f | f in ne.fields && f.typ.Enum? :: CommaFree(f)
    ensures SameFields(oe.fields, ne.fields) <==> OnlyRenamed(oe, ne) && BoundsKept(oe, ne)
  {
    hide SameLine, KeepsDefinition, CommaFree, ValidField, SameBounds;
    forall of, nf | of in oe.fields && nf in ne.fields && of.id == nf.id
      ensures FieldById(oe.fields, nf.id) == Some(of)
      ensures SameLine(of, nf) <==> KeepsDefinition(of, nf) && of.unique == nf.unique && SameBounds(of, nf)
    {
      FieldByIdFinds(oe.fields, of);
      SameLineIsKept(olds, news, of, nf);
    }
  }

  lemma SameSchemaIsRenamed(oldApp: App, newApp: App)
    requires ValidApp(oldApp) && ValidApp(newApp)
    requires PlainValues(oldApp.entities) && PlainValues(newApp.entities)
    ensures SameSchema(oldApp.entities, newApp.entities)
            <==> EntitiesOnlyRenamed(oldApp.entities, newApp.entities) && AllBoundsKept(oldApp.entities, newApp.entities)
  {
    hide SameFields, OnlyRenamed, BoundsKept, ValidEntity, CommaFree;
    var olds, news := oldApp.entities, newApp.entities;
    forall oe, ne | oe in olds && ne in news && oe.id == ne.id
      ensures EntityById(olds, ne.id) == Some(oe)
      ensures SameFields(oe.fields, ne.fields) <==> OnlyRenamed(oe, ne) && BoundsKept(oe, ne)
    {
      EntityByIdFinds(olds, oe);
      SameFieldsAreRenamed(olds, news, oe, ne);
    }
  }

  lemma RenamedSameFields(oe: Entity, ne: Entity)
    requires DistinctFieldIds(oe.fields) && OnlyRenamed(oe, ne) && BoundsKept(oe, ne)
    ensures SameFields(oe.fields, ne.fields)
  {
    hide JoinedValues, SameStrings;
    forall of, nf | of in oe.fields && nf in ne.fields && of.id == nf.id ensures SameLine(of, nf) {
      FieldByIdFinds(oe.fields, of);
      assert nf.id in FieldIds(oe.fields);
      if of.typ.Enum? && SameStrings(of.values, nf.values) {
        SameStringsJoinAlike(of, nf);
      }
    }
  }

  /** Renames that keep every bound leave the hashed text alone, whatever the enum values contain. */
  lemma RenamesKeepText(num: real -> string, oldApp: App, newApp: App)
    requires WellFormed(oldApp.entities) && WellFormed(newApp.entities)
    requires AllRenames(DiffOps(oldApp.entities, newApp.entities)) && AllBoundsKept(oldApp.entities, newApp.entities)
    ensures CanonicalText(num, oldApp) == CanonicalText(num, newApp)
  {
    hide CanonicalText, DiffOps, SameFields, OnlyRenamed, BoundsKept;
    var olds, news := oldApp.entities, newApp.entities;
    RenameOnlyDifference(olds, news);
    forall oe, ne | oe in olds && ne in news && oe.id == ne.id ensures SameFields(oe.fields, ne.fields) {
      EntityByIdFinds(olds, oe);
      assert ne.id in EntityIds(olds);
      RenamedSameFields(oe, ne);
    }
    SameSchemaSameText(num, oldApp, newApp);
  }

  /**
   * With comma- and newline-free enum values, the hashed text is equal exactly when entity ids, field
   * ids, types, required, unique, bounds, enum multisets, targets and onDelete all agree.
   */
  lemma CanonicalTextDecidesDefinitions(num: real -> string, a: App, b: App)
    requires ValidApp(a) && ValidApp(b) && PlainValues(a.entities) && PlainValues(b.entities)
    requires Prints(num, AllBounds(a.entities) + AllBounds(b.entities))
    ensures CanonicalText(num, a) == CanonicalText(num, b)
            <==> EntitiesOnlyRenamed(a.entities, b.entities) && AllBoundsKept(a.entities, b.entities)
  {
    hide CanonicalText, SameSchema, EntitiesOnlyRenamed, AllBoundsKept, Prints, Printable, PlainValues, ValidApp;
    ValidIsPrintable(a);
    ValidIsPrintable(b);
    CanonicalTextDecidesSchema(num, a, b);
    SameSchemaIsRenamed(a, b);
  }

  /**
   * Diff and fingerprint agree. For valid manifests with comma- and newline-free enum values, the
   * hashed texts are equal if and only if the difference contains nothing but renames and every
   * surviving field keeps its bounds (the one thing the fingerprint covers and the difference does not).
   */
  lemma DiffAgreesWithFingerprint(num: real -> string, oldApp: App, newApp: App)
    requires ValidApp(oldApp) && ValidApp(newApp)
    requires PlainValues(oldApp.entities) && PlainValues(newApp.entities)
    requires Prints(num, AllBounds(oldApp.entities) + AllBounds(newApp.entities))
    ensures CanonicalText(num, oldApp) == CanonicalText(num, newApp)
            <==> AllRenames(DiffOps(oldApp.entities, newApp.entities)) && AllBoundsKept(oldApp.entities, newApp.entities)
  {
    hide CanonicalText, DiffOps, SameSchema, EntitiesOnlyRenamed, AllBoundsKept, Prints, Printable, PlainValues, AllRenames, ValidApp;
    ValidIsWellFormed(oldApp);
    ValidIsWellFormed(newApp);
    CanonicalTextDecidesDefinitions(num, oldApp, newApp);
    RenameOnlyDifference(oldApp.entities, newApp.entities);
  }
}

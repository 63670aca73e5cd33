/** The canonical text decides schema equality, and agrees with the structural difference. */
module FingerprintSchema {
  import opened Results
  import opened Schema
  import opened Strings
  import opened Fingerprints
  import opened FingerprintText
  import opened Changesets
  import opened Diffs
  import opened Executor
  import opened NativePath
  import opened ChangesetShape
  import opened DiffMembers

  // ----- schemas that the text does not tell apart -----

  /** The same field ids, each with the same line, in whatever order. */
  predicate SameFields(fs: seq<Field>, gs: seq<Field>) {
    && FieldIds(fs) == FieldIds(gs)
    && forall f, g | f in fs && g in gs && f.id == g.id :: SameLine(f, g)
  }

  predicate SameSchema(a: seq<Entity>, b: seq<Entity>) {
    && EntityIds(a) == EntityIds(b)
    && forall d, e | d in a && e in b && d.id == e.id :: SameFields(d.fields, e.fields)
  }

  /** Distinct ids, and fields that print on one line. */
  predicate Printable(entities: seq<Entity>) {
    && DistinctEntityIds(entities)
    && forall e | e in entities :: IsIdentifier(e.id) && DistinctFieldIds(e.fields) && forall f | f in e.fields :: OneLine(f)
  }

  // ----- sorting by id -----

  lemma SortedFieldsFacts(fields: seq<Field>)
    requires DistinctFieldIds(fields)
    ensures var s := SortedFields(fields);
            && (forall f :: f in s <==> f in fields)
            && DistinctFieldIds(s) && Sorted(FieldIdList(s))
  {
    SortBySorts(fields, (f: Field) => f.id);
    var s := SortedFields(fields);
    assert Keys(s, (f: Field) => f.id) == FieldIdList(s);
    forall f ensures f in s <==> f in fields {
      assert f in multiset(s) <==> f in multiset(fields);
    }
    DistinctFieldsAreOnce(fields);
    forall i, j | 0 <= i < j < |s| ensures s[i].id != s[j].id {
      if s[i].id == s[j].id {
        assert s[i] in fields && s[j] in fields;
        FieldByIdFinds(fields, s[i]);
        FieldByIdFinds(fields, s[j]);
        TwiceInMultiset(s, i, j);
      }
    }
  }

  lemma TwiceInMultiset<T>(s: seq<T>, i: nat, j: nat)
    requires i < j < |s| && s[i] == s[j]
    ensures multiset(s)[s[i]] >= 2
  {
    assert s == s[..i] + [s[i]] + s[i + 1..j] + [s[j]] + s[j + 1..];
  }

  lemma {:induction false} DistinctFieldsAreOnce(fields: seq<Field>)
    requires DistinctFieldIds(fields)
    ensures forall f :: multiset(fields)[f] <= 1
  {
    if fields != [] {
      DistinctFieldsAreOnce(fields[1..]);
      assert fields == [fields[0]] + fields[1..];
      assert fields[0] !in fields[1..];
    }
  }

  lemma {:induction false} DistinctEntitiesAreOnce(entities: seq<Entity>)
    requires DistinctEntityIds(entities)
    ensures forall e :: multiset(entities)[e] <= 1
  {
    if entities != [] {
      DistinctEntitiesAreOnce(entities[1..]);
      assert entities == [entities[0]] + entities[1..];
      assert entities[0] !in entities[1..];
    }
  }

  lemma SortedEntitiesFacts(entities: seq<Entity>)
    requires DistinctEntityIds(entities)
    ensures var s := SortedEntities(entities);
            && (forall e :: e in s <==> e in entities)
            && DistinctEntityIds(s) && Sorted(EntityIdList(s))
  {
    SortBySorts(entities, (e: Entity) => e.id);
    var s := SortedEntities(entities);
    assert Keys(s, (e: Entity) => e.id) == EntityIdList(s);
    forall e ensures e in s <==> e in entities {
      assert e in multiset(s) <==> e in multiset(entities);
    }
    DistinctEntitiesAreOnce(entities);
    forall i, j | 0 <= i < j < |s| ensures s[i].id != s[j].id {
      if s[i].id == s[j].id {
        assert s[i] in entities && s[j] in entities;
        EntityByIdFinds(entities, s[i]);
        EntityByIdFinds(entities, s[j]);
        TwiceInMultiset(s, i, j);
      }
    }
  }

  function FieldIdList(fields: seq<Field>): seq<string> {
    seq(|fields|, i requires 0 <= i < |fields| => fields[i].id)
  }

  function EntityIdList(entities: seq<Entity>): seq<string> {
    seq(|entities|, i requires 0 <= i < |entities| => entities[i].id)
  }

  /** Lists with the same set of distinct ids are sorted into the same order. */
  lemma SameIdsSameOrder(fs: seq<Field>, gs: seq<Field>)
    requires DistinctFieldIds(fs) && DistinctFieldIds(gs) && FieldIds(fs) == FieldIds(gs)
    ensures FieldIdList(SortedFields(fs)) == FieldIdList(SortedFields(gs))
  {
    SortedFieldsFacts(fs);
    SortedFieldsFacts(gs);
    var s, t := SortedFields(fs), SortedFields(gs);
    IdListMembers(s);
    IdListMembers(t);
    assert FieldIds(s) == FieldIds(fs) && FieldIds(t) == FieldIds(gs);
    SortedSetsAgree(FieldIdList(s), FieldIdList(t));
  }

  lemma IdListMembers(fields: seq<Field>)
    ensures forall x :: x in FieldIdList(fields) <==> x in FieldIds(fields)
  {
    forall x | x in FieldIds(fields) ensures x in FieldIdList(fields) {
      var f :| f in fields && f.id == x;
      var i :| 0 <= i < |fields| && fields[i] == f;
      assert FieldIdList(fields)[i] == x;
    }
  }

  lemma EntityIdListMembers(entities: seq<Entity>)
    ensures forall x :: x in EntityIdList(entities) <==> x in EntityIds(entities)
  {
    forall x | x in EntityIds(entities) ensures x in EntityIdList(entities) {
      var e :| e in entities && e.id == x;
      var i :| 0 <= i < |entities| && entities[i] == e;
      assert EntityIdList(entities)[i] == x;
    }
  }

  lemma SameEntityIdsSameOrder(a: seq<Entity>, b: seq<Entity>)
    requires DistinctEntityIds(a) && DistinctEntityIds(b) && EntityIds(a) == EntityIds(b)
    ensures EntityIdList(SortedEntities(a)) == EntityIdList(SortedEntities(b))
  {
    SortedEntitiesFacts(a);
    SortedEntitiesFacts(b);
    var s, t := SortedEntities(a), SortedEntities(b);
    EntityIdListMembers(s);
    EntityIdListMembers(t);
    assert EntityIds(s) == EntityIds(a) && EntityIds(t) == EntityIds(b);
    SortedSetsAgree(EntityIdList(s), EntityIdList(t));
  }

  // ----- equal schemas have equal texts -----

  lemma {:induction false} SameLinesPointwise(num: real -> string, s: seq<Field>, t: seq<Field>)
    requires |s| == |t| && forall i | 0 <= i < |s| :: s[i].id == t[i].id && SameLine(s[i], t[i])
    ensures FieldLines(num, s) == FieldLines(num, t)
  {
    hide FieldLine, SameLine;
    if s != [] {
      SameLinesPointwise(num, s[..|s| - 1], t[..|t| - 1]);
      SameLineSameText(num, s[|s| - 1], t[|t| - 1]);
    }
  }

  lemma SameFieldsSameLines(num: real -> string, fs: seq<Field>, gs: seq<Field>)
    requires DistinctFieldIds(fs) && DistinctFieldIds(gs) && SameFields(fs, gs)
    ensures FieldLines(num, SortedFields(fs)) == FieldLines(num, SortedFields(gs))
  {
    hide SameLine, FieldLines, SortedFields;
    SameIdsSameOrder(fs, gs);
    SortedFieldsFacts(fs);
    SortedFieldsFacts(gs);
    var s, t := SortedFields(fs), SortedFields(gs);
    forall i | 0 <= i < |s| ensures i < |t| && s[i].id == t[i].id && SameLine(s[i], t[i]) {
      assert |FieldIdList(s)| == |FieldIdList(t)|;
      assert FieldIdList(s)[i] == FieldIdList(t)[i];
    }
    assert |FieldIdList(s)| == |FieldIdList(t)|;
    SameLinesPointwise(num, s, t);
  }

  lemma {:induction false} SameEntitiesPointwise(num: real -> string, s: seq<Entity>, t: seq<Entity>)
    requires |s| == |t| && forall i | 0 <= i < |s| :: EntityLines(num, s[i]) == EntityLines(num, t[i])
    ensures Lines(num, s) == Lines(num, t)
  {
    hide EntityLines;
    if s != [] {
      SameEntitiesPointwise(num, s[1..], t[1..]);
    }
  }

  lemma SameSchemaSameText(num: real -> string, a: App, b: App)
    requires WellFormed(a.entities) && WellFormed(b.entities) && SameSchema(a.entities, b.entities)
    ensures CanonicalText(num, a) == CanonicalText(num, b)
  {
    hide SortedEntities, SameFields, SortedFields, FieldLines;
    SameEntityIdsSameOrder(a.entities, b.entities);
    SortedEntitiesFacts(a.entities);
    SortedEntitiesFacts(b.entities);
    var s, t := SortedEntities(a.entities), SortedEntities(b.entities);
    assert |EntityIdList(s)| == |EntityIdList(t)|;
    forall i | 0 <= i < |s| ensures EntityLines(num, s[i]) == EntityLines(num, t[i]) {
      assert EntityIdList(s)[i] == EntityIdList(t)[i];
      SameFieldsSameLines(num, s[i].fields, t[i].fields);
    }
    SameEntitiesPointwise(num, s, t);
  }

  lemma PrintableIsWellFormed(entities: seq<Entity>)
    requires Printable(entities)
    ensures WellFormed(entities)
  {
  }

  // ----- equal texts have equal schemas -----

  lemma FieldLineIsPlain(num: real -> string, f: Field)
    requires OneLine(f) && Prints(num, BoundsOf(f))
    ensures '\n' !in FieldLine(num, f) && |FieldLine(num, f)| > 0 && FieldLine(num, f)[0] == ' '
  {
    hide TypeText, BoolText, OnDeleteText, IsIdentifier, SortedStrings;
    IdentifiersArePlain(f.id);
    TypeTextIsPlain(f.typ);
    BoolTextIsPlain(f.required);
    BoolTextIsPlain(f.unique);
    BoundsArePlain(num, f);
    DetailIsPlain(f);
    Assoc3("  field ", f.id, " type=");
    HeadChar(num, f);
  }

  lemma HeadChar(num: real -> string, f: Field)
    ensures |FieldLine(num, f)| > 0 && FieldLine(num, f)[0] == ' '
  {
    hide FieldLine, AfterId;
    LineShape(num, f);
    assert ("  field " + (f.id + [' '] + AfterId(num, f)))[0] == ' ';
  }

  lemma BoundsArePlain(num: real -> string, f: Field)
    requires Prints(num, BoundsOf(f))
    ensures '\n' !in BoundsText(num, f)
  {
    if f.min.Some? {
      PrintedNumber(num, BoundsOf(f), f.min.value, f.min.value);
    }
    if f.max.Some? {
      PrintedNumber(num, BoundsOf(f), f.max.value, f.max.value);
    }
    assert '\n' !in " min=" && '\n' !in " max=";
  }

  lemma DetailIsPlain(f: Field)
    requires OneLine(f)
    ensures '\n' !in DetailText(f)
  {
    if f.typ.Enum? {
      SortBySorts(f.values, (v: string) => v);
      forall v | v in SortedStrings(f.values) ensures '\n' !in v {
        assert v in multiset(SortedStrings(f.values));
        assert v in multiset(f.values);
      }
      JoinHasNo(SortedStrings(f.values), ',', '\n');
      assert '\n' !in " values=";
    } else if f.typ.Reference? {
      IdentifiersArePlain(f.target);
      assert '\n' !in " target=" && '\n' !in " onDelete=" && '\n' !in OnDeleteText(f.onDelete);
    }
  }

  /** A list of field lines, all of which begin with a blank. */
  predicate BlankLed(lines: seq<string>) {
    forall l | l in lines :: |l| > 0 && l[0] == ' '
  }

  /** What follows an entity's lines: nothing, or the next entity's header. */
  predicate HeaderLed(lines: seq<string>) {
    lines == [] || (|lines[0]| > 0 && lines[0][0] == 'e')
  }

  lemma BlockNoLonger(h: string, k: string, f: seq<string>, g: seq<string>, x: seq<string>, y: seq<string>)
    requires [h] + f + x == [k] + g + y && BlankLed(g) && HeaderLed(x)
    ensures |g| <= |f|
  {
    var s, t := [h] + f + x, [k] + g + y;
    assert x != [] ==> s[1 + |f|] == x[0];
    assert forall i | 0 <= i < |g| :: t[1 + i] == g[i];
    assert |s| == |t|;
  }

  /** An entity's header and field lines are determined by the whole list of lines. */
  lemma BlockInjective(h: string, k: string, f: seq<string>, g: seq<string>, x: seq<string>, y: seq<string>)
    requires [h] + f + x == [k] + g + y && BlankLed(f) && BlankLed(g) && HeaderLed(x) && HeaderLed(y)
    ensures h == k && f == g && x == y
  {
    BlockNoLonger(h, k, f, g, x, y);
    BlockNoLonger(k, h, g, f, y, x);
    var s, t := [h] + f + x, [k] + g + y;
    assert h == s[0] && k == t[0];
    assert f == s[1..1 + |f|] && g == t[1..1 + |g|];
    assert x == s[1 + |f|..] && y == t[1 + |g|..];
  }

  lemma {:induction false} FieldLinesArePlain(num: real -> string, fields: seq<Field>)
    requires forall f | f in fields :: OneLine(f) && Prints(num, BoundsOf(f))
    ensures BlankLed(FieldLines(num, fields)) && NewlineFree(FieldLines(num, fields))
    ensures |FieldLines(num, fields)| == |fields|
    ensures forall i | 0 <= i < |fields| :: FieldLines(num, fields)[i] == FieldLine(num, fields[i])
  {
    hide FieldLine, OneLine, Prints;
    if fields != [] {
      FieldLinesArePlain(num, fields[..|fields| - 1]);
      FieldLineIsPlain(num, fields[|fields| - 1]);
    }
  }

  /** Every field of these entities prints on one line with distinguishable bounds. */
  predicate PrintsAll(num: real -> string, entities: seq<Entity>, bounds: set<real>) {
    && Prints(num, bounds)
    && forall e, f | e in entities && f in e.fields :: OneLine(f) && BoundsOf(f) <= bounds
  }

  lemma SmallerBounds(num: real -> string, small: set<real>, large: set<real>)
    requires Prints(num, large) && small <= large
    ensures Prints(num, small)
  {
  }

  lemma EntityLinesArePlain(num: real -> string, e: Entity, bounds: set<real>)
    requires DistinctFieldIds(e.fields) && IsIdentifier(e.id) && Prints(num, bounds)
    requires forall f | f in e.fields :: OneLine(f) && BoundsOf(f) <= bounds
    ensures BlankLed(FieldLines(num, SortedFields(e.fields)))
    ensures NewlineFree(EntityLines(num, e))
  {
    hide SortedFields, OneLine, Prints, FieldLines, IsIdentifier, BoundsOf;
    SortedFieldsFacts(e.fields);
    forall f | f in SortedFields(e.fields) ensures Prints(num, BoundsOf(f)) {
      SmallerBounds(num, BoundsOf(f), bounds);
    }
    FieldLinesArePlain(num, SortedFields(e.fields));
    IdentifiersArePlain(e.id);
    assert '\n' !in "entity ";
  }

  lemma {:induction false} LinesArePlain(num: real -> string, entities: seq<Entity>, bounds: set<real>)
    requires PrintsAll(num, entities, bounds)
    requires forall e | e in entities :: DistinctFieldIds(e.fields) && IsIdentifier(e.id)
    ensures NewlineFree(Lines(num, entities)) && HeaderLed(Lines(num, entities))
  {
    hide EntityLines, OneLine, Prints, IsIdentifier, BoundsOf;
    if entities != [] {
      LinesArePlain(num, entities[1..], bounds);
      EntityLinesArePlain(num, entities[0], bounds);
      HeaderFirst(num, entities[0]);
    }
  }

  lemma HeaderFirst(num: real -> string, e: Entity)
    ensures |EntityLines(num, e)| > 0 && |EntityLines(num, e)[0]| > 0 && EntityLines(num, e)[0][0] == 'e'
  {
    hide FieldLines;
  }

  lemma SomeLines(num: real -> string, entities: seq<Entity>)
    ensures entities == [] <==> Lines(num, entities) == []
  {
    hide FieldLines;
  }

  /** Two lists of entities with the same lines agree entity by entity. */
  lemma {:induction false} LinesInjective(num: real -> string, s: seq<Entity>, t: seq<Entity>, bounds: set<real>)
    requires PrintsAll(num, s, bounds) && PrintsAll(num, t, bounds)
    requires forall e | e in s :: DistinctFieldIds(e.fields) && IsIdentifier(e.id)
    requires forall e | e in t :: DistinctFieldIds(e.fields) && IsIdentifier(e.id)
    requires Lines(num, s) == Lines(num, t)
    ensures |s| == |t|
    ensures forall i | 0 <= i < |s| ::
              s[i].id == t[i].id && FieldLines(num, SortedFields(s[i].fields)) == FieldLines(num, SortedFields(t[i].fields))
  {
    hide FieldLines, SortedFields, OneLine, Prints, IsIdentifier, BoundsOf, BlankLed, HeaderLed;
    if s == [] || t == [] {
      SomeLines(num, s);
      SomeLines(num, t);
    } else {
      var f, g := FieldLines(num, SortedFields(s[0].fields)), FieldLines(num, SortedFields(t[0].fields));
      var x, y := Lines(num, s[1..]), Lines(num, t[1..]);
      EntityLinesArePlain(num, s[0], bounds);
      EntityLinesArePlain(num, t[0], bounds);
      LinesArePlain(num, s[1..], bounds);
      LinesArePlain(num, t[1..], bounds);
      BlockInjective("entity " + s[0].id, "entity " + t[0].id, f, g, x, y);
      CommonPrefix("entity ", s[0].id, t[0].id);
      LinesInjective(num, s[1..], t[1..], bounds);
    }
  }

  lemma LinesPointwise(num: real -> string, s: seq<Field>, t: seq<Field>, bounds: set<real>)
    requires Prints(num, bounds)
    requires forall f | f in s :: OneLine(f) && BoundsOf(f) <= bounds
    requires forall f | f in t :: OneLine(f) && BoundsOf(f) <= bounds
    requires FieldLines(num, s) == FieldLines(num, t)
    ensures |s| == |t| && forall i | 0 <= i < |s| :: s[i].id == t[i].id && SameLine(s[i], t[i])
  {
    hide FieldLines, FieldLine, OneLine, Prints, SameLine, BoundsOf, BlankLed, NewlineFree;
    forall f | f in s ensures Prints(num, BoundsOf(f)) {
      SmallerBounds(num, BoundsOf(f), bounds);
    }
    forall f | f in t ensures Prints(num, BoundsOf(f)) {
      SmallerBounds(num, BoundsOf(f), bounds);
    }
    FieldLinesArePlain(num, s);
    FieldLinesArePlain(num, t);
    forall i | 0 <= i < |s| ensures s[i].id == t[i].id && SameLine(s[i], t[i]) {
      SmallerBounds(num, BoundsOf(s[i]) + BoundsOf(t[i]), bounds);
      FieldLineInjective(num, s[i], t[i]);
    }
  }

  lemma SameLinesSameFields(num: real -> string, fs: seq<Field>, gs: seq<Field>, bounds: set<real>)
    requires DistinctFieldIds(fs) && DistinctFieldIds(gs) && Prints(num, bounds)
    requires forall f | f in fs :: OneLine(f) && BoundsOf(f) <= bounds
    requires forall f | f in gs :: OneLine(f) && BoundsOf(f) <= bounds
    requires FieldLines(num, SortedFields(fs)) == FieldLines(num, SortedFields(gs))
    ensures SameFields(fs, gs)
  {
    hide SortedFields, FieldLines, FieldLine, OneLine, Prints, SameLine, BoundsOf, FieldIds;
    SortedFieldsFacts(fs);
    SortedFieldsFacts(gs);
    var s, t := SortedFields(fs), SortedFields(gs);
    LinesPointwise(num, s, t, bounds);
    PointwiseIds(s, t);
    SameMembersSameIds(s, fs);
    SameMembersSameIds(t, gs);
    forall f, g | f in fs && g in gs && f.id == g.id ensures SameLine(f, g) {
      var i :| 0 <= i < |s| && s[i] == f;
      var j :| 0 <= j < |t| && t[j] == g;
      assert s[i].id == t[i].id == t[j].id;
    }
  }

  lemma PointwiseIds(s: seq<Field>, t: seq<Field>)
    requires |s| == |t| && forall i | 0 <= i < |s| :: s[i].id == t[i].id
    ensures FieldIds(s) == FieldIds(t)
  {
    IdListMembers(s);
    IdListMembers(t);
    assert FieldIdList(s) == FieldIdList(t);
  }

  lemma SameMembersSameIds(s: seq<Field>, fs: seq<Field>)
    requires forall f :: f in s <==> f in fs
    ensures FieldIds(s) == FieldIds(fs)
  {
  }

  lemma PointwiseEntityIds(s: seq<Entity>, t: seq<Entity>)
    requires |s| == |t| && forall i | 0 <= i < |s| :: s[i].id == t[i].id
    ensures EntityIds(s) == EntityIds(t)
  {
    EntityIdListMembers(s);
    EntityIdListMembers(t);
    assert EntityIdList(s) == EntityIdList(t);
  }

  lemma SameMembersSameEntityIds(s: seq<Entity>, es: seq<Entity>)
    requires forall e :: e in s <==> e in es
    ensures EntityIds(s) == EntityIds(es)
  {
  }

  lemma PrintsSorted(num: real -> string, entities: seq<Entity>, s: seq<Entity>, bounds: set<real>)
    requires Printable(entities) && Prints(num, bounds) && AllBounds(entities) <= bounds
    requires forall e :: e in s <==> e in entities
    ensures PrintsAll(num, s, bounds)
  {
    hide OneLine, Prints;
    forall e, f | e in s && f in e.fields ensures OneLine(f) && BoundsOf(f) <= bounds {
      assert forall x | x in BoundsOf(f) :: x in AllBounds(entities);
    }
  }

  lemma SameTextSameSchema(num: real -> string, a: App, b: App)
    requires Printable(a.entities) && Printable(b.entities)
    requires Prints(num, AllBounds(a.entities) + AllBounds(b.entities))
    requires CanonicalText(num, a) == CanonicalText(num, b)
    ensures SameSchema(a.entities, b.entities)
  {
    hide SortedEntities, Lines, OneLine, Prints, SameFields, IsIdentifier, BoundsOf, EntityIds, SortedFields, FieldLines;
    var bounds := AllBounds(a.entities) + AllBounds(b.entities);
    var s, t := SortedEntities(a.entities), SortedEntities(b.entities);
    SortedEntitiesFacts(a.entities);
    SortedEntitiesFacts(b.entities);
    PrintsSorted(num, a.entities, s, bounds);
    PrintsSorted(num, b.entities, t, bounds);
    LinesArePlain(num, s, bounds);
    LinesArePlain(num, t, bounds);
    UnlinesInjective(Lines(num, s), Lines(num, t));
    LinesInjective(num, s, t, bounds);
    PointwiseEntityIds(s, t);
    SameMembersSameEntityIds(s, a.entities);
    SameMembersSameEntityIds(t, b.entities);
    forall d, e | d in a.entities && e in b.entities && d.id == e.id ensures SameFields(d.fields, e.fields) {
      var i :| 0 <= i < |s| && s[i] == d;
      var j :| 0 <= j < |t| && t[j] == e;
      assert s[i].id == t[i].id == t[j].id;
      SameLinesSameFields(num, d.fields, e.fields, bounds);
    }
  }

  /**
   * The canonical text decides schema equality. For manifests whose enum values contain no newline,
   * and any rendering of numbers that tells their bounds apart, the hashed texts are equal if and
   * only if entity ids, field ids, types, required, unique, bounds, targets, onDelete and the
   * comma-joined sorted enum values all agree, whatever the order and the names.
   */
  lemma CanonicalTextDecidesSchema(num: real -> string, a: App, b: App)
    requires Printable(a.entities) && Printable(b.entities)
    requires Prints(num, AllBounds(a.entities) + AllBounds(b.entities))
    ensures CanonicalText(num, a) == CanonicalText(num, b) <==> SameSchema(a.entities, b.entities)
  {
    hide SameSchema, Printable, Prints, CanonicalText;
    PrintableIsWellFormed(a.entities);
    PrintableIsWellFormed(b.entities);
    if SameSchema(a.entities, b.entities) {
      SameSchemaSameText(num, a, b);
    }
    if CanonicalText(num, a) == CanonicalText(num, b) {
      SameTextSameSchema(num, a, b);
    }
  }
}

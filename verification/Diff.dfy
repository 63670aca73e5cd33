/** engine/migrate/diff.go: the id-matched structural difference of two manifests. */
module Diffs {
  import opened Results
  import opened Schema
  import opened Changesets

  function Op(entityId: string, fieldId: string, change: Change): Operation {
    Operation(entityId, fieldId, change, Unclassified, None)
  }

  function When(b: bool, op: Operation): seq<Operation> {
    if b then [op] else []
  }

  /** The same values the same number of times, in any order. */
  predicate SameStrings(a: seq<string>, b: seq<string>) {
    multiset(a) == multiset(b)
  }

  function Count(counts: map<string, int>, v: string): int {
    if v in counts then counts[v] else 0
  }

  lemma SubMultisetOfEqualSize(a: multiset<string>, b: multiset<string>)
    requires b <= a && |a| == |b|
    ensures a == b
  {
    assert |a - b| == 0;
    assert a == b + (a - b);
  }

  lemma CountsOneMore(s: seq<string>, i: nat)
    requires i < |s|
    ensures multiset(s[..i + 1]) == multiset(s[..i]) + multiset{s[i]}
  {
    assert s[..i + 1] == s[..i] + [s[i]];
  }

  lemma OvercountedValue(a: seq<string>, b: seq<string>, i: nat)
    requires i < |b| && multiset(b[..i + 1])[b[i]] > multiset(a)[b[i]]
    ensures !SameStrings(a, b)
  {
    assert b == b[..i + 1] + b[i + 1..];
  }

  method CountUp(a: seq<string>) returns (counts: map<string, int>)
    ensures forall v :: Count(counts, v) == multiset(a)[v]
  {
    counts := map[];
    for i := 0 to |a|
      invariant forall v :: Count(counts, v) == multiset(a[..i])[v]
    {
      CountsOneMore(a, i);
      counts := counts[a[i] := Count(counts, a[i]) + 1];
    }
    assert a[..|a|] == a;
  }

  /** sameStringSet counts up over `a` and down over `b`; it decides multiset equality. */
  method SameStringSet(a: seq<string>, b: seq<string>) returns (same: bool)
    ensures same == SameStrings(a, b)
  {
    assert |multiset(a)| == |a| && |multiset(b)| == |b|;
    if |a| != |b| {
      return false;
    }
    var counts := CountUp(a);
    assert b[..|b|] == b;
    for i := 0 to |b|
      invariant forall v :: Count(counts, v) + multiset(b[..i])[v] == multiset(a)[v]
      invariant forall v :: Count(counts, v) >= 0
    {
      CountsOneMore(b, i);
      counts := counts[b[i] := Count(counts, b[i]) - 1];
      if counts[b[i]] < 0 {
        OvercountedValue(a, b, i);
        return false;
      }
    }
    SubMultisetOfEqualSize(multiset(a), multiset(b));
    return true;
  }

  predicate EnumChanged(of: Field, nf: Field) {
    of.typ.Enum? && nf.typ.Enum? && !SameStrings(of.values, nf.values)
  }

  predicate ReferenceChanged(of: Field, nf: Field) {
    of.typ.Reference? && nf.typ.Reference? && (of.target != nf.target || of.onDelete != nf.onDelete)
  }

  function Adding(ops: seq<Operation>, b: bool, op: Operation): seq<Operation> {
    if b then ops + [op] else ops
  }

  /** One operation per dimension along which a surviving field changed. */
  function FieldChanges(eid: string, of: Field, nf: Field): seq<Operation> {
    var named := Adding([], of.name != nf.name, Op(eid, nf.id, RenameField(of, nf)));
    var typed := Adding(named, of.typ != nf.typ, Op(eid, nf.id, ChangeType(of, nf)));
    var required := Adding(typed, of.required != nf.required, Op(eid, nf.id, ChangeRequired(of, nf)));
    var unique := Adding(required, of.unique != nf.unique, Op(eid, nf.id, ChangeUnique(of, nf)));
    var enumerated := Adding(unique, EnumChanged(of, nf), Op(eid, nf.id, ChangeEnum(of, nf)));
    Adding(enumerated, ReferenceChanged(of, nf), Op(eid, nf.id, ChangeReference(of, nf)))
  }

  /** What becomes of one field of the new manifest: added, or changed from its old shape. */
  function FieldOps(eid: string, olds: seq<Field>, nf: Field): seq<Operation> {
    match FieldById(olds, nf.id)
    case None => [Op(eid, nf.id, AddField(nf))]
    case Some(of) => FieldChanges(eid, of, nf)
  }

  function FieldsOps(eid: string, olds: seq<Field>, news: seq<Field>): seq<Operation> {
    if news == [] then []
    else FieldsOps(eid, olds, news[..|news| - 1]) + FieldOps(eid, olds, news[|news| - 1])
  }

  function DropOps(eid: string, olds: seq<Field>, news: seq<Field>): seq<Operation> {
    if olds == [] then []
    else
      var of := olds[|olds| - 1];
      DropOps(eid, olds[..|olds| - 1], news) + When(of.id !in FieldIds(news), Op(eid, of.id, DropField(of)))
  }

  function EntityChanges(oe: Entity, ne: Entity): seq<Operation> {
    When(oe.name != ne.name, Op(ne.id, "", RenameEntity(oe, ne)))
    + FieldsOps(ne.id, oe.fields, ne.fields)
    + DropOps(ne.id, oe.fields, ne.fields)
  }

  function EntityOps(olds: seq<Entity>, ne: Entity): seq<Operation> {
    match EntityById(olds, ne.id)
    case None => [Op(ne.id, "", AddEntity(ne))]
    case Some(oe) => EntityChanges(oe, ne)
  }

  function EntitiesOps(olds: seq<Entity>, news: seq<Entity>): seq<Operation> {
    if news == [] then []
    else EntitiesOps(olds, news[..|news| - 1]) + EntityOps(olds, news[|news| - 1])
  }

  function EntityDropOps(olds: seq<Entity>, news: seq<Entity>): seq<Operation> {
    if olds == [] then []
    else
      var oe := olds[|olds| - 1];
      EntityDropOps(olds[..|olds| - 1], news) + When(oe.id !in EntityIds(news), Op(oe.id, "", DropEntity(oe)))
  }

  function DiffOps(olds: seq<Entity>, news: seq<Entity>): seq<Operation> {
    EntitiesOps(olds, news) + EntityDropOps(olds, news)
  }

  // ----- the loops -----

  method DiffField(eid: string, of: Field, nf: Field) returns (ops: seq<Operation>)
    ensures ops == FieldChanges(eid, of, nf)
  {
    ops := [];
    if of.name != nf.name {
      ops := ops + [Op(eid, nf.id, RenameField(of, nf))];
    }
    if of.typ != nf.typ {
      ops := ops + [Op(eid, nf.id, ChangeType(of, nf))];
    }
    if of.required != nf.required {
      ops := ops + [Op(eid, nf.id, ChangeRequired(of, nf))];
    }
    if of.unique != nf.unique {
      ops := ops + [Op(eid, nf.id, ChangeUnique(of, nf))];
    }
    if of.typ.Enum? && nf.typ.Enum? {
      var same := SameStringSet(of.values, nf.values);
      if !same {
        ops := ops + [Op(eid, nf.id, ChangeEnum(of, nf))];
      }
    }
    if of.typ.Reference? && nf.typ.Reference? && (of.target != nf.target || of.onDelete != nf.onDelete) {
      ops := ops + [Op(eid, nf.id, ChangeReference(of, nf))];
    }
  }

  method DiffFields(eid: string, olds: seq<Field>, news: seq<Field>) returns (ops: seq<Operation>)
    ensures ops == FieldsOps(eid, olds, news)
  {
    ops := [];
    for i := 0 to |news|
      invariant ops == FieldsOps(eid, olds, news[..i])
    {
      assert news[..i + 1][..i] == news[..i];
      var changes: seq<Operation>;
      var of := FieldById(olds, news[i].id);
      if of.None? {
        changes := [Op(eid, news[i].id, AddField(news[i]))];
      } else {
        changes := DiffField(eid, of.value, news[i]);
      }
      assert changes == FieldOps(eid, olds, news[i]);
      ops := ops + changes;
    }
    assert news[..|news|] == news;
  }

  method DroppedFields(eid: string, olds: seq<Field>, news: seq<Field>) returns (ops: seq<Operation>)
    ensures ops == DropOps(eid, olds, news)
  {
    ops := [];
    for i := 0 to |olds|
      invariant ops == DropOps(eid, olds[..i], news)
    {
      assert olds[..i + 1][..i] == olds[..i];
      if FieldById(news, olds[i].id).None? {
        ops := ops + [Op(eid, olds[i].id, DropField(olds[i]))];
      }
    }
    assert olds[..|olds|] == olds;
  }

  method DiffEntity(oe: Entity, ne: Entity) returns (ops: seq<Operation>)
    ensures ops == EntityChanges(oe, ne)
  {
    ops := [];
    if oe.name != ne.name {
      ops := ops + [Op(ne.id, "", RenameEntity(oe, ne))];
    }
    var changed := DiffFields(ne.id, oe.fields, ne.fields);
    var dropped := DroppedFields(ne.id, oe.fields, ne.fields);
    ops := ops + changed + dropped;
  }

  /** Diff: added and surviving entities in new-manifest order, then dropped ones in old order. */
  method Diff(oldApp: App, newApp: App) returns (ops: seq<Operation>)
    ensures ops == DiffOps(oldApp.entities, newApp.entities)
  {
    var olds, news := oldApp.entities, newApp.entities;
    ops := [];
    for i := 0 to |news|
      invariant ops == EntitiesOps(olds, news[..i])
    {
      assert news[..i + 1][..i] == news[..i];
      var changes: seq<Operation>;
      var oe := EntityById(olds, news[i].id);
      if oe.None? {
        changes := [Op(news[i].id, "", AddEntity(news[i]))];
      } else {
        changes := DiffEntity(oe.value, news[i]);
      }
      assert changes == EntityOps(olds, news[i]);
      ops := ops + changes;
    }
    assert news[..|news|] == news;
    var dropped := DroppedEntities(olds, news);
    ops := ops + dropped;
  }

  method DroppedEntities(olds: seq<Entity>, news: seq<Entity>) returns (ops: seq<Operation>)
    ensures ops == EntityDropOps(olds, news)
  {
    ops := [];
    for i := 0 to |olds|
      invariant ops == EntityDropOps(olds[..i], news)
    {
      assert olds[..i + 1][..i] == olds[..i];
      if EntityById(news, olds[i].id).None? {
        ops := ops + [Op(olds[i].id, "", DropEntity(olds[i]))];
      }
    }
    assert olds[..|olds|] == olds;
  }
}

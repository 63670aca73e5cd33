/** What a caller sees of a list: the order of its rows and which rows it holds, by what the fields read as. */
module ListOrder {
  import opened Results
  import opened Schema
  import opened Sql
  import opened Strings
  import opened Materialize
  import opened RowCodec
  import opened Listing
  import opened DomainSound

  // ----- the order of values -----

  /** The two agree up to place `n`, where `s` has ended or has the smaller character. */
  predicate SmallerAt(s: string, t: string, n: nat) {
    n <= |s| && n < |t| && (forall m | 0 <= m < n :: s[m] == t[m]) && (n == |s| || s[n] < t[n])
  }

  predicate TextBefore(s: string, t: string) {
    exists n | 0 <= n <= |s| :: SmallerAt(s, t, n)
  }

  /** Null before numbers before text; numbers by value, false before true. */
  predicate Precedes(v: GoValue, w: GoValue) {
    match (v, w)
    case (Nil, _) => !w.Nil?
    case (Bool(a), Bool(b)) => !a && b
    case (Int(i), Int(j)) => i < j
    case (Int(i), Float(s)) => i as real < s
    case (Float(r), Int(j)) => r < j as real
    case (Float(r), Float(s)) => r < s
    case (Int(_), Str(_)) => true
    case (Float(_), Str(_)) => true
    case (Str(s), Str(t)) => TextBefore(s, t)
    case _ => false
  }

  lemma SmallerLater(s: string, t: string, n: nat)
    requires s != [] && t != [] && s[0] == t[0]
    ensures SmallerAt(s, t, n + 1) <==> SmallerAt(s[1..], t[1..], n)
    ensures !SmallerAt(s, t, 0)
  {
    if SmallerAt(s[1..], t[1..], n) {
      forall m | 0 <= m < n + 1 ensures s[m] == t[m] {
        assert m > 0 ==> s[1..][m - 1] == t[1..][m - 1];
      }
    }
  }

  lemma {:induction false} LeIsBefore(s: string, t: string)
    ensures Le(s, t) <==> s == t || TextBefore(s, t)
  {
    hide SmallerAt;
    if s == [] || t == [] || s[0] != t[0] {
      FirstDecides(s, t);
    } else {
      LeIsBefore(s[1..], t[1..]);
      assert s == [s[0]] + s[1..] && t == [t[0]] + t[1..];
      forall n: nat {
        SmallerLater(s, t, n);
      }
      if TextBefore(s[1..], t[1..]) {
        var n :| 0 <= n <= |s[1..]| && SmallerAt(s[1..], t[1..], n);
        assert SmallerAt(s, t, n + 1);
      }
      if TextBefore(s, t) {
        var n :| 0 <= n <= |s| && SmallerAt(s, t, n);
        SmallerLater(s, t, 0);
        assert SmallerAt(s[1..], t[1..], n - 1);
      }
    }
  }

  lemma FirstDecides(s: string, t: string)
    requires s == [] || t == [] || s[0] != t[0]
    ensures Le(s, t) <==> s == t || TextBefore(s, t)
  {
    if Le(s, t) && s != t {
      assert SmallerAt(s, t, 0);
    }
    if n: nat :| n <= |s| && SmallerAt(s, t, n) {
      assert n > 0 ==> s[0] == t[0];
    }
  }

  lemma BeforeIsStrict(s: string, t: string)
    ensures TextBefore(s, t) <==> !Le(t, s)
  {
    LeIsBefore(s, t);
    LeIsBefore(t, s);
    LeTotal(s, t);
    if Le(s, t) && Le(t, s) {
      LeAntisymmetric(s, t);
    }
    if TextBefore(s, t) && Le(t, s) {
      NotBeforeItself(s);
    }
  }

  lemma NotBeforeItself(s: string)
    ensures !TextBefore(s, s)
  {
  }

  // ----- what a row reads as -----

  /** A stored row of a table that holds only what its columns admit. */
  predicate StoredRow(p: Platform, e: Entity, x: Entry) {
    RowOk(p, Columns(e.fields), x.row)
  }

  function Reading(e: Entity, x: Entry): GoRow {
    ReadRow(e, x.id, x.row)
  }

  predicate Known(e: Entity, name: string) {
    name in FieldNames(e.fields) + PlatformColumns()
  }

  lemma OrderOfReadings(e: Entity, col: string, v: Value, w: Value)
    requires match FieldByName(e.fields, col)
             case Some(f) => f.typ.Boolean? ==> InDomain(ZeroOrOne, v) && InDomain(ZeroOrOne, w)
             case None => true
    ensures Precedes(Decode(e, col, v), Decode(e, col, w)) <==> !ValueLe(w, v)
  {
    hide TextBefore, Le;
    if v.TEXT? && w.TEXT? {
      BeforeIsStrict(v.s, w.s);
    }
  }

  lemma BooleanCell(p: Platform, e: Entity, x: Entry, f: Field)
    requires NamedFields(e) && AllReadable(p, e) && StoredRow(p, e, x) && f in e.fields && f.typ.Boolean?
    ensures InDomain(ZeroOrOne, Physical(x.id, x.row, f.id))
  {
    hide Columns;
    ColumnOfField(e.fields, f);
    assert Readable(p, f.id);
    assert Satisfies(p, f.id, ColumnDef(f), x.row.cells[f.id]);
  }

  lemma KnownColumn(p: Platform, e: Entity, x: Entry, col: string)
    requires NamedFields(e) && AllReadable(p, e) && StoredRow(p, e, x) && Known(e, col)
    ensures col in Reading(e, x) && Reading(e, x)[col] == Decode(e, col, Physical(x.id, x.row, PhysCol(e, col)))
    ensures match FieldByName(e.fields, col)
            case Some(f) => f.typ.Boolean? ==> InDomain(ZeroOrOne, Physical(x.id, x.row, PhysCol(e, col)))
            case None => true
  {
    hide Decode, Physical, InDomain, StoredRow, AllReadable;
    match FieldByName(e.fields, col) {
      case Some(f) =>
        if f.typ.Boolean? {
          BooleanCell(p, e, x, f);
        }
      case None =>
    }
  }

  // ----- the order of a list -----

  /** The rows hold the same in the column, or at least neither comes first by it. */
  predicate Ties(col: string, a: GoRow, b: GoRow)
    requires col in a && col in b
  {
    !Precedes(a[col], b[col]) && !Precedes(b[col], a[col])
  }

  /** By this sort, row `a` comes before row `b`: it has the smaller value, or the larger if the sort descends. */
  predicate Leads(sort: Sort, a: GoRow, b: GoRow)
    requires sort.column in a && sort.column in b
  {
    if sort.desc then Precedes(b[sort.column], a[sort.column]) else Precedes(a[sort.column], b[sort.column])
  }

  predicate Sortable(sorts: seq<Sort>, a: GoRow) {
    "id" in a && forall i | 0 <= i < |sorts| :: sorts[i].column in a
  }

  /** The rows tie on the first `k` sorts, and the next one decides, or the id where there is none. */
  predicate DecidedAt(sorts: seq<Sort>, a: GoRow, b: GoRow, k: nat)
    requires Sortable(sorts, a) && Sortable(sorts, b) && k <= |sorts|
  {
    && (forall m | 0 <= m < k :: Ties(sorts[m].column, a, b))
    && (if k < |sorts| then Leads(sorts[k], a, b) else Precedes(a["id"], b["id"]))
  }

  /** The first sort by which the rows differ puts `a` first, or the smaller id does where there is none. */
  predicate ComesFirst(sorts: seq<Sort>, a: GoRow, b: GoRow)
    requires Sortable(sorts, a) && Sortable(sorts, b)
  {
    exists k | 0 <= k <= |sorts| :: DecidedAt(sorts, a, b, k)
  }

  lemma TermOfSort(p: Platform, e: Entity, s: Sort, a: Entry, b: Entry)
    requires NamedFields(e) && AllReadable(p, e) && StoredRow(p, e, a) && StoredRow(p, e, b) && Known(e, s.column)
    ensures s.column in Reading(e, a) && s.column in Reading(e, b)
    ensures var t := Term(PhysCol(e, s.column), s.desc);
            && (!TermLe(t, b, a) <==> Leads(s, Reading(e, a), Reading(e, b)))
            && (TermLe(t, a, b) && TermLe(t, b, a) <==> Ties(s.column, Reading(e, a), Reading(e, b)))
  {
    hide Reading, Decode, ValueLe, Precedes, StoredRow, AllReadable, Physical, PhysCol, InDomain, FieldNames;
    KnownColumn(p, e, a, s.column);
    KnownColumn(p, e, b, s.column);
    var v, w := Physical(a.id, a.row, PhysCol(e, s.column)), Physical(b.id, b.row, PhysCol(e, s.column));
    OrderOfReadings(e, s.column, v, w);
    OrderOfReadings(e, s.column, w, v);
  }

  lemma ReadsItsId(e: Entity, x: Entry)
    requires NamedFields(e)
    ensures "id" in Reading(e, x) && Reading(e, x)["id"] == Str(x.id)
  {
    PlatformReads(e, x.id, x.row);
  }

  lemma TermsOfRest(e: Entity, sorts: seq<Sort>)
    requires sorts != []
    ensures OrderTerms(e, sorts) != [] && OrderTerms(e, sorts)[0] == Term(PhysCol(e, sorts[0].column), sorts[0].desc)
    ensures OrderTerms(e, sorts)[1..] == OrderTerms(e, sorts[1..])
  {
    hide PhysCol;
  }

  /** The ORDER BY terms put `a` first only if its readings do. */
  lemma {:induction false} RowLeIsFirst(p: Platform, e: Entity, sorts: seq<Sort>, a: Entry, b: Entry)
    requires NamedFields(e) && AllReadable(p, e) && StoredRow(p, e, a) && StoredRow(p, e, b) && a.id != b.id
    requires forall s | s in sorts :: Known(e, s.column)
    requires RowLe(OrderTerms(e, sorts), a, b)
    ensures Sortable(sorts, Reading(e, a)) && Sortable(sorts, Reading(e, b))
    ensures ComesFirst(sorts, Reading(e, a), Reading(e, b))
  {
    hide Reading, PhysCol, Leads, Ties, TermLe, NamedFields, AllReadable, StoredRow, Known, OrderTerms, Precedes;
    ReadsItsId(e, a);
    ReadsItsId(e, b);
    var terms := OrderTerms(e, sorts);
    if sorts == [] {
      IdsDecideOrder(e, a, b);
      assert DecidedAt(sorts, Reading(e, a), Reading(e, b), 0);
    } else {
      TermsOfRest(e, sorts);
      assert sorts[0] in sorts;
      TermOfSort(p, e, sorts[0], a, b);
      forall s | s in sorts {
        TermOfSort(p, e, s, a, b);
      }
      assert forall i | 0 <= i < |sorts| :: sorts[i] in sorts;
      if TermLe(terms[0], b, a) {
        RowLeIsFirst(p, e, sorts[1..], a, b);
        LaterSortDecides(sorts, Reading(e, a), Reading(e, b));
      } else {
        assert DecidedAt(sorts, Reading(e, a), Reading(e, b), 0);
      }
    }
  }

  lemma IdsDecideOrder(e: Entity, a: Entry, b: Entry)
    requires NamedFields(e) && a.id != b.id && RowLe(OrderTerms(e, []), a, b)
    ensures Precedes(Str(a.id), Str(b.id))
  {
    hide TextBefore;
    assert OrderTerms(e, []) == [Term("id", false)];
    assert TermLe(Term("id", false), a, b);
    BeforeIsStrict(a.id, b.id);
    LeIsBefore(a.id, b.id);
  }

  lemma LaterSortDecides(sorts: seq<Sort>, a: GoRow, b: GoRow)
    requires sorts != [] && sorts[0].column in a && sorts[0].column in b && Ties(sorts[0].column, a, b)
    requires Sortable(sorts[1..], a) && Sortable(sorts[1..], b) && ComesFirst(sorts[1..], a, b)
    ensures Sortable(sorts, a) && Sortable(sorts, b) && ComesFirst(sorts, a, b)
  {
    hide Ties, Leads, Precedes;
    var rest := sorts[1..];
    assert forall i | 1 <= i < |sorts| :: sorts[i] == rest[i - 1];
    var k :| 0 <= k <= |rest| && DecidedAt(rest, a, b, k);
    forall m | 0 <= m < k + 1 ensures Ties(sorts[m].column, a, b) {
      if m > 0 {
        assert Ties(rest[m - 1].column, a, b);
      }
    }
    assert DecidedAt(sorts, a, b, k + 1);
  }

  /** The rows of a table, as the list operation finds them. */
  predicate Tabled(p: Platform, e: Entity, stored: seq<Entry>, rows: map<string, Row>) {
    Lists(stored, rows) && forall id | id in rows :: RowOk(p, Columns(e.fields), rows[id])
  }

  lemma TwiceListed(xs: seq<Entry>, i: nat, j: nat)
    requires i < j < |xs| && xs[i] == xs[j]
    ensures multiset(xs)[xs[i]] >= 2
  {
    assert xs == xs[..j] + [xs[j]] + xs[j + 1..];
    assert xs[..j][i] == xs[i];
  }

  lemma PlacesHaveOwnIds(xs: seq<Entry>, i: nat, j: nat)
    requires i < j < |xs| && (forall x :: multiset(xs)[x] <= 1) && IdsDecide(xs)
    ensures xs[i].id != xs[j].id
  {
    if xs[i].id == xs[j].id {
      TwiceListed(xs, i, j);
    }
  }

  lemma ListedRows(p: Platform, like: (Value, Value) -> bool, e: Entity, filters: set<Filter>, sorts: seq<Sort>, stored: seq<Entry>, rows: map<string, Row>)
    requires Tabled(p, e, stored, rows)
    ensures var full := FullList(p, like, e, filters, sorts, stored);
            && InOrder(OrderTerms(e, sorts), full)
            && (forall x | x in full :: x.id in rows && rows[x.id] == x.row && StoredRow(p, e, x))
            && (forall i, j | 0 <= i < j < |full| :: full[i].id != full[j].id)
            && (forall id | id in rows ::
                  Entry(id, rows[id]) in full <==> AllSatisfied(p, like, e, Clauses(e, filters), Entry(id, rows[id])))
  {
    hide AllSatisfied, Selected, Ordered, RowLe, RowOk, OrderTerms, Lists, FullList, Clauses;
    var full := FullList(p, like, e, filters, sorts, stored);
    FullListIsExact(p, like, e, filters, sorts, stored, rows);
    FullListInOrder(p, like, e, filters, sorts, stored);
    forall x | x in full ensures x.id in rows && rows[x.id] == x.row {
      assert x in multiset(full);
    }
    assert forall x :: x in full <==> multiset(full)[x] > 0;
    forall i, j | 0 <= i < j < |full| ensures full[i].id != full[j].id {
      PlacesHaveOwnIds(full, i, j);
    }
  }

  lemma FullListInOrder(p: Platform, like: (Value, Value) -> bool, e: Entity, filters: set<Filter>, sorts: seq<Sort>, stored: seq<Entry>)
    ensures InOrder(OrderTerms(e, sorts), FullList(p, like, e, filters, sorts, stored))
  {
    hide OrderTerms, InOrder;
    OrderedIsSorted(OrderTerms(e, sorts), Selected(p, like, e, Clauses(e, filters), stored));
  }

  /**
   * A list is in the order its caller asked for. Of any two of its rows, at the first sort on whose
   * field they differ the earlier row holds the smaller value if that sort ascends and the larger if
   * it descends; rows equal on every sort come by ascending id.
   */
  lemma ListIsInRequestedOrder(p: Platform, like: (Value, Value) -> bool, e: Entity, filters: set<Filter>, sorts: seq<Sort>,
                               stored: seq<Entry>, rows: map<string, Row>, i: nat, j: nat)
    requires NamedFields(e) && AllReadable(p, e) && Tabled(p, e, stored, rows)
    requires forall s | s in sorts :: Known(e, s.column)
    requires i < j < |FullList(p, like, e, filters, sorts, stored)|
    ensures var read := ReadAll(e, FullList(p, like, e, filters, sorts, stored));
            && Sortable(sorts, read[i]) && Sortable(sorts, read[j]) && ComesFirst(sorts, read[i], read[j])
  {
    hide NamedFields, AllReadable, StoredRow, Known, OrderTerms, FullList, ComesFirst, Sortable, RowLe, Tabled, AllSatisfied;
    var full := FullList(p, like, e, filters, sorts, stored);
    ListedRows(p, like, e, filters, sorts, stored, rows);
    assert full[i] in full && full[j] in full;
    RowLeIsFirst(p, e, sorts, full[i], full[j]);
  }

  // ----- the rows of a list -----

  /** The filter's argument is of its column's kind: numbers for numbers, and otherwise the same type. */
  predicate Comparable(e: Entity, f: Filter) {
    match FieldByName(e.fields, f.column)
    case Some(field) =>
      HasType(field, f.value) || ((field.typ.Integer? || field.typ.Real?) && (f.value.Int? || f.value.Float?))
    case None => IsReserved(f.column) && (f.value.Nil? || f.value.Str?)
  }

  /** The filter admits a row that reads so: a comparison of the field's value with the argument; null matches nothing. */
  predicate Admits(p: Platform, like: (Value, Value) -> bool, e: Entity, f: Filter, read: GoRow)
    requires f.column in read
  {
    var v, w := read[f.column], f.value;
    !v.Nil? && !w.Nil? &&
    match f.op
    case Eq => !Precedes(v, w) && !Precedes(w, v)
    case Ne => Precedes(v, w) || Precedes(w, v)
    case Gt => Precedes(w, v)
    case Gte => !Precedes(v, w)
    case Lt => Precedes(v, w)
    case Lte => !Precedes(w, v)
    case Like => like(Encode(v), Stored(p, ColumnAffinity(e, PhysCol(e, f.column)), Encode(w)))
  }

  /** The same value, or the same number. */
  predicate Alike(v: GoValue, w: GoValue) {
    v == w || (v.Int? && w.Float? && v.i as real == w.r) || (v.Float? && w.Int? && v.r == w.i as real)
  }

  lemma AlikeComparesAlike(v: GoValue, w: GoValue, u: GoValue)
    requires Alike(v, w)
    ensures Precedes(u, v) <==> Precedes(u, w)
    ensures Precedes(v, u) <==> Precedes(w, u)
  {
    hide TextBefore;
  }

  lemma ArgumentOfField(p: Platform, e: Entity, f: Field, v: GoValue)
    requires NamedFields(e) && f in e.fields
    requires HasType(f, v) || ((f.typ.Integer? || f.typ.Real?) && (v.Int? || v.Float?))
    ensures Alike(Decode(e, f.name, Stored(p, ColumnDef(f).affinity, Encode(v))), v)
    ensures f.typ.Boolean? ==> InDomain(ZeroOrOne, Stored(p, ColumnDef(f).affinity, Encode(v)))
  {
    FieldByNameFinds(e.fields, f);
  }

  /** The argument, as the column holds it, reads as itself, or as the same number. */
  lemma ArgumentReads(p: Platform, e: Entity, f: Filter)
    requires NamedFields(e) && Known(e, f.column) && Comparable(e, f)
    ensures var w := Stored(p, ColumnAffinity(e, PhysCol(e, f.column)), Encode(f.value));
            && Alike(Decode(e, f.column, w), f.value) && (w.NULL? <==> f.value.Nil?)
            && (match FieldByName(e.fields, f.column)
                case Some(field) => field.typ.Boolean? ==> InDomain(ZeroOrOne, w)
                case None => true)
  {
    hide Stored, InDomain, Alike, Decode, ColumnDef;
    match FieldByName(e.fields, f.column) {
      case Some(field) =>
        FieldByIdFinds(e.fields, field);
        ArgumentOfField(p, e, field, f.value);
        EncodedNull(field, f.value);
      case None =>
        NoReservedId(e, f.column);
        TextReads(p, e, f.column, f.value);
    }
  }

  lemma EncodedNull(f: Field, v: GoValue)
    requires HasType(f, v) || v.Int? || v.Float?
    ensures Encode(v).NULL? <==> v.Nil?
  {
  }

  lemma TextReads(p: Platform, e: Entity, col: string, v: GoValue)
    requires FieldByName(e.fields, col).None? && (v.Nil? || v.Str?)
    ensures var w := Stored(p, TextAffinity, Encode(v)); Alike(Decode(e, col, w), v) && (w.NULL? <==> v.Nil?)
  {
  }

  lemma NoReservedId(e: Entity, name: string)
    requires NamedFields(e) && IsReserved(name)
    ensures FieldById(e.fields, name).None?
  {
  }

  lemma EncodeDecode(e: Entity, col: string, v: Value)
    requires match FieldByName(e.fields, col)
             case Some(f) => f.typ.Boolean? ==> InDomain(ZeroOrOne, v)
             case None => true
    ensures Encode(Decode(e, col, v)) == v && (v.NULL? <==> Decode(e, col, v).Nil?)
  {
  }

  /** Each operator is the comparison it is named after, of the field's own value with the argument. */
  lemma FilterComparesValues(p: Platform, like: (Value, Value) -> bool, e: Entity, f: Filter, x: Entry)
    requires NamedFields(e) && AllReadable(p, e) && StoredRow(p, e, x) && Known(e, f.column) && Comparable(e, f)
    ensures f.column in Reading(e, x)
    ensures Satisfied(p, like, e, ClauseOf(e, f), x) <==> Admits(p, like, e, f, Reading(e, x))
  {
    hide Reading, Decode, ValueLe, Precedes, StoredRow, AllReadable, Physical, PhysCol, InDomain, FieldNames, Encode, Stored, ColumnAffinity, Comparable;
    KnownColumn(p, e, x, f.column);
    var v := Physical(x.id, x.row, PhysCol(e, f.column));
    var w := Stored(p, ColumnAffinity(e, PhysCol(e, f.column)), Encode(f.value));
    ArgumentReads(p, e, f);
    AlikeComparesAlike(Decode(e, f.column, w), f.value, Decode(e, f.column, v));
    OrderOfReadings(e, f.column, v, w);
    OrderOfReadings(e, f.column, w, v);
    EncodeDecode(e, f.column, v);
  }

  /** A list holds each row that every filter admits, once, and no other. */
  lemma ListHoldsWhatFiltersAdmit(p: Platform, like: (Value, Value) -> bool, e: Entity, filters: set<Filter>, sorts: seq<Sort>,
                                  stored: seq<Entry>, rows: map<string, Row>)
    requires NamedFields(e) && AllReadable(p, e) && Tabled(p, e, stored, rows)
    requires forall f | f in filters :: Known(e, f.column) && Comparable(e, f)
    ensures var full := FullList(p, like, e, filters, sorts, stored);
            && (forall i, j | 0 <= i < j < |full| :: full[i].id != full[j].id)
            && (forall x | x in full :: x.id in rows && rows[x.id] == x.row)
            && (forall id | id in rows ::
                  Entry(id, rows[id]) in full <==>
                  forall f | f in filters :: f.column in ReadRow(e, id, rows[id]) && Admits(p, like, e, f, ReadRow(e, id, rows[id])))
  {
    hide NamedFields, AllReadable, Known, Comparable, Admits, OrderTerms, FullList, ReadRow, RowOk, Lists, InOrder, Satisfied, ClauseOf;
    var full := FullList(p, like, e, filters, sorts, stored);
    ListedRows(p, like, e, filters, sorts, stored, rows);
    forall id | id in rows
      ensures AllSatisfied(p, like, e, Clauses(e, filters), Entry(id, rows[id])) <==>
              forall f | f in filters :: f.column in ReadRow(e, id, rows[id]) && Admits(p, like, e, f, ReadRow(e, id, rows[id]))
    {
      forall f | f in filters {
        FilterComparesValues(p, like, e, f, Entry(id, rows[id]));
      }
      SatisfiesEachFilter(p, like, e, filters, Entry(id, rows[id]));
    }
  }

  lemma SatisfiesEachFilter(p: Platform, like: (Value, Value) -> bool, e: Entity, filters: set<Filter>, x: Entry)
    ensures AllSatisfied(p, like, e, Clauses(e, filters), x) <==> forall f | f in filters :: Satisfied(p, like, e, ClauseOf(e, f), x)
  {
    hide Satisfied, ClauseOf;
    if AllSatisfied(p, like, e, Clauses(e, filters), x) {
      forall f | f in filters ensures Satisfied(p, like, e, ClauseOf(e, f), x) {
        assert ClauseOf(e, f) in Clauses(e, filters);
      }
    }
  }
}

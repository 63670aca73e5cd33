/** listWith of engine/store/store.go: filters, a total order with the id as tiebreak, and pages. */
module Listing {
  import opened Results
  import opened Schema
  import opened Sql
  import opened Strings
  import opened Materialize
  import opened RowCodec

  datatype Operator = Eq | Ne | Gt | Gte | Lt | Lte | Like

  datatype Filter = Filter(column: string, op: Operator, value: GoValue)

  datatype Sort = Sort(column: string, desc: bool)

  datatype ListQuery = ListQuery(filters: seq<Filter>, sorts: seq<Sort>, limit: nat, offset: nat)

  /** A stored row with its primary key. */
  datatype Entry = Entry(id: string, row: Row)

  /** One ORDER BY term over a physical column. */
  datatype Term = Term(col: string, desc: bool)

  /** One WHERE clause over a physical column. */
  datatype Clause = Clause(col: string, op: Operator, arg: Value)

  // ----- SQLite's order of values -----

  function Rank(v: Value): nat {
    match v
    case NULL => 0
    case INTEGER(_) => 1
    case REAL(_) => 1
    case TEXT(_) => 2
  }

  function Number(v: Value): real
    requires v.INTEGER? || v.REAL?
  {
    if v.INTEGER? then v.i as real else v.r
  }

  predicate ValueLe(v: Value, w: Value) {
    if Rank(v) != Rank(w) then Rank(v) < Rank(w)
    else if v.NULL? then true
    else if v.TEXT? then Le(v.s, w.s)
    else Number(v) <= Number(w)
  }

  lemma ValueLeTotal(v: Value, w: Value)
    ensures ValueLe(v, w) || ValueLe(w, v)
  {
    if v.TEXT? && w.TEXT? {
      LeTotal(v.s, w.s);
    }
  }

  lemma ValueLeTransitive(u: Value, v: Value, w: Value)
    requires ValueLe(u, v) && ValueLe(v, w)
    ensures ValueLe(u, w)
  {
    if u.TEXT? && v.TEXT? && w.TEXT? {
      LeTransitive(u.s, v.s, w.s);
    }
  }

  // ----- the order of rows -----

  function OrderTerms(e: Entity, sorts: seq<Sort>): seq<Term> {
    seq(|sorts|, i requires 0 <= i < |sorts| => Term(PhysCol(e, sorts[i].column), sorts[i].desc)) + [Term("id", false)]
  }

  /** buildOrderBy: the caller's terms, then the primary key. */
  method BuildOrderBy(e: Entity, sorts: seq<Sort>) returns (terms: seq<Term>)
    ensures terms == OrderTerms(e, sorts)
  {
    hide PhysCol;
    terms := [];
    for i := 0 to |sorts|
      invariant terms == OrderTerms(e, sorts)[..i]
    {
      terms := terms + [Term(PhysCol(e, sorts[i].column), sorts[i].desc)];
    }
    terms := terms + [Term("id", false)];
  }

  predicate TermLe(t: Term, a: Entry, b: Entry) {
    var x, y := Physical(a.id, a.row, t.col), Physical(b.id, b.row, t.col);
    if t.desc then ValueLe(y, x) else ValueLe(x, y)
  }

  /** `a` comes no later than `b` under these ORDER BY terms. */
  predicate RowLe(terms: seq<Term>, a: Entry, b: Entry) {
    terms == [] ||
    (TermLe(terms[0], a, b) && (TermLe(terms[0], b, a) ==> RowLe(terms[1..], a, b)))
  }

  lemma TermLeTotal(t: Term, a: Entry, b: Entry)
    ensures TermLe(t, a, b) || TermLe(t, b, a)
  {
    ValueLeTotal(Physical(a.id, a.row, t.col), Physical(b.id, b.row, t.col));
  }

  lemma TermLeTransitive(t: Term, a: Entry, b: Entry, c: Entry)
    requires TermLe(t, a, b) && TermLe(t, b, c)
    ensures TermLe(t, a, c)
  {
    var x, y, z := Physical(a.id, a.row, t.col), Physical(b.id, b.row, t.col), Physical(c.id, c.row, t.col);
    if t.desc {
      ValueLeTransitive(z, y, x);
    } else {
      ValueLeTransitive(x, y, z);
    }
  }

  lemma {:induction false} RowLeTotal(terms: seq<Term>, a: Entry, b: Entry)
    ensures RowLe(terms, a, b) || RowLe(terms, b, a)
  {
    hide TermLe;
    if terms != [] {
      TermLeTotal(terms[0], a, b);
      RowLeTotal(terms[1..], a, b);
    }
  }

  lemma {:induction false} RowLeTransitive(terms: seq<Term>, a: Entry, b: Entry, c: Entry)
    requires RowLe(terms, a, b) && RowLe(terms, b, c)
    ensures RowLe(terms, a, c)
  {
    hide TermLe;
    if terms != [] {
      TermLeTransitive(terms[0], a, b, c);
      if TermLe(terms[0], c, a) {
        TermLeTransitive(terms[0], b, c, a);
        TermLeTransitive(terms[0], c, a, b);
        RowLeTransitive(terms[1..], a, b, c);
      }
    }
  }

  /** Rows that tie on every term, the id included, have the same id. */
  lemma {:induction false} RowLeAntisymmetric(terms: seq<Term>, a: Entry, b: Entry)
    requires terms != [] && terms[|terms| - 1] == Term("id", false)
    requires RowLe(terms, a, b) && RowLe(terms, b, a)
    ensures a.id == b.id
  {
    if |terms| == 1 {
      assert TermLe(Term("id", false), a, b) && TermLe(Term("id", false), b, a);
      LeAntisymmetric(a.id, b.id);
    } else {
      RowLeAntisymmetric(terms[1..], a, b);
    }
  }

  /**
   * The appended id makes every sort list a strict total order: of two rows with different ids,
   * exactly one comes before the other, however the caller's keys tie.
   */
  lemma OrderIsStrictAndTotal(e: Entity, sorts: seq<Sort>, a: Entry, b: Entry)
    requires a.id != b.id
    ensures RowLe(OrderTerms(e, sorts), a, b) <==> !RowLe(OrderTerms(e, sorts), b, a)
  {
    var terms := OrderTerms(e, sorts);
    RowLeTotal(terms, a, b);
    if RowLe(terms, a, b) && RowLe(terms, b, a) {
      RowLeAntisymmetric(terms, a, b);
    }
  }

  // ----- what SQLite does with the query -----

  function ColumnAffinity(e: Entity, col: string): Affinity {
    match FieldById(e.fields, col)
    case None => TextAffinity
    case Some(f) => ColumnDef(f).affinity
  }

  /** `col op ?`: null on either side is no match; the argument takes the column's affinity. */
  predicate Satisfied(p: Platform, like: (Value, Value) -> bool, e: Entity, c: Clause, x: Entry) {
    var v, w := Physical(x.id, x.row, c.col), Stored(p, ColumnAffinity(e, c.col), c.arg);
    !v.NULL? && !w.NULL? &&
    match c.op
    case Eq => ValueLe(v, w) && ValueLe(w, v)
    case Ne => !(ValueLe(v, w) && ValueLe(w, v))
    case Gt => !ValueLe(v, w)
    case Gte => ValueLe(w, v)
    case Lt => !ValueLe(w, v)
    case Lte => ValueLe(v, w)
    case Like => like(v, w)
  }

  predicate AllSatisfied(p: Platform, like: (Value, Value) -> bool, e: Entity, clauses: set<Clause>, x: Entry) {
    forall c | c in clauses :: Satisfied(p, like, e, c, x)
  }

  function ClauseOf(e: Entity, f: Filter): Clause {
    Clause(PhysCol(e, f.column), f.op, Encode(f.value))
  }

  /** The AND-combined WHERE clauses of these filters. */
  function Clauses(e: Entity, filters: set<Filter>): set<Clause> {
    set f | f in filters :: ClauseOf(e, f)
  }

  lemma NothingSelected(e: Entity)
    ensures Members<Clause>([]) == Clauses(e, Members<Filter>([]))
  {
  }

  /** buildWhere. */
  method BuildWhere(e: Entity, filters: seq<Filter>) returns (clauses: seq<Clause>)
    ensures Members(clauses) == Clauses(e, Members(filters))
  {
    hide ClauseOf, Members;
    clauses := [];
    NothingSelected(e);
    for i := 0 to |filters|
      invariant Members(clauses) == Clauses(e, Members(filters[..i]))
    {
      assert filters[..i + 1] == filters[..i] + [filters[i]];
      MembersMore(filters[..i], filters[i]);
      MembersMore(clauses, ClauseOf(e, filters[i]));
      clauses := clauses + [ClauseOf(e, filters[i])];
    }
    assert filters[..|filters|] == filters;
  }

  /** The matching rows, in the order they are stored. */
  function Selected(p: Platform, like: (Value, Value) -> bool, e: Entity, clauses: set<Clause>, stored: seq<Entry>): seq<Entry> {
    if stored == [] then []
    else
      var rest := Selected(p, like, e, clauses, stored[..|stored| - 1]);
      var x := stored[|stored| - 1];
      if AllSatisfied(p, like, e, clauses, x) then rest + [x] else rest
  }

  function InsertEntry(terms: seq<Term>, x: Entry, xs: seq<Entry>): seq<Entry> {
    if xs == [] || RowLe(terms, x, xs[0]) then [x] + xs else [xs[0]] + InsertEntry(terms, x, xs[1..])
  }

  /** ORDER BY: a sorted permutation of the rows. */
  function Ordered(terms: seq<Term>, xs: seq<Entry>): seq<Entry> {
    if xs == [] then [] else InsertEntry(terms, xs[0], Ordered(terms, xs[1..]))
  }

  predicate InOrder(terms: seq<Term>, xs: seq<Entry>) {
    forall i, j | 0 <= i < j < |xs| :: RowLe(terms, xs[i], xs[j])
  }

  lemma InOrderBehind(terms: seq<Term>, x: Entry, xs: seq<Entry>)
    requires InOrder(terms, xs) && forall y | y in xs :: RowLe(terms, x, y)
    ensures InOrder(terms, [x] + xs)
  {
    hide RowLe;
    var all := [x] + xs;
    forall i, j | 0 <= i < j < |all| ensures RowLe(terms, all[i], all[j]) {
      assert all[j] == xs[j - 1] && xs[j - 1] in xs;
      if i > 0 {
        assert RowLe(terms, xs[i - 1], xs[j - 1]);
      }
    }
  }

  lemma InOrderTail(terms: seq<Term>, xs: seq<Entry>)
    requires InOrder(terms, xs) && xs != []
    ensures InOrder(terms, xs[1..]) && forall y | y in xs[1..] :: RowLe(terms, xs[0], y)
  {
    hide RowLe;
  }

  lemma {:induction false} InsertEntryKeepsOrder(terms: seq<Term>, x: Entry, xs: seq<Entry>)
    requires InOrder(terms, xs)
    ensures InOrder(terms, InsertEntry(terms, x, xs))
    ensures multiset(InsertEntry(terms, x, xs)) == multiset(xs) + multiset{x}
  {
    hide RowLe, InOrder;
    if xs == [] {
      InOrderBehind(terms, x, xs);
    } else {
      assert xs == [xs[0]] + xs[1..];
      InOrderTail(terms, xs);
      if RowLe(terms, x, xs[0]) {
        forall y | y in xs ensures RowLe(terms, x, y) {
          if y != xs[0] {
            RowLeTransitive(terms, x, xs[0], y);
          }
        }
        InOrderBehind(terms, x, xs);
      } else {
        RowLeTotal(terms, x, xs[0]);
        InsertEntryKeepsOrder(terms, x, xs[1..]);
        var rest := InsertEntry(terms, x, xs[1..]);
        forall y | y in rest ensures RowLe(terms, xs[0], y) {
          assert y in multiset(rest);
          assert y == x || y in multiset(xs[1..]);
        }
        InOrderBehind(terms, xs[0], rest);
      }
    }
  }

  lemma {:induction false} OrderedIsSorted(terms: seq<Term>, xs: seq<Entry>)
    ensures InOrder(terms, Ordered(terms, xs)) && multiset(Ordered(terms, xs)) == multiset(xs)
  {
    hide RowLe;
    if xs != [] {
      OrderedIsSorted(terms, xs[1..]);
      InsertEntryKeepsOrder(terms, xs[0], Ordered(terms, xs[1..]));
      assert xs == [xs[0]] + xs[1..];
    }
  }

  predicate IdsDecide(xs: seq<Entry>) {
    forall x, y | x in xs && y in xs && x.id == y.id :: x == y
  }

  lemma SameHead(terms: seq<Term>, a: seq<Entry>, b: seq<Entry>)
    requires terms != [] && terms[|terms| - 1] == Term("id", false)
    requires InOrder(terms, a) && InOrder(terms, b) && multiset(a) == multiset(b) && IdsDecide(a) && a != []
    ensures b != [] && a[0] == b[0]
  {
    hide RowLe;
    assert a[0] in multiset(b) && b != [];
    assert b[0] in multiset(a);
    var i :| 0 <= i < |b| && b[i] == a[0];
    var j :| 0 <= j < |a| && a[j] == b[0];
    if i > 0 && j > 0 {
      RowLeAntisymmetric(terms, a[0], b[0]);
    }
  }

  /** A set of rows with distinct ids has one listing in order. */
  lemma {:induction false} OneListing(terms: seq<Term>, a: seq<Entry>, b: seq<Entry>)
    requires terms != [] && terms[|terms| - 1] == Term("id", false)
    requires InOrder(terms, a) && InOrder(terms, b) && multiset(a) == multiset(b) && IdsDecide(a)
    ensures a == b
  {
    hide RowLe;
    if a == [] {
      assert |multiset(b)| == 0;
    } else {
      SameHead(terms, a, b);
      SameTails(a, b);
      OneListing(terms, a[1..], b[1..]);
      assert a == [a[0]] + a[1..] && b == [b[0]] + b[1..];
    }
  }

  // ----- pages -----

  function Min(a: nat, b: nat): nat {
    if a <= b then a else b
  }

  /** LIMIT ? OFFSET ?. */
  function Page<T>(xs: seq<T>, limit: nat, offset: nat): seq<T> {
    xs[Min(offset, |xs|)..Min(offset + limit, |xs|)]
  }

  /** The first `n` pages of size `limit`, one after the other. */
  function Pages<T>(xs: seq<T>, limit: nat, n: nat): seq<T> {
    if n == 0 then [] else Pages(xs, limit, n - 1) + Page(xs, limit, (n - 1) * limit)
  }

  lemma {:induction false} PagesArePrefix<T>(xs: seq<T>, limit: nat, n: nat)
    ensures n * limit >= 0
    ensures Pages(xs, limit, n) == xs[..Min(n * limit, |xs|)]
  {
    if n > 0 {
      PagesArePrefix(xs, limit, n - 1);
      assert n * limit == (n - 1) * limit + limit;
    }
  }

  // ----- the list operation -----

  /** Every match of the filters, in the order of the sorts. */
  function FullList(p: Platform, like: (Value, Value) -> bool, e: Entity, filters: set<Filter>, sorts: seq<Sort>, stored: seq<Entry>)
    : seq<Entry>
  {
    Ordered(OrderTerms(e, sorts), Selected(p, like, e, Clauses(e, filters), stored))
  }

  function ReadAll(e: Entity, xs: seq<Entry>): seq<GoRow> {
    seq(|xs|, i requires 0 <= i < |xs| => ReadRow(e, xs[i].id, xs[i].row))
  }

  /** listWith: the requested page of the ordered matches, and how many matches there are. */
  method ListWith(p: Platform, like: (Value, Value) -> bool, e: Entity, q: ListQuery, stored: seq<Entry>)
    returns (rows: seq<GoRow>, total: nat)
    ensures rows == ReadAll(e, Page(FullList(p, like, e, Members(q.filters), q.sorts, stored), q.limit, q.offset))
    ensures total == |FullList(p, like, e, Members(q.filters), q.sorts, stored)|
  {
    hide ReadRow, Page, Selected, Ordered, OrderTerms, Clauses;
    var clauses := BuildWhere(e, q.filters);
    var matches := Selected(p, like, e, Members(clauses), stored);
    total := |matches|;
    var terms := BuildOrderBy(e, q.sorts);
    var found := Page(Ordered(terms, matches), q.limit, q.offset);
    SameSize(terms, matches);
    rows := [];
    for i := 0 to |found|
      invariant rows == ReadAll(e, found)[..i]
    {
      var row := ScanRow(e, found[i].id, found[i].row);
      rows := rows + [row];
    }
  }

  lemma SameSize(terms: seq<Term>, xs: seq<Entry>)
    ensures |Ordered(terms, xs)| == |xs|
  {
    OrderedIsSorted(terms, xs);
    assert |multiset(Ordered(terms, xs))| == |multiset(xs)|;
  }

  /** The rows of a table in some physical order. */
  predicate Lists(stored: seq<Entry>, rows: map<string, Row>) {
    && (forall i, j | 0 <= i < j < |stored| :: stored[i].id != stored[j].id)
    && (forall x | x in stored :: x.id in rows && rows[x.id] == x.row)
    && (forall id | id in rows :: Entry(id, rows[id]) in stored)
  }

  lemma {:induction false} SelectedMembers(p: Platform, like: (Value, Value) -> bool, e: Entity, clauses: set<Clause>, stored: seq<Entry>)
    ensures forall x :: multiset(Selected(p, like, e, clauses, stored))[x]
                        == if AllSatisfied(p, like, e, clauses, x) then multiset(stored)[x] else 0
  {
    hide AllSatisfied;
    if stored != [] {
      SelectedMembers(p, like, e, clauses, stored[..|stored| - 1]);
      assert stored == stored[..|stored| - 1] + [stored[|stored| - 1]];
    }
  }

  lemma {:induction false} ListedOnce(stored: seq<Entry>, x: Entry)
    requires forall i, j | 0 <= i < j < |stored| :: stored[i].id != stored[j].id
    ensures multiset(stored)[x] == if x in stored then 1 else 0
  {
    if stored != [] {
      var rest, last := stored[..|stored| - 1], stored[|stored| - 1];
      ListedOnce(rest, x);
      assert stored == rest + [last];
    }
  }

  lemma SameRowsSameMultiset(a: seq<Entry>, b: seq<Entry>, rows: map<string, Row>)
    requires Lists(a, rows) && Lists(b, rows)
    ensures multiset(a) == multiset(b)
  {
    forall x ensures multiset(a)[x] == multiset(b)[x] {
      ListedOnce(a, x);
      ListedOnce(b, x);
    }
  }

  lemma SelectedDistinct(p: Platform, like: (Value, Value) -> bool, e: Entity, clauses: set<Clause>, stored: seq<Entry>, rows: map<string, Row>)
    requires Lists(stored, rows)
    ensures forall x | x in Selected(p, like, e, clauses, stored) :: x in stored
    ensures forall x, y | x in stored && y in stored && x.id == y.id :: x == y
  {
    hide AllSatisfied;
    SelectedMembers(p, like, e, clauses, stored);
    forall x | x in Selected(p, like, e, clauses, stored) ensures x in stored {
      assert x in multiset(Selected(p, like, e, clauses, stored));
      assert x in multiset(stored);
    }
  }

  /** List output does not depend on the physical order of the rows. */
  lemma ListIgnoresPhysicalOrder(p: Platform, like: (Value, Value) -> bool, e: Entity, filters: set<Filter>, sorts: seq<Sort>,
                                 a: seq<Entry>, b: seq<Entry>, rows: map<string, Row>)
    requires Lists(a, rows) && Lists(b, rows)
    ensures FullList(p, like, e, filters, sorts, a) == FullList(p, like, e, filters, sorts, b)
  {
    hide RowLe, AllSatisfied, Selected, Ordered, Lists;
    var terms, clauses := OrderTerms(e, sorts), Clauses(e, filters);
    var s, t := Selected(p, like, e, clauses, a), Selected(p, like, e, clauses, b);
    SameRowsSameMultiset(a, b, rows);
    SelectedMembers(p, like, e, clauses, a);
    SelectedMembers(p, like, e, clauses, b);
    assert forall x :: multiset(s)[x] == multiset(t)[x];
    assert multiset(s) == multiset(t);
    OrderedIsSorted(terms, s);
    OrderedIsSorted(terms, t);
    SelectedDistinct(p, like, e, clauses, a, rows);
    assert forall x | x in Ordered(terms, s) :: x in multiset(s);
    OneListing(terms, Ordered(terms, s), Ordered(terms, t));
  }

  /** The full list holds exactly the matching rows of the table, each once. */
  lemma FullListIsExact(p: Platform, like: (Value, Value) -> bool, e: Entity, filters: set<Filter>, sorts: seq<Sort>, stored: seq<Entry>, rows: map<string, Row>)
    requires Lists(stored, rows)
    ensures forall x :: multiset(FullList(p, like, e, filters, sorts, stored))[x] ==
              if x.id in rows && rows[x.id] == x.row && AllSatisfied(p, like, e, Clauses(e, filters), x) then 1 else 0
  {
    hide AllSatisfied, Selected, Ordered;
    SelectedMembers(p, like, e, Clauses(e, filters), stored);
    OrderedIsSorted(OrderTerms(e, sorts), Selected(p, like, e, Clauses(e, filters), stored));
    forall x ensures multiset(stored)[x] == if x.id in rows && rows[x.id] == x.row then 1 else 0 {
      ListedOnce(stored, x);
      assert x.id in rows && rows[x.id] == x.row ==> x == Entry(x.id, rows[x.id]);
    }
  }

  /**
   * Consecutive pages of any positive size, taken while the rows stay the same but their physical
   * order may change from page to page, concatenate to the full filtered list: no gap, no repeat.
   */
  lemma PagesCoverTheList(p: Platform, like: (Value, Value) -> bool, e: Entity, filters: set<Filter>, sorts: seq<Sort>,
                          stored: seq<seq<Entry>>, rows: map<string, Row>, limit: nat)
    requires stored != [] && limit > 0 && forall s | s in stored :: Lists(s, rows)
    requires |stored| * limit >= |FullList(p, like, e, filters, sorts, stored[0])|
    ensures PagesOf(p, like, e, filters, sorts, stored, limit) == FullList(p, like, e, filters, sorts, stored[0])
  {
    hide FullList;
    var full := FullList(p, like, e, filters, sorts, stored[0]);
    PagesOfOneList(p, like, e, filters, sorts, stored, rows, limit, full);
    PagesArePrefix(full, limit, |stored|);
  }

  /** One page per listing of the table, at consecutive offsets. */
  function PagesOf(p: Platform, like: (Value, Value) -> bool, e: Entity, filters: set<Filter>, sorts: seq<Sort>, stored: seq<seq<Entry>>, limit: nat): seq<Entry> {
    if stored == [] then []
    else
      var n := |stored| - 1;
      PagesOf(p, like, e, filters, sorts, stored[..n], limit) + Page(FullList(p, like, e, filters, sorts, stored[n]), limit, n * limit)
  }

  lemma {:induction false} PagesOfOneList(p: Platform, like: (Value, Value) -> bool, e: Entity, filters: set<Filter>, sorts: seq<Sort>,
                                          stored: seq<seq<Entry>>, rows: map<string, Row>, limit: nat, full: seq<Entry>)
    requires forall s | s in stored :: Lists(s, rows)
    requires exists s :: Lists(s, rows) && FullList(p, like, e, filters, sorts, s) == full
    ensures PagesOf(p, like, e, filters, sorts, stored, limit) == Pages(full, limit, |stored|)
  {
    hide FullList, Page, Lists;
    if stored != [] {
      var n := |stored| - 1;
      PagesOfOneList(p, like, e, filters, sorts, stored[..n], rows, limit, full);
      var s :| Lists(s, rows) && FullList(p, like, e, filters, sorts, s) == full;
      assert stored[n] in stored;
      ListIgnoresPhysicalOrder(p, like, e, filters, sorts, s, stored[n], rows);
    }
  }
}

/** String order, sorting by a string key, and unique decomposition of delimited text. */
module Strings {

  // ----- order -----

  /** Go's `<=` on strings. */
  predicate Le(a: string, b: string) {
    a == [] || (b != [] && (a[0] < b[0] || (a[0] == b[0] && Le(a[1..], b[1..]))))
  }

  lemma {:induction false} LeTotal(a: string, b: string)
    ensures Le(a, b) || Le(b, a)
  {
    if a != [] && b != [] && a[0] == b[0] {
      LeTotal(a[1..], b[1..]);
    }
  }

  lemma {:induction false} LeAntisymmetric(a: string, b: string)
    requires Le(a, b) && Le(b, a)
    ensures a == b
  {
    if a != [] && b != [] {
      LeAntisymmetric(a[1..], b[1..]);
      assert a == [a[0]] + a[1..] && b == [b[0]] + b[1..];
    }
  }

  lemma {:induction false} LeTransitive(a: string, b: string, c: string)
    requires Le(a, b) && Le(b, c)
    ensures Le(a, c)
  {
    if a != [] && a[0] == b[0] && b[0] == c[0] {
      LeTransitive(a[1..], b[1..], c[1..]);
    }
  }

  predicate Sorted(xs: seq<string>) {
    forall i, j | 0 <= i < j < |xs| :: Le(xs[i], xs[j])
  }

  // ----- sorting -----

  function Keys<T>(xs: seq<T>, key: T -> string): seq<string> {
    seq(|xs|, i requires 0 <= i < |xs| => key(xs[i]))
  }

  function Insert<T>(x: T, xs: seq<T>, key: T -> string): seq<T> {
    if xs == [] || Le(key(x), key(xs[0])) then [x] + xs else [xs[0]] + Insert(x, xs[1..], key)
  }

  /** sort.Slice by key: some sorted permutation (the key decides it, by SortedListsAgree). */
  function SortBy<T>(xs: seq<T>, key: T -> string): seq<T> {
    if xs == [] then [] else Insert(xs[0], SortBy(xs[1..], key), key)
  }

  lemma SortedKeys<T>(xs: seq<T>, key: T -> string)
    ensures Sorted(Keys(xs, key)) <==> forall i, j | 0 <= i < j < |xs| :: Le(key(xs[i]), key(xs[j]))
  {
    if Sorted(Keys(xs, key)) {
      forall i, j | 0 <= i < j < |xs| ensures Le(key(xs[i]), key(xs[j])) {
        assert Le(Keys(xs, key)[i], Keys(xs, key)[j]);
      }
    }
  }

  /** A sorted list stays sorted behind an item no greater than any of its own. */
  lemma SortedBehind<T>(x: T, xs: seq<T>, key: T -> string)
    requires Sorted(Keys(xs, key)) && forall y | y in xs :: Le(key(x), key(y))
    ensures Sorted(Keys([x] + xs, key))
  {
    hide Sorted;
    SortedKeys(xs, key);
    SortedKeys([x] + xs, key);
  }

  lemma SortedTail<T>(xs: seq<T>, key: T -> string)
    requires Sorted(Keys(xs, key)) && xs != []
    ensures Sorted(Keys(xs[1..], key)) && forall y | y in xs :: Le(key(xs[0]), key(y))
  {
    hide Sorted;
    SortedKeys(xs, key);
    SortedKeys(xs[1..], key);
    LeTotal(key(xs[0]), key(xs[0]));
  }

  lemma {:induction false} InsertSorts<T>(x: T, xs: seq<T>, key: T -> string)
    requires Sorted(Keys(xs, key))
    ensures multiset(Insert(x, xs, key)) == multiset(xs) + multiset{x}
    ensures Sorted(Keys(Insert(x, xs, key), key))
  {
    hide Sorted, Le;
    if xs == [] {
      SortedBehind(x, xs, key);
    } else if Le(key(x), key(xs[0])) {
      SortedTail(xs, key);
      forall y | y in xs ensures Le(key(x), key(y)) {
        LeTransitive(key(x), key(xs[0]), key(y));
      }
      SortedBehind(x, xs, key);
    } else {
      LeTotal(key(x), key(xs[0]));
      SortedTail(xs, key);
      var rest := Insert(x, xs[1..], key);
      InsertSorts(x, xs[1..], key);
      assert xs == [xs[0]] + xs[1..];
      forall y | y in rest ensures Le(key(xs[0]), key(y)) {
        assert y in multiset(rest);
        assert y == x || y in multiset(xs[1..]);
      }
      SortedBehind(xs[0], rest, key);
    }
  }

  lemma {:induction false} SortBySorts<T>(xs: seq<T>, key: T -> string)
    ensures multiset(SortBy(xs, key)) == multiset(xs)
    ensures Sorted(Keys(SortBy(xs, key), key))
  {
    if xs != [] {
      SortBySorts(xs[1..], key);
      InsertSorts(xs[0], SortBy(xs[1..], key), key);
      assert xs == [xs[0]] + xs[1..];
    }
  }

  lemma SameHead(a: seq<string>, b: seq<string>)
    requires Sorted(a) && Sorted(b) && multiset(a) == multiset(b) && a != []
    ensures b != [] && a[0] == b[0]
  {
    hide Le;
    assert a[0] in multiset(b) && b != [];
    assert b[0] in multiset(a);
    var i :| 0 <= i < |b| && b[i] == a[0];
    var j :| 0 <= j < |a| && a[j] == b[0];
    if i > 0 && j > 0 {
      LeAntisymmetric(a[0], b[0]);
    }
  }

  lemma SameTails<T>(a: seq<T>, b: seq<T>)
    requires a != [] && b != [] && a[0] == b[0] && multiset(a) == multiset(b)
    ensures multiset(a[1..]) == multiset(b[1..])
  {
    assert a == [a[0]] + a[1..] && b == [b[0]] + b[1..];
    assert multiset(a[1..]) == multiset(a) - multiset{a[0]};
    assert multiset(b[1..]) == multiset(b) - multiset{b[0]};
  }

  /** A multiset of strings has one sorted listing. */
  lemma {:induction false} SortedListsAgree(a: seq<string>, b: seq<string>)
    requires Sorted(a) && Sorted(b) && multiset(a) == multiset(b)
    ensures a == b
  {
    hide Le;
    if a == [] {
      assert |multiset(b)| == 0;
    } else {
      SameHead(a, b);
      SameTails(a, b);
      SortedListsAgree(a[1..], b[1..]);
      assert a == [a[0]] + a[1..] && b == [b[0]] + b[1..];
    }
  }

  predicate Distinct(xs: seq<string>) {
    forall i, j | 0 <= i < j < |xs| :: xs[i] != xs[j]
  }

  /** A set of strings has one sorted, repetition-free listing. */
  lemma {:induction false} SortedSetsAgree(a: seq<string>, b: seq<string>)
    requires Sorted(a) && Sorted(b) && Distinct(a) && Distinct(b)
    requires forall x :: x in a <==> x in b
    ensures a == b
  {
    forall x ensures multiset(a)[x] == multiset(b)[x] {
      DistinctCounts(a, x);
      DistinctCounts(b, x);
    }
    SortedListsAgree(a, b);
  }

  lemma {:induction false} DistinctCounts(xs: seq<string>, x: string)
    requires Distinct(xs)
    ensures multiset(xs)[x] == if x in xs then 1 else 0
  {
    if xs != [] {
      DistinctCounts(xs[1..], x);
      assert xs == [xs[0]] + xs[1..];
    }
  }

  // ----- delimited text -----

  lemma DelimiterNotAfter(a: string, b: string, sep: char, x: string, y: string)
    requires a + [sep] + x == b + [sep] + y
    requires sep !in b
    ensures |b| <= |a|
  {
    assert (a + [sep] + x)[|a|] == sep;
    assert forall k | 0 <= k < |b| :: (b + [sep] + y)[k] == b[k];
  }

  /** Text up to a delimiter that does not occur in it is determined by the whole. */
  lemma SplitsAlike(a: string, b: string, sep: char, x: string, y: string)
    requires a + [sep] + x == b + [sep] + y
    requires sep !in a && sep !in b
    ensures a == b && x == y
  {
    DelimiterNotAfter(a, b, sep, x, y);
    DelimiterNotAfter(b, a, sep, y, x);
    var s, t := a + [sep] + x, b + [sep] + y;
    assert a == s[..|a|] && b == t[..|b|];
    assert x == s[|a| + 1..] && y == t[|b| + 1..];
  }

  function Unlines(lines: seq<string>): string {
    if lines == [] then "" else lines[0] + ['\n'] + Unlines(lines[1..])
  }

  predicate NewlineFree(lines: seq<string>) {
    forall l | l in lines :: '\n' !in l
  }

  lemma {:induction false} UnlinesAppend(a: seq<string>, b: seq<string>)
    ensures Unlines(a + b) == Unlines(a) + Unlines(b)
  {
    if a == [] {
      assert a + b == b;
    } else {
      assert (a + b)[1..] == a[1..] + b;
      UnlinesAppend(a[1..], b);
      assert Unlines(a + b) == a[0] + ['\n'] + (Unlines(a[1..]) + Unlines(b));
    }
  }

  /** A text of newline-terminated lines determines its lines. */
  lemma {:induction false} UnlinesInjective(a: seq<string>, b: seq<string>)
    requires Unlines(a) == Unlines(b) && NewlineFree(a) && NewlineFree(b)
    ensures a == b
  {
    assert a != [] ==> |Unlines(a)| > 0;
    assert b != [] ==> |Unlines(b)| > 0;
    if a != [] {
      SplitsAlike(a[0], b[0], '\n', Unlines(a[1..]), Unlines(b[1..]));
      UnlinesInjective(a[1..], b[1..]);
      assert a == [a[0]] + a[1..] && b == [b[0]] + b[1..];
    }
  }

  function Join(xs: seq<string>, sep: char): string {
    if xs == [] then "" else if |xs| == 1 then xs[0] else xs[0] + [sep] + Join(xs[1..], sep)
  }

  /** Joining is injective on non-empty lists whose items do not contain the separator. */
  lemma {:induction false} JoinInjective(a: seq<string>, b: seq<string>, sep: char)
    requires a != [] && b != [] && Join(a, sep) == Join(b, sep)
    requires forall x | x in a :: sep !in x
    requires forall x | x in b :: sep !in x
    ensures a == b
  {
    JoinedLong(a, sep);
    JoinedLong(b, sep);
    if |a| > 1 {
      SplitsAlike(a[0], b[0], sep, Join(a[1..], sep), Join(b[1..], sep));
      JoinInjective(a[1..], b[1..], sep);
      assert a == [a[0]] + a[1..] && b == [b[0]] + b[1..];
    }
  }

  /** The separator occurs in a joined list exactly when the list has several items. */
  lemma JoinedLong(a: seq<string>, sep: char)
    requires a != [] && forall x | x in a :: sep !in x
    ensures sep in Join(a, sep) <==> |a| > 1
  {
    if |a| > 1 {
      assert Join(a, sep)[|a[0]|] == sep;
    }
  }

  lemma {:induction false} JoinHasNo(xs: seq<string>, sep: char, c: char)
    requires c != sep && forall x | x in xs :: c !in x
    ensures c !in Join(xs, sep)
  {
    if |xs| > 1 {
      JoinHasNo(xs[1..], sep, c);
    }
  }
}

/** The canonical text decides the schema: it can be read back line by line. */
module FingerprintText {
  import opened Results
  import opened Schema
  import opened Strings
  import opened Fingerprints

  // ----- what the text is assumed to be made of -----

  function BoundsOf(f: Field): set<real> {
    (if f.min.Some? then {f.min.value} else {}) + (if f.max.Some? then {f.max.value} else {})
  }

  function AllBounds(entities: seq<Entity>): set<real> {
    set e, f, x | e in entities && f in e.fields && x in BoundsOf(f) :: x
  }

  /** These numbers print as distinct texts without blanks or newlines. */
  predicate Prints(num: real -> string, bounds: set<real>) {
    && (forall x | x in bounds :: ' ' !in num(x) && '\n' !in num(x))
    && (forall x, y | x in bounds && y in bounds && num(x) == num(y) :: x == y)
  }

  /** The field is valid and its enum values contain no newline. */
  predicate OneLine(f: Field) {
    && IsIdentifier(f.id) && (f.typ.Reference? ==> IsIdentifier(f.target))
    && (f.min.Some? || f.max.Some? ==> f.typ.Text? || f.typ.Integer? || f.typ.Real?)
    && (f.typ.Enum? ==> f.values != [] && forall v | v in f.values :: '\n' !in v)
  }

  function JoinedValues(f: Field): string {
    Join(SortedStrings(f.values), ',')
  }

  /** The two fields have the same line, as far as it goes beyond the id. */
  predicate SameLine(f: Field, g: Field) {
    && f.typ == g.typ && f.required == g.required && f.unique == g.unique && f.min == g.min && f.max == g.max
    && (f.typ.Enum? ==> JoinedValues(f) == JoinedValues(g))
    && (f.typ.Reference? ==> f.target == g.target && f.onDelete == g.onDelete)
  }

  // ----- one line -----

  lemma CommonPrefix(prefix: string, x: string, y: string)
    requires prefix + x == prefix + y
    ensures x == y
  {
    assert x == (prefix + x)[|prefix|..];
    assert y == (prefix + y)[|prefix|..];
  }

  lemma IdentifiersArePlain(s: string)
    requires IsIdentifier(s)
    ensures ' ' !in s && '\n' !in s
  {
  }

  function AfterUnique(num: real -> string, f: Field): string {
    BoundsText(num, f) + DetailText(f)
  }

  function AfterRequired(num: real -> string, f: Field): string {
    "unique=" + (BoolText(f.unique) + AfterUnique(num, f))
  }

  function AfterType(num: real -> string, f: Field): string {
    "required=" + (BoolText(f.required) + [' '] + AfterRequired(num, f))
  }

  function AfterId(num: real -> string, f: Field): string {
    "type=" + (TypeText(f.typ) + [' '] + AfterType(num, f))
  }

  lemma Assoc3(a: string, b: string, c: string)
    ensures (a + b) + c == a + (b + c)
  {
  }

  /** Moving a blank-led label out of a left-nested text. */
  lemma Regroup(head: string, tag: string, tail: string, rest: string, text: string)
    requires text == head + ([' '] + tag) + tail + rest
    ensures text == head + ([' '] + (tag + (tail + rest)))
  {
  }

  lemma LineShape(num: real -> string, f: Field)
    ensures FieldLine(num, f) == "  field " + (f.id + [' '] + AfterId(num, f))
  {
    hide BoundsText, DetailText, TypeText, BoolText;
    var u := AfterUnique(num, f);
    var head1 := "  field " + f.id;
    var head2 := head1 + " type=" + TypeText(f.typ);
    var head3 := head2 + " required=" + BoolText(f.required);
    Assoc3(head3 + " unique=" + BoolText(f.unique), BoundsText(num, f), DetailText(f));
    var text := FieldLine(num, f);
    assert text == head3 + " unique=" + BoolText(f.unique) + u;
    Labels();
    Regroup(head3, "unique=", BoolText(f.unique), u, text);
    Regroup(head2, "required=", BoolText(f.required), [' '] + AfterRequired(num, f), text);
    Assoc3(BoolText(f.required), [' '], AfterRequired(num, f));
    Regroup(head1, "type=", TypeText(f.typ), [' '] + AfterType(num, f), text);
    Assoc3(TypeText(f.typ), [' '], AfterType(num, f));
    Assoc3("  field ", f.id, [' '] + AfterId(num, f));
    Assoc3(f.id, [' '], AfterId(num, f));
  }

  lemma Labels()
    ensures " unique=" == [' '] + "unique="
    ensures " required=" == [' '] + "required="
    ensures " type=" == [' '] + "type="
  {
  }

  lemma BoolTextSplits(a: bool, b: bool, x: string, y: string)
    requires BoolText(a) + x == BoolText(b) + y
    ensures a == b && x == y
  {
    assert (BoolText(a) + x)[0] == if a then 't' else 'f';
    assert (BoolText(b) + y)[0] == if b then 't' else 'f';
    CommonPrefix(BoolText(a), x, y);
  }

  lemma TypeTextInjective(a: FieldType, b: FieldType)
    requires TypeText(a) == TypeText(b)
    ensures a == b
    ensures ' ' !in TypeText(a)
  {
    assert TypeText(a)[0] == TypeText(b)[0];
    assert TypeText(a)[2] == TypeText(b)[2];
    assert |TypeText(a)| == |TypeText(b)|;
  }

  lemma TypeTextIsPlain(t: FieldType)
    ensures ' ' !in TypeText(t) && '\n' !in TypeText(t)
  {
  }

  lemma BoolTextIsPlain(b: bool)
    ensures ' ' !in BoolText(b) && '\n' !in BoolText(b)
  {
  }

  /** A number up to the end of the text or the next blank. */
  lemma NumberEnds(a: string, b: string, x: string, y: string)
    requires a + x == b + y && ' ' !in a && ' ' !in b
    requires x == "" || x[0] == ' '
    requires y == "" || y[0] == ' '
    ensures a == b && x == y
  {
    if x == "" && y == "" {
      assert a + x == a && b + y == b;
    } else {
      EndsNoLater(a, b, x, y);
      EndsNoLater(b, a, y, x);
      assert a == (a + x)[..|a|] && b == (b + y)[..|b|];
      CommonPrefix(a, x, y);
    }
  }

  lemma EndsNoLater(a: string, b: string, x: string, y: string)
    requires a + x == b + y && ' ' !in b && (x == "" || x[0] == ' ')
    ensures |b| <= |a|
  {
    assert x != "" ==> (a + x)[|a|] == ' ';
    assert forall k | 0 <= k < |b| :: (b + y)[k] == b[k];
  }

  lemma PrintedNumber(num: real -> string, bounds: set<real>, x: real, y: real)
    requires Prints(num, bounds) && x in bounds && y in bounds
    ensures ' ' !in num(x) && '\n' !in num(x)
    ensures num(x) == num(y) ==> x == y
  {
  }

  lemma MaxTextInjective(num: real -> string, f: Field, g: Field)
    requires Prints(num, BoundsOf(f) + BoundsOf(g))
    requires BoundText(num, " max=", f.max) == BoundText(num, " max=", g.max)
    ensures f.max == g.max
  {
    assert f.max.Some? ==> |BoundText(num, " max=", f.max)| >= 5;
    assert g.max.Some? ==> |BoundText(num, " max=", g.max)| >= 5;
    if f.max.Some? {
      CommonPrefix(" max=", num(f.max.value), num(g.max.value));
      PrintedNumber(num, BoundsOf(f) + BoundsOf(g), f.max.value, g.max.value);
    }
  }

  lemma BoundsHead(num: real -> string, f: Field)
    ensures f.min.Some? ==> |BoundsText(num, f)| > 2 && BoundsText(num, f)[2] == 'i'
    ensures f.min.None? && f.max.Some? ==> |BoundsText(num, f)| > 2 && BoundsText(num, f)[2] == 'a'
    ensures f.min.None? && f.max.None? ==> BoundsText(num, f) == ""
  {
    assert " min="[2] == 'i' && " max="[2] == 'a';
  }

  lemma MinPresence(num: real -> string, f: Field, g: Field)
    requires BoundsText(num, f) == BoundsText(num, g)
    ensures f.min.Some? ==> g.min.Some?
  {
    hide BoundsText;
    BoundsHead(num, f);
    BoundsHead(num, g);
    if f.min.Some? {
      assert |BoundsText(num, g)| > 2 && BoundsText(num, g)[2] == 'i';
    }
  }

  lemma BoundsTextInjective(num: real -> string, f: Field, g: Field)
    requires Prints(num, BoundsOf(f) + BoundsOf(g)) && BoundsText(num, f) == BoundsText(num, g)
    ensures f.min == g.min && f.max == g.max
  {
    MinPresence(num, f, g);
    MinPresence(num, g, f);
    var x, y := BoundText(num, " max=", f.max), BoundText(num, " max=", g.max);
    assert f.max.Some? ==> x[0] == ' ';
    assert g.max.Some? ==> y[0] == ' ';
    if f.min.Some? {
      var a, b := num(f.min.value), num(g.min.value);
      Assoc3(" min=", a, x);
      Assoc3(" min=", b, y);
      CommonPrefix(" min=", a + x, b + y);
      PrintedNumber(num, BoundsOf(f) + BoundsOf(g), f.min.value, g.min.value);
      PrintedNumber(num, BoundsOf(f) + BoundsOf(g), g.min.value, f.min.value);
      NumberEnds(a, b, x, y);
    } else {
      assert BoundsText(num, f) == x && BoundsText(num, g) == y;
    }
    MaxTextInjective(num, f, g);
  }

  lemma OnDeleteTextInjective(a: OnDelete, b: OnDelete)
    requires OnDeleteText(a) == OnDeleteText(b)
    ensures a == b
  {
    assert OnDeleteText(a)[0] == OnDeleteText(b)[0];
  }

  lemma ReferenceTextInjective(f: Field, g: Field)
    requires f.typ.Reference? && g.typ.Reference? && IsIdentifier(f.target) && IsIdentifier(g.target)
    requires DetailText(f) == DetailText(g)
    ensures f.target == g.target && f.onDelete == g.onDelete
  {
    hide OnDeleteText;
    var x, y := "onDelete=" + OnDeleteText(f.onDelete), "onDelete=" + OnDeleteText(g.onDelete);
    assert DetailText(f) == " target=" + (f.target + [' '] + x) by {
      assert " onDelete=" == [' '] + "onDelete=";
    }
    assert DetailText(g) == " target=" + (g.target + [' '] + y) by {
      assert " onDelete=" == [' '] + "onDelete=";
    }
    CommonPrefix(" target=", f.target + [' '] + x, g.target + [' '] + y);
    IdentifiersArePlain(f.target);
    IdentifiersArePlain(g.target);
    SplitsAlike(f.target, g.target, ' ', x, y);
    CommonPrefix("onDelete=", OnDeleteText(f.onDelete), OnDeleteText(g.onDelete));
    OnDeleteTextInjective(f.onDelete, g.onDelete);
  }

  lemma NoBoundsText(num: real -> string, f: Field)
    requires f.min.None? && f.max.None?
    ensures AfterUnique(num, f) == DetailText(f)
  {
    assert "" + DetailText(f) == DetailText(f);
  }

  lemma DetailInjective(num: real -> string, f: Field, g: Field)
    requires OneLine(f) && OneLine(g) && f.typ == g.typ && Prints(num, BoundsOf(f) + BoundsOf(g))
    requires AfterUnique(num, f) == AfterUnique(num, g)
    ensures f.min == g.min && f.max == g.max
    ensures f.typ.Enum? ==> JoinedValues(f) == JoinedValues(g)
    ensures f.typ.Reference? ==> f.target == g.target && f.onDelete == g.onDelete
  {
    hide BoundsText, SortedStrings, OnDeleteText;
    if f.typ.Text? || f.typ.Integer? || f.typ.Real? {
      assert BoundsText(num, f) + "" == BoundsText(num, f);
      assert BoundsText(num, g) + "" == BoundsText(num, g);
      BoundsTextInjective(num, f, g);
    } else {
      NoBoundsText(num, f);
      NoBoundsText(num, g);
      if f.typ.Enum? {
        CommonPrefix(" values=", JoinedValues(f), JoinedValues(g));
      } else if f.typ.Reference? {
        ReferenceTextInjective(f, g);
      }
    }
  }

  /** A field's line determines the field's id and everything the line is about. */
  lemma FieldLineInjective(num: real -> string, f: Field, g: Field)
    requires OneLine(f) && OneLine(g) && Prints(num, BoundsOf(f) + BoundsOf(g))
    requires FieldLine(num, f) == FieldLine(num, g)
    ensures f.id == g.id && SameLine(f, g)
  {
    hide FieldLine, AfterUnique, TypeText, BoolText, JoinedValues, Prints;
    LineShape(num, f);
    LineShape(num, g);
    IdentifiersArePlain(f.id);
    IdentifiersArePlain(g.id);
    CommonPrefix("  field ", f.id + [' '] + AfterId(num, f), g.id + [' '] + AfterId(num, g));
    SplitsAlike(f.id, g.id, ' ', AfterId(num, f), AfterId(num, g));
    CommonPrefix("type=", TypeText(f.typ) + [' '] + AfterType(num, f), TypeText(g.typ) + [' '] + AfterType(num, g));
    TypeTextIsPlain(f.typ);
    TypeTextIsPlain(g.typ);
    SplitsAlike(TypeText(f.typ), TypeText(g.typ), ' ', AfterType(num, f), AfterType(num, g));
    TypeTextInjective(f.typ, g.typ);
    CommonPrefix("required=", BoolText(f.required) + [' '] + AfterRequired(num, f), BoolText(g.required) + [' '] + AfterRequired(num, g));
    Assoc3(BoolText(f.required), [' '], AfterRequired(num, f));
    Assoc3(BoolText(g.required), [' '], AfterRequired(num, g));
    BoolTextSplits(f.required, g.required, [' '] + AfterRequired(num, f), [' '] + AfterRequired(num, g));
    CommonPrefix([' '], AfterRequired(num, f), AfterRequired(num, g));
    CommonPrefix("unique=", BoolText(f.unique) + AfterUnique(num, f), BoolText(g.unique) + AfterUnique(num, g));
    BoolTextSplits(f.unique, g.unique, AfterUnique(num, f), AfterUnique(num, g));
    DetailInjective(num, f, g);
  }

  lemma SameLineSameText(num: real -> string, f: Field, g: Field)
    requires f.id == g.id && SameLine(f, g)
    ensures FieldLine(num, f) == FieldLine(num, g)
  {
    hide SortedStrings, OnDeleteText, TypeText, BoolText;
  }
}

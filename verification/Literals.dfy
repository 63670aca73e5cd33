/**
 * String literals in the SQL the engine writes: enumLiterals of engine/materialize/materialize.go,
 * the string case of sqlLiteral and remapExpr of engine/migrate/witness.go, read back by the
 * quote-doubling rule of section 5.3 of ISO/IEC 9075-2.
 */
module Literals {
  import opened Results

  const QUOTE := '\''

  // ----- writing -----

  /** strings.ReplaceAll(v, "'", "''"). */
  function Doubled(v: string): string {
    if v == "" then "" else (if v[0] == QUOTE then [QUOTE, QUOTE] else [v[0]]) + Doubled(v[1..])
  }

  /** sqlLiteral of a string: the value in quotes, its own quotes doubled. */
  function Quoted(v: string): string {
    [QUOTE] + Doubled(v) + [QUOTE]
  }

  /** The literals of `values`, separated by a comma and a blank. */
  function Literals(values: seq<string>): string {
    if values == [] then ""
    else if |values| == 1 then Quoted(values[0])
    else Quoted(values[0]) + ", " + Literals(values[1..])
  }

  function Arms(arms: seq<(string, string)>): string {
    if arms == [] then ""
    else " WHEN " + Quoted(arms[0].0) + " THEN " + Quoted(arms[0].1) + Arms(arms[1..])
  }

  /** remapExpr, for one order of the map's pairs. */
  function CaseText(col: string, arms: seq<(string, string)>): string {
    "CASE " + col + Arms(arms) + " ELSE " + col + " END"
  }

  lemma {:induction false} LiteralsAppend(values: seq<string>, v: string)
    ensures Literals(values + [v]) == if values == [] then Quoted(v) else Literals(values) + ", " + Quoted(v)
  {
    if |values| == 1 {
      assert (values + [v])[1..] == [v];
    } else if |values| > 1 {
      assert (values + [v])[1..] == values[1..] + [v];
      LiteralsAppend(values[1..], v);
      assert Literals(values + [v]) == Quoted(values[0]) + ", " + (Literals(values[1..]) + ", " + Quoted(v));
    }
  }

  /** enumLiterals. */
  method EnumLiterals(values: seq<string>) returns (text: string)
    ensures text == Literals(values)
  {
    hide Doubled, Literals;
    text := "";
    NoLiterals();
    for i := 0 to |values|
      invariant text == Literals(values[..i])
    {
      assert values[..i + 1] == values[..i] + [values[i]];
      LiteralsAppend(values[..i], values[i]);
      text := if i == 0 then Quoted(values[i]) else text + ", " + Quoted(values[i]);
    }
    assert values[..|values|] == values;
  }

  lemma NoLiterals()
    ensures Literals([]) == ""
  {
  }

  // ----- reading -----

  /** The rest of a literal after its opening quote: its value, and the text after its closing quote. */
  function ReadBody(s: string): Option<(string, string)> {
    if s == "" then None
    else if s[0] != QUOTE then
      match ReadBody(s[1..])
      case None => None
      case Some((v, rest)) => Some(([s[0]] + v, rest))
    else if |s| > 1 && s[1] == QUOTE then
      match ReadBody(s[2..])
      case None => None
      case Some((v, rest)) => Some(([QUOTE] + v, rest))
    else Some(("", s[1..]))
  }

  function ReadLiteral(s: string): Option<(string, string)> {
    if s == "" || s[0] != QUOTE then None else ReadBody(s[1..])
  }

  predicate Begins(s: string, prefix: string) {
    |prefix| <= |s| && s[..|prefix|] == prefix
  }

  /** A list of literals, up to the first text that is neither. */
  function ReadLiterals(s: string): Option<(seq<string>, string)>
    decreases |s|
  {
    match ReadLiteral(s)
    case None => None
    case Some((v, rest)) =>
      if |rest| < |s| && Begins(rest, ", ") then
        match ReadLiterals(rest[2..])
        case None => None
        case Some((more, end)) => Some(([v] + more, end))
      else Some(([v], rest))
  }

  /** The WHEN arms of a CASE. */
  function ReadArms(s: string): Option<(seq<(string, string)>, string)>
    decreases |s|
  {
    if !Begins(s, " WHEN ") then Some(([], s))
    else
      match ReadLiteral(s[6..])
      case None => None
      case Some((from, then_)) =>
        if !Begins(then_, " THEN ") then None
        else
          match ReadLiteral(then_[6..])
          case None => None
          case Some((to, rest)) =>
            if |rest| >= |s| then None
            else
              match ReadArms(rest)
              case None => None
              case Some((more, end)) => Some(([(from, to)] + more, end))
  }

  // ----- reading what was written -----

  /** The text does not go on with another quote. */
  predicate NoQuoteNext(s: string) {
    s == "" || s[0] != QUOTE
  }

  lemma {:induction false} BodyReadsBack(v: string, rest: string)
    requires NoQuoteNext(rest)
    ensures ReadBody(Doubled(v) + [QUOTE] + rest) == Some((v, rest))
  {
    var s := Doubled(v) + [QUOTE] + rest;
    if v == "" {
      assert s[1..] == rest;
    } else {
      BodyReadsBack(v[1..], rest);
      var tail := Doubled(v[1..]) + [QUOTE] + rest;
      assert v == [v[0]] + v[1..];
      if v[0] == QUOTE {
        assert s == [QUOTE, QUOTE] + tail;
        assert s[2..] == tail;
      } else {
        assert s == [v[0]] + tail;
        assert s[1..] == tail;
      }
    }
  }

  /** Whatever characters a string holds, its literal reads back as that string and ends where it was ended. */
  lemma LiteralReadsBack(v: string, rest: string)
    requires NoQuoteNext(rest)
    ensures ReadLiteral(Quoted(v) + rest) == Some((v, rest))
  {
    BodyReadsBack(v, rest);
    assert (Quoted(v) + rest)[1..] == Doubled(v) + [QUOTE] + rest;
  }

  /** The allowed values of an enum read back from its CHECK exactly as declared, in order. */
  lemma {:induction false} EnumLiteralsReadBack(values: seq<string>, rest: string)
    requires values != [] && NoQuoteNext(rest) && !Begins(rest, ", ")
    ensures ReadLiterals(Literals(values) + rest) == Some((values, rest))
  {
    hide ReadLiteral, Quoted;
    var s := Literals(values) + rest;
    if |values| == 1 {
      LiteralReadsBack(values[0], rest);
      assert values == [values[0]];
    } else {
      var after := ", " + (Literals(values[1..]) + rest);
      assert s == Quoted(values[0]) + after;
      LiteralReadsBack(values[0], after);
      assert after[2..] == Literals(values[1..]) + rest;
      EnumLiteralsReadBack(values[1..], rest);
      assert |after| < |s| by {
        QuotedIsLong(values[0]);
      }
      assert Begins(after, ", ");
      assert values == [values[0]] + values[1..];
    }
  }

  lemma QuotedIsLong(v: string)
    ensures |Quoted(v)| >= 2
  {
  }

  /** The pairs of a remap read back from its CASE expression exactly as declared. */
  lemma {:induction false} ArmsReadBack(arms: seq<(string, string)>, rest: string)
    requires NoQuoteNext(rest) && !Begins(rest, " WHEN ")
    ensures ReadArms(Arms(arms) + rest) == Some((arms, rest))
  {
    hide ReadLiteral, Quoted;
    var s := Arms(arms) + rest;
    if arms == [] {
      assert s == rest;
    } else {
      var (from, to) := arms[0];
      var tail := Arms(arms[1..]) + rest;
      var then_ := " THEN " + (Quoted(to) + tail);
      assert s == " WHEN " + (Quoted(from) + then_);
      assert s[..6] == " WHEN " && s[6..] == Quoted(from) + then_;
      LiteralReadsBack(from, then_);
      assert then_[..6] == " THEN " && then_[6..] == Quoted(to) + tail;
      ArmsHaveNoQuoteNext(arms[1..], rest);
      LiteralReadsBack(to, tail);
      ArmsReadBack(arms[1..], rest);
      assert arms == [(from, to)] + arms[1..];
    }
  }

  lemma ArmsHaveNoQuoteNext(arms: seq<(string, string)>, rest: string)
    requires NoQuoteNext(rest)
    ensures NoQuoteNext(Arms(arms) + rest)
  {
    hide Quoted;
    if arms != [] {
      var (from, to) := (Quoted(arms[0].0), Quoted(arms[0].1));
      StartsBlank(from + " THEN " + to + Arms(arms[1..]));
      assert Arms(arms) == " WHEN " + from + " THEN " + to + Arms(arms[1..]);
      assert Arms(arms) == " WHEN " + (from + " THEN " + to + Arms(arms[1..]));
    } else {
      assert Arms(arms) + rest == rest;
    }
  }

  lemma StartsBlank(s: string)
    ensures (" WHEN " + s)[0] == ' '
  {
  }

  /** In the CASE expression of remapExpr, between the column and ELSE, stand exactly the declared pairs. */
  lemma CaseReadsBack(col: string, arms: seq<(string, string)>)
    ensures var s, prefix, end := CaseText(col, arms), "CASE " + col, " ELSE " + col + " END";
            && Begins(s, prefix) && ReadArms(s[|prefix|..]) == Some((arms, end))
  {
    var s, prefix, end := CaseText(col, arms), "CASE " + col, " ELSE " + col + " END";
    assert s == prefix + (Arms(arms) + end);
    assert s[..|prefix|] == prefix && s[|prefix|..] == Arms(arms) + end;
    assert end[1] == 'E' && " WHEN "[1] == 'W';
    ArmsReadBack(arms, end);
  }
}

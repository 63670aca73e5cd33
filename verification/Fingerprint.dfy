/**
 * engine/schema/fingerprint.go: the canonical text that is hashed into a manifest's fingerprint.
 * The SHA-256 digest of that text is not modelled: the text itself stands for it.
 */
module Fingerprints {
  import opened Results
  import opened Schema
  import opened Strings

  function TypeText(t: FieldType): string {
    match t
    case Text => "text"
    case Integer => "integer"
    case Real => "real"
    case Boolean => "boolean"
    case Datetime => "datetime"
    case Enum => "enum"
    case Reference => "reference"
  }

  function BoolText(b: bool): string {
    if b then "true" else "false"
  }

  function OnDeleteText(a: OnDelete): string {
    match a
    case SetNull => "set_null"
    case Restrict => "restrict"
    case Cascade => "cascade"
  }

  /** writeNum: nothing for an absent bound. */
  function BoundText(num: real -> string, tag: string, bound: Option<real>): string {
    if bound.None? then "" else tag + num(bound.value)
  }

  function SortedStrings(values: seq<string>): seq<string> {
    SortBy(values, (v: string) => v)
  }

  function SortedFields(fields: seq<Field>): seq<Field> {
    SortBy(fields, (f: Field) => f.id)
  }

  function SortedEntities(entities: seq<Entity>): seq<Entity> {
    SortBy(entities, (e: Entity) => e.id)
  }

  function BoundsText(num: real -> string, f: Field): string {
    BoundText(num, " min=", f.min) + BoundText(num, " max=", f.max)
  }

  function DetailText(f: Field): string {
    if f.typ.Enum? then " values=" + Join(SortedStrings(f.values), ',')
    else if f.typ.Reference? then " target=" + f.target + " onDelete=" + OnDeleteText(f.onDelete)
    else ""
  }

  /** One field's line, without its newline. */
  function FieldLine(num: real -> string, f: Field): string {
    "  field " + f.id + " type=" + TypeText(f.typ) + " required=" + BoolText(f.required)
    + " unique=" + BoolText(f.unique) + BoundsText(num, f) + DetailText(f)
  }

  function FieldLines(num: real -> string, fields: seq<Field>): seq<string> {
    if fields == [] then []
    else FieldLines(num, fields[..|fields| - 1]) + [FieldLine(num, fields[|fields| - 1])]
  }

  function EntityLines(num: real -> string, e: Entity): seq<string> {
    ["entity " + e.id] + FieldLines(num, SortedFields(e.fields))
  }

  function Lines(num: real -> string, entities: seq<Entity>): seq<string> {
    if entities == [] then [] else EntityLines(num, entities[0]) + Lines(num, entities[1..])
  }

  /** The text Fingerprint hashes. */
  function CanonicalText(num: real -> string, app: App): string {
    Unlines(Lines(num, SortedEntities(app.entities)))
  }

  lemma {:induction false} LinesAppend(num: real -> string, entities: seq<Entity>, e: Entity)
    ensures Lines(num, entities + [e]) == Lines(num, entities) + EntityLines(num, e)
  {
    if entities == [] {
    } else {
      assert (entities + [e])[1..] == entities[1..] + [e];
      LinesAppend(num, entities[1..], e);
    }
  }

  lemma UnlinesMore(lines: seq<string>, line: string)
    ensures Unlines(lines + [line]) == Unlines(lines) + line + ['\n']
  {
    UnlinesAppend(lines, [line]);
    assert Unlines([line]) == line + ['\n'] + "";
  }

  method FieldText(num: real -> string, f: Field) returns (line: string)
    ensures line == FieldLine(num, f)
  {
    line := "  field " + f.id + " type=" + TypeText(f.typ) + " required=" + BoolText(f.required)
            + " unique=" + BoolText(f.unique);
    line := line + BoundsText(num, f);
    line := line + DetailText(f);
  }

  method EntityText(num: real -> string, e: Entity) returns (b: string)
    ensures b == Unlines(EntityLines(num, e))
  {
    hide FieldLine;
    var header := "entity " + e.id;
    ghost var lines := [header];
    b := header + ['\n'];
    assert [header][1..] == [];
    var fields := SortedFields(e.fields);
    for i := 0 to |fields|
      invariant lines == [header] + FieldLines(num, fields[..i])
      invariant b == Unlines(lines)
    {
      var line := FieldText(num, fields[i]);
      assert fields[..i + 1][..i] == fields[..i];
      UnlinesMore(lines, line);
      b := b + line + ['\n'];
      lines := lines + [line];
    }
    assert fields[..|fields|] == fields;
  }

  /** The loop of Fingerprint over the sorted entities, writing into a builder. */
  method Fingerprint(num: real -> string, app: App) returns (b: string)
    ensures b == CanonicalText(num, app)
  {
    hide EntityLines;
    var entities := SortedEntities(app.entities);
    b := "";
    for i := 0 to |entities|
      invariant b == Unlines(Lines(num, entities[..i]))
    {
      assert entities[..i + 1] == entities[..i] + [entities[i]];
      LinesAppend(num, entities[..i], entities[i]);
      UnlinesAppend(Lines(num, entities[..i]), EntityLines(num, entities[i]));
      var text := EntityText(num, entities[i]);
      b := b + text;
    }
    assert entities[..|entities|] == entities;
  }
}

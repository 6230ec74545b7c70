/**
 * The code generator of tool/ast_generator.py: from a base class name and
 * definitions of the form `Name: Type field, Type field, ...` it writes the
 * Python source of one dataclass per definition and of the abstract visitor.
 *
 * The three generators build their text with `+=` in loops and are methods;
 * the functions `Members`, `TypeSource` and `AstSource` say what text they
 * build, or that the generator raises `IndexError` on a definition without
 * a `:` or on a member without a name.
 */
module AstGenerator {
  import opened Errors
  import opened PyStr

  /** The fixed start of the generated file, ending with the abstract base class. */
  function Header(base: string): string
  {
    "\"\"\"\nAll classes to represent the abstract syntax tree.\n\n"
    + "Note: this file is generated automatically by tool/ast_generator.py\n\"\"\"\n\n"
    + "from __future__ import annotations\n"
    + "from abc import ABC, abstractmethod\n"
    + "from dataclasses import dataclass\n"
    + "from .lexer import Token\n\n"
    + "class " + base + "(ABC):\n"
    + "    @abstractmethod\n"
    + "    def accept(self, visitor: Visitor):\n"
    + "        pass\n"
    + "    \n"
  }

  /** The generated text, or the first exception raised, with more text put in front. */
  function Prepend(text: string, r: Result<string>): Result<string>
  {
    if r.Ok? then Ok(text + r.value) else r
  }

  /** One stripped member definition `Type name` becomes the field line `    name: Type`. */
  function MemberLine(definition: string): Result<string>
  {
    var words := Split(definition, ' ');
    if |words| < 2 then Err(IndexError)
    else Ok("    " + Strip(words[1]) + ": " + Strip(words[0]) + "\n")
  }

  /** The field lines of the member definitions, each stripped first, in order. */
  function MemberLines(definitions: seq<string>): Result<string>
  {
    if definitions == [] then Ok("")
    else
      match MemberLine(Strip(definitions[0]))
      case Err(e) => Err(e)
      case Ok(line) => Prepend(line, MemberLines(definitions[1..]))
  }

  /** `generate_members`: the comma-separated member definitions as field lines. */
  function Members(members: string): Result<string>
  {
    MemberLines(Split(members, ','))
  }

  /** The class name of a definition: what stands before its first `:`. */
  function ClassName(definition: string): string
  {
    Strip(Split(definition, ':')[0])
  }

  /** `generate_type`: the dataclass for one definition. */
  function TypeSource(base: string, definition: string): Result<string>
  {
    var parts := Split(definition, ':');
    var name := Strip(parts[0]);
    if |parts| < 2 then Err(IndexError)
    else
      match Members(Strip(parts[1]))
      case Err(e) => Err(e)
      case Ok(fields) =>
        Ok("@dataclass\n" + "class " + name + "(" + base + "):\n" + fields
          + "\n    def accept(self, visitor: Visitor):\n"
          + "        return visitor.visit_" + Lower(name) + "_" + Lower(base) + "(self)\n")
  }

  /** The dataclasses of all definitions, each followed by an empty line. */
  function TypesSource(base: string, definitions: seq<string>): Result<string>
  {
    if definitions == [] then Ok("")
    else
      match TypeSource(base, definitions[0])
      case Err(e) => Err(e)
      case Ok(text) => Prepend(text + "\n", TypesSource(base, definitions[1..]))
  }

  /** The signature line of the visit method for class `name`. */
  function VisitSignature(base: string, name: string): string
  {
    "    def visit_" + Lower(name) + "_" + Lower(base) + "(self, " + Lower(base) + ": " + name + "):\n"
  }

  /** The abstract visit method the visitor declares for one definition. */
  function VisitMethod(base: string, definition: string): string
  {
    "    @abstractmethod\n" + VisitSignature(base, ClassName(definition)) + "        pass\n\n"
  }

  /** The visit methods of all definitions, in order. */
  function VisitMethods(base: string, definitions: seq<string>): string
  {
    if definitions == [] then "" else VisitMethod(base, definitions[0]) + VisitMethods(base, definitions[1..])
  }

  /** `generate_ast`: the header, the dataclasses, then the visitor. */
  function AstSource(base: string, definitions: seq<string>): Result<string>
  {
    match TypesSource(base, definitions)
    case Err(e) => Err(e)
    case Ok(types) => Ok(Header(base) + types + "\nclass Visitor(ABC):\n" + VisitMethods(base, definitions))
  }

  /** Putting two texts in front one after the other is putting their concatenation in front. */
  lemma PrependTwice(a: string, b: string, r: Result<string>)
    ensures Prepend(a, Prepend(b, r)) == Prepend(a + b, r)
  {
    if r.Ok? {
      assert a + (b + r.value) == (a + b) + r.value;
    }
  }

  /** Putting nothing in front changes nothing. */
  lemma PrependNothing(r: Result<string>)
    ensures Prepend("", r) == r
  {
    if r.Ok? {
      assert "" + r.value == r.value;
    }
  }

  /** One turn of `generate_members`' loop. */
  lemma MemberLinesStep(definitions: seq<string>, i: nat)
    requires i < |definitions|
    ensures MemberLines(definitions[i..]) ==
      match MemberLine(Strip(definitions[i]))
      case Err(e) => Err(e)
      case Ok(line) => Prepend(line, MemberLines(definitions[i + 1..]))
  {
    assert definitions[i..][0] == definitions[i] && definitions[i..][1..] == definitions[i + 1..];
  }

  /** One turn of `generate_ast`'s first loop. */
  lemma TypesSourceStep(base: string, definitions: seq<string>, i: nat)
    requires i < |definitions|
    ensures TypesSource(base, definitions[i..]) ==
      match TypeSource(base, definitions[i])
      case Err(e) => Err(e)
      case Ok(text) => Prepend(text + "\n", TypesSource(base, definitions[i + 1..]))
  {
    assert definitions[i..][0] == definitions[i] && definitions[i..][1..] == definitions[i + 1..];
  }

  // ----- what the generator guarantees -----

  /** A member definition without a space has no name: `split(" ")[1]` raises `IndexError`. */
  lemma MemberNeedsName(definition: string)
    ensures MemberLine(definition).Err? <==> ' ' !in definition
    ensures MemberLine(definition).Err? ==> MemberLine(definition) == Err(IndexError)
  {
  }

  /** A definition without a `:` has no members: `split(":")[1]` raises `IndexError`. */
  lemma TypeNeedsColon(base: string, definition: string)
    requires ':' !in definition
    ensures TypeSource(base, definition) == Err(IndexError)
  {
  }

  /** Generating the file fails exactly when generating one of its dataclasses fails. */
  lemma {:induction false} AstFailsWithSomeType(base: string, definitions: seq<string>)
    ensures AstSource(base, definitions).Err? <==>
      exists i :: 0 <= i < |definitions| && TypeSource(base, definitions[i]).Err?
  {
    TypesFailWithSomeType(base, definitions);
  }

  lemma {:induction false} TypesFailWithSomeType(base: string, definitions: seq<string>)
    ensures TypesSource(base, definitions).Err? <==>
      exists i :: 0 <= i < |definitions| && TypeSource(base, definitions[i]).Err?
  {
    if definitions != [] {
      TypesFailWithSomeType(base, definitions[1..]);
      if TypeSource(base, definitions[0]).Ok? {
        forall i | 0 < i < |definitions| ensures definitions[i] == definitions[1..][i - 1] {}
        if exists i :: 0 <= i < |definitions| && TypeSource(base, definitions[i]).Err? {
          var i :| 0 <= i < |definitions| && TypeSource(base, definitions[i]).Err?;
          assert TypeSource(base, definitions[1..][i - 1]).Err?;
        }
      }
    }
  }

  /** A word of a definition: not empty, and free of whitespace and of the separators `,` and `:`. */
  predicate Word(s: string)
  {
    s != [] && forall k :: 0 <= k < |s| ==> !IsSpace(s[k]) && s[k] != ',' && s[k] != ':'
  }

  /** A dataclass field: its type and its name. */
  datatype Field = Field(typeName: string, name: string)

  predicate WellFormed(fields: seq<Field>)
  {
    |fields| >= 1 && forall k :: 0 <= k < |fields| ==> Word(fields[k].typeName) && Word(fields[k].name)
  }

  /** How a field is written in a definition: `Type name`. */
  function MemberDefinition(f: Field): string
  {
    f.typeName + " " + f.name
  }

  /** The members part of a definition: the fields, separated by `, `. */
  function MemberList(fields: seq<Field>): string
    requires |fields| >= 1
  {
    if |fields| == 1 then MemberDefinition(fields[0])
    else MemberDefinition(fields[0]) + ", " + MemberList(fields[1..])
  }

  /** The dataclass field lines `    name: Type`, in order. */
  function FieldLines(fields: seq<Field>): string
  {
    if fields == [] then "" else "    " + fields[0].name + ": " + fields[0].typeName + "\n" + FieldLines(fields[1..])
  }

  /** `strip()` removes one leading space from text with no whitespace at either end. */
  lemma StripLeadingSpace(s: string)
    requires s != [] && !IsSpace(s[0]) && !IsSpace(s[|s| - 1])
    ensures Strip(" " + s) == s && Strip(s) == s
  {
    assert (" " + s)[1..] == s;
    assert StripStart(" " + s) == 1;
    assert StripEnd(" " + s) == |s| + 1;
  }

  /** A member definition splits at its space into its type and its name. */
  lemma DefinitionWords(f: Field)
    requires Word(f.typeName) && Word(f.name)
    ensures Split(MemberDefinition(f), ' ') == [f.typeName, f.name]
  {
    assert IsSpace(' ');
    assert ' ' !in f.typeName && ' ' !in f.name;
    assert [f.typeName, f.name][1..] == [f.name];
    assert Join([f.typeName, f.name], [' ']) == MemberDefinition(f);
    SplitJoin([f.typeName, f.name], ' ');
  }

  /** A member definition gives the field line `    name: Type`. */
  lemma DefinitionLine(f: Field)
    requires Word(f.typeName) && Word(f.name)
    ensures MemberLine(MemberDefinition(f)) == Ok("    " + f.name + ": " + f.typeName + "\n")
  {
    DefinitionWords(f);
    StripUnchanged(f.typeName);
    StripUnchanged(f.name);
  }

  /** A member definition has no whitespace at either end and holds no separator. */
  lemma DefinitionShape(f: Field)
    requires Word(f.typeName) && Word(f.name)
    ensures var d := MemberDefinition(f);
      d != [] && !IsSpace(d[0]) && !IsSpace(d[|d| - 1]) && ',' !in d && ':' !in d
  {
    var d := MemberDefinition(f);
    assert d[0] == f.typeName[0];
    assert d[|d| - 1] == f.name[|f.name| - 1];
    forall k | 0 <= k < |d| ensures d[k] != ',' && d[k] != ':' {
      if k < |f.typeName| {
        assert d[k] == f.typeName[k];
      } else if k > |f.typeName| {
        assert d[k] == f.name[k - |f.typeName| - 1];
      }
    }
  }

  /** Text with no whitespace at either end, with or without a space in front, strips to itself and keeps its separators. */
  lemma LeadStrips(lead: string, d: string)
    requires d != [] && !IsSpace(d[0]) && !IsSpace(d[|d| - 1]) && (lead == "" || lead == " ")
    ensures Strip(lead + d) == d
    ensures forall c :: c != ' ' ==> (c in lead + d <==> c in d)
  {
    StripLeadingSpace(d);
    if lead == "" {
      assert lead + d == d;
    } else {
      assert lead + d == [' '] + d;
    }
  }

  /** Splitting `a,b` at its first comma when `a` has none. */
  lemma SplitAtComma(a: string, rest: string)
    requires ',' !in a
    ensures Split(a + "," + rest, ',') == [a] + Split(rest, ',')
  {
    var s := a + "," + rest;
    FindAfterPrefix(a, ',', rest);
    assert s == a + [','] + rest;
    assert s[..|a|] == a && s[|a| + 1..] == rest;
  }

  /** The fields after the first are well formed too. */
  lemma WellFormedTail(fields: seq<Field>)
    requires WellFormed(fields) && |fields| > 1
    ensures WellFormed(fields[1..])
  {
    forall k | 0 <= k < |fields| - 1 ensures Word(fields[1..][k].typeName) && Word(fields[1..][k].name) {
      assert fields[1..][k] == fields[k + 1];
    }
  }

  /** A list of at least two fields: the first definition, a comma, then a space and the rest. */
  lemma MemberListCons(fields: seq<Field>, lead: string)
    requires |fields| > 1
    ensures lead + MemberList(fields) == (lead + MemberDefinition(fields[0])) + "," + (" " + MemberList(fields[1..]))
  {
    var d := MemberDefinition(fields[0]);
    var m := MemberList(fields[1..]);
    assert MemberList(fields) == d + ", " + m;
    Regroup(lead, d, m);
  }

  lemma Regroup(x: string, y: string, z: string)
    ensures x + (y + ", " + z) == (x + y) + "," + (" " + z)
  {
    assert ", " == "," + " ";
  }

  /** The lines of a list of definitions: the first one's line, then the rest's. */
  lemma MemberLinesCons(first: string, rest: seq<string>, line: string)
    requires MemberLine(Strip(first)) == Ok(line)
    ensures MemberLines([first] + rest) == Prepend(line, MemberLines(rest))
  {
    assert ([first] + rest)[1..] == rest;
  }

  /** Members written as `Type name, Type name, ...` give one field line per member, in order. */
  lemma {:induction false} MembersRoundTrip(fields: seq<Field>, lead: string)
    requires WellFormed(fields) && (lead == "" || lead == " ")
    ensures Members(lead + MemberList(fields)) == Ok(FieldLines(fields))
  {
    var d := MemberDefinition(fields[0]);
    DefinitionShape(fields[0]);
    LeadStrips(lead, d);
    DefinitionLine(fields[0]);
    var line := "    " + fields[0].name + ": " + fields[0].typeName + "\n";
    assert FieldLines(fields) == line + FieldLines(fields[1..]);
    if |fields| == 1 {
      assert MemberList(fields) == d;
      assert Split(lead + d, ',') == [lead + d] + [];
      MemberLinesCons(lead + d, [], line);
      assert MemberLines([]) == Ok("");
      assert FieldLines(fields[1..]) == "";
    } else {
      var rest := fields[1..];
      WellFormedTail(fields);
      MemberListCons(fields, lead);
      SplitAtComma(lead + d, " " + MemberList(rest));
      var tail := Split(" " + MemberList(rest), ',');
      assert Members(lead + MemberList(fields)) == MemberLines([lead + d] + tail);
      MembersRoundTrip(rest, " ");
      assert MemberLines(tail) == Ok(FieldLines(rest));
      MemberLinesCons(lead + d, tail, line);
    }
  }

  /** A definition `Name: Type name, ...` gives the dataclass `Name` with those fields, visited by `visit_name_base`. */
  lemma TypeRoundTrip(base: string, name: string, fields: seq<Field>)
    requires Word(name) && WellFormed(fields)
    ensures var definition := name + ": " + MemberList(fields);
      && ClassName(definition) == name
      && TypeSource(base, definition) ==
        Ok("@dataclass\n" + "class " + name + "(" + base + "):\n" + FieldLines(fields)
          + "\n    def accept(self, visitor: Visitor):\n"
          + "        return visitor.visit_" + Lower(name) + "_" + Lower(base) + "(self)\n")
  {
    var members := MemberList(fields);
    ColonFree(fields);
    ColonSplit(name, members);
    StripUnchanged(name);
    MemberListEnds(fields);
    StripLeadingSpace(members);
    MembersRoundTrip(fields, "");
    assert "" + members == members;
  }

  /** `Name: members` splits at its colon into the name and the members with their leading space. */
  lemma ColonSplit(name: string, members: string)
    requires Word(name) && ':' !in members
    ensures Split(name + ": " + members, ':') == [name, " " + members]
  {
    var definition := name + ": " + members;
    assert definition == name + [':'] + (" " + members);
    FindAfterPrefix(name, ':', " " + members);
    assert definition[..|name|] == name && definition[|name| + 1..] == " " + members;
    assert Split(" " + members, ':') == [" " + members];
  }

  /** A member list holds no `:`. */
  lemma {:induction false} ColonFree(fields: seq<Field>)
    requires WellFormed(fields)
    ensures ':' !in MemberList(fields)
  {
    DefinitionShape(fields[0]);
    if |fields| > 1 {
      WellFormedTail(fields);
      ColonFree(fields[1..]);
    }
  }

  /** A member list starts with the first type and ends with the last name: no whitespace at either end. */
  lemma {:induction false} MemberListEnds(fields: seq<Field>)
    requires WellFormed(fields)
    ensures var m := MemberList(fields); m != [] && !IsSpace(m[0]) && !IsSpace(m[|m| - 1])
  {
    var d := MemberDefinition(fields[0]);
    assert d[0] == fields[0].typeName[0];
    if |fields| > 1 {
      WellFormedTail(fields);
      MemberListEnds(fields[1..]);
    } else {
      assert d[|d| - 1] == fields[0].name[|fields[0].name| - 1];
    }
  }

  // ----- the generators -----

  /** `generate_members`. */
  method GenerateMembers(members: string) returns (r: Result<string>)
    ensures r == Members(members)
  {
    var definitions := Split(members, ',');
    var source := "";
    var i := 0;
    assert definitions[0..] == definitions;
    PrependNothing(MemberLines(definitions));
    while i < |definitions|
      invariant i <= |definitions|
      invariant MemberLines(definitions) == Prepend(source, MemberLines(definitions[i..]))
    {
      MemberLinesStep(definitions, i);
      var line := MemberField(definitions[i]);
      if line.Err? {
        return line;
      }
      PrependTwice(source, line.value, MemberLines(definitions[i + 1..]));
      source := source + line.value;
      i := i + 1;
    }
    assert definitions[i..] == [] && source + "" == source;
    return Ok(source);
  }

  /** The body of `generate_members`' loop: strip the definition, split it at spaces, write the field line. */
  method MemberField(definition: string) returns (r: Result<string>)
    ensures r == MemberLine(Strip(definition))
  {
    var stripped := Strip(definition);
    var words := Split(stripped, ' ');
    if |words| < 2 {
      return Err(IndexError);
    }
    return Ok("    " + Strip(words[1]) + ": " + Strip(words[0]) + "\n");
  }

  /** `generate_type`. */
  method GenerateType(base: string, definition: string) returns (r: Result<string>)
    ensures r == TypeSource(base, definition)
  {
    var parts := Split(definition, ':');
    var name := Strip(parts[0]);
    if |parts| < 2 {
      return Err(IndexError);
    }
    var fields := GenerateMembers(Strip(parts[1]));
    if fields.Err? {
      return fields;
    }
    var source := "@dataclass\n";
    source := source + "class " + name + "(" + base + "):\n";
    source := source + fields.value;
    source := source + "\n    def accept(self, visitor: Visitor):\n";
    source := source + "        return visitor.visit_" + Lower(name) + "_" + Lower(base) + "(self)\n";
    return Ok(source);
  }

  /** Concatenation is associative. */
  lemma Associative(a: string, b: string, c: string)
    ensures (a + b) + c == a + (b + c)
  {
  }

  /** `generate_ast`: the header, then its two loops. */
  method GenerateAst(base: string, definitions: seq<string>) returns (r: Result<string>)
    ensures r == AstSource(base, definitions)
  {
    var source := Header(base);
    r := AppendTypes(source, base, definitions);
    if r.Err? {
      return r;
    }
    source := r.value;
    source := source + "\nclass Visitor(ABC):\n";
    source := AppendVisitMethods(source, base, definitions);
    Associative(Header(base) + TypesSource(base, definitions).value, "\nclass Visitor(ABC):\n", VisitMethods(base, definitions));
    return Ok(source);
  }

  /** The first loop of `generate_ast`: one dataclass and an empty line per definition. */
  method AppendTypes(start: string, base: string, definitions: seq<string>) returns (r: Result<string>)
    ensures r == Prepend(start, TypesSource(base, definitions))
  {
    var source := start;
    ghost var types := "";
    var i := 0;
    assert definitions[0..] == definitions && source == start + types;
    PrependNothing(TypesSource(base, definitions));
    while i < |definitions|
      invariant i <= |definitions| && source == start + types
      invariant TypesSource(base, definitions) == Prepend(types, TypesSource(base, definitions[i..]))
    {
      TypesSourceStep(base, definitions, i);
      var text := GenerateType(base, definitions[i]);
      if text.Err? {
        return text;
      }
      PrependTwice(types, text.value + "\n", TypesSource(base, definitions[i + 1..]));
      Associative(start, types, text.value + "\n");
      source := source + (text.value + "\n");
      types := types + (text.value + "\n");
      i := i + 1;
    }
    assert definitions[i..] == [] && types + "" == types;
    return Ok(source);
  }

  /** The second loop of `generate_ast`: one abstract visit method per definition. */
  method AppendVisitMethods(start: string, base: string, definitions: seq<string>) returns (source: string)
    ensures source == start + VisitMethods(base, definitions)
  {
    source := start;
    ghost var visits := "";
    var j := 0;
    assert definitions[0..] == definitions && visits + VisitMethods(base, definitions) == VisitMethods(base, definitions);
    while j < |definitions|
      invariant j <= |definitions|
      invariant source == start + visits
      invariant VisitMethods(base, definitions) == visits + VisitMethods(base, definitions[j..])
    {
      assert definitions[j..][0] == definitions[j] && definitions[j..][1..] == definitions[j + 1..];
      ghost var before := source;
      var name := Strip(Split(definitions[j], ':')[0]);
      source := source + "    @abstractmethod\n";
      source := source + VisitSignature(base, name);
      source := source + "        pass\n\n";
      ghost var entry := VisitMethod(base, definitions[j]);
      assert source == before + entry by {
        Associative(before, "    @abstractmethod\n", VisitSignature(base, name));
        Associative(before, "    @abstractmethod\n" + VisitSignature(base, name), "        pass\n\n");
      }
      Associative(start, visits, entry);
      Associative(visits, entry, VisitMethods(base, definitions[j + 1..]));
      visits := visits + entry;
      j := j + 1;
    }
    assert definitions[j..] == [] && visits + "" == visits;
  }
}

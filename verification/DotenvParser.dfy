/** Decoding one logical line: `[export] NAME = value`. */
module DotenvParser {
  import opened Prelude
  import opened DotenvScanner
  import opened DotenvValue
  import opened DotenvGrammar

  datatype Assignment = Assignment(key: string, value: string, hasReference: bool, isExport: bool)

  predicate IsNameStart(c: char) {
    'a' <= c <= 'z' || 'A' <= c <= 'Z' || c == '_'
  }

  predicate IsNameChar(c: char) {
    IsAlnum(c) || c == '_' || c == '.'
  }

  method ParseValue(input: string) returns (r: Result<Value, ParseError>)
    ensures r == RunValue(START_OF_VALUE, input)
    ensures exists d :: Grammatical(d) && Spelling(d) == input && Meaning(d) == r
  {
    hide Grammatical, Spelling, Meaning;
    ValueMeetsGrammar(input, RunValue(START_OF_VALUE, input));
    var st := START_OF_VALUE;
    for index := 0 to |input|
      invariant RunValue(START_OF_VALUE, input) == RunValue(st, input[index..])
    {
      assert input[index..][1..] == input[index + 1..];
      match ValueStep(st, input[index]) {
        case Go(next) => st := next;
        case Stop => return EndOfValue(st);
        case Fail(error) => return Err(error);
      }
    }
    return EndOfValue(st);
  }

  // ----- the assignment around the value -----

  function SkipSpace(s: string): (r: string)
    ensures |r| <= |s|
    ensures r != "" ==> !IsSpace(r[0])
  {
    if s != "" && IsSpace(s[0]) then SkipSpace(s[1..]) else s
  }

  function NameRun(s: string): (n: nat)
    ensures n <= |s|
  {
    if s != "" && IsNameChar(s[0]) then 1 + NameRun(s[1..]) else 0
  }

  /** The name at the start of `s`, if there is one. */
  function NameAt(s: string): Option<string> {
    if s == "" || !IsNameStart(s[0]) then None else Some(s[..NameRun(s)])
  }

  function AfterEquals(s: string): Option<string> {
    if s != "" && s[0] == '=' then Some(s[1..]) else None
  }

  function FinishAssignment(key: string, isExport: bool, rest: string): Result<Assignment, ParseError> {
    var line := SkipSpace(rest);
    if line == "" || line[0] == '#' then Ok(Assignment(key, "", false, isExport))
    else
      match RunValue(START_OF_VALUE, line)
      case Err(error) => Err(error)
      case Ok(v) => Ok(Assignment(key, if v.hasReference then line else v.text, v.hasReference, isExport))
  }

  function ParsedAssignment(text: string): Result<Assignment, ParseError> {
    var line := SkipSpace(text);
    var name := NameAt(line);
    if name.None? then Err(NoName)
    else
      var afterName := SkipSpace(line[|name.value|..]);
      var equals := AfterEquals(afterName);
      if equals.Some? then FinishAssignment(name.value, false, equals.value)
      else if name.value != "export" then Err(NoEquals)
      else
        var second := NameAt(afterName);
        if second.None? then Err(ExportWithoutName)
        else
          var equals2 := AfterEquals(SkipSpace(afterName[|second.value|..]));
          if equals2.None? then Err(NoEquals) else FinishAssignment(second.value, true, equals2.value)
  }

  method ParseAssignment(text: string) returns (r: Result<Assignment, ParseError>)
    ensures r == ParsedAssignment(text)
    ensures exists shape :: ShapeOk(shape) && SpellShape(shape) == text && ShapeMeans(shape, r)
  {
    hide ShapeOk, SpellShape, ShapeMeans;
    AssignmentMeetsGrammar(text, ParsedAssignment(text));
    var line := SkipSpace(text);
    var name := NameAt(line);
    if name.None? {
      return Err(NoName);
    }
    var key := name.value;
    line := SkipSpace(line[|key|..]);
    var isExport := false;
    var equals := AfterEquals(line);
    if key == "export" {
      if equals.None? {
        isExport := true;
        name := NameAt(line);
        if name.None? {
          return Err(ExportWithoutName);
        }
        key := name.value;
        line := SkipSpace(line[|key|..]);
        equals := AfterEquals(line);
        if equals.None? {
          return Err(NoEquals);
        }
      }
    } else if equals.None? {
      return Err(NoEquals);
    }
    line := SkipSpace(equals.value);
    if line == "" || line[0] == '#' {
      return Ok(Assignment(key, "", false, isExport));
    }
    var rawValuePortion := line;
    var parsed := ParseValue(line);
    if parsed.Err? {
      return Err(parsed.error);
    }
    var v := parsed.value;
    return Ok(Assignment(key, if v.hasReference then rawValuePortion else v.text, v.hasReference, isExport));
  }

  // ----- the shapes of a line -----

  /** The four ways a line can begin, up to the value. `exported` holds the blanks after the word. */
  datatype Shape =
    | Assigned(lead: string, exported: Option<string>, name: string, gap: string, space: string, value: string)
    | Nameless(lead: string, rest: string)
    | NotExporting(lead: string, gap: string, rest: string)
    | Unequal(lead: string, exported: Option<string>, name: string, gap: string, rest: string)

  function SpellPrefix(exported: Option<string>): string {
    if exported.Some? then "export" + exported.value else ""
  }

  function SpellShape(shape: Shape): string {
    match shape
    case Assigned(lead, exported, name, gap, space, value) =>
      lead + (SpellPrefix(exported) + (name + (gap + ("=" + (space + value)))))
    case Nameless(lead, rest) => lead + rest
    case NotExporting(lead, gap, rest) => lead + ("export" + (gap + rest))
    case Unequal(lead, exported, name, gap, rest) => lead + (SpellPrefix(exported) + (name + (gap + rest)))
  }

  ghost predicate AllSpace(s: string) {
    forall i :: 0 <= i < |s| ==> IsSpace(s[i])
  }

  ghost predicate NameOk(name: string) {
    && name != "" && ('a' <= name[0] <= 'z' || 'A' <= name[0] <= 'Z' || name[0] == '_')
    && forall i :: 0 <= i < |name| ==>
         || 'a' <= name[i] <= 'z' || 'A' <= name[i] <= 'Z' || '0' <= name[i] <= '9'
         || name[i] == '_' || name[i] == '.'
  }

  predicate NoSpaceFirst(s: string) {
    s != "" ==> !IsSpace(s[0])
  }

  /** Where a name can stop: at the end of the line or before a character that is in no name. */
  predicate NoNameFirst(s: string) {
    s != "" ==> !IsNameChar(s[0])
  }

  ghost predicate PrefixOk(exported: Option<string>) {
    exported.Some? ==> AllSpace(exported.value) && exported.value != ""
  }

  ghost predicate ShapeOk(shape: Shape) {
    match shape
    case Assigned(lead, exported, name, gap, space, value) =>
      && AllSpace(lead) && PrefixOk(exported) && NameOk(name) && AllSpace(gap) && AllSpace(space)
      && NoSpaceFirst(value)
    case Nameless(lead, rest) => AllSpace(lead) && NoSpaceFirst(rest) && (rest != "" ==> !IsNameStart(rest[0]))
    case NotExporting(lead, gap, rest) =>
      && AllSpace(lead) && AllSpace(gap) && NoSpaceFirst(rest) && NoNameFirst(gap + rest)
      && (rest != "" ==> rest[0] != '=' && !IsNameStart(rest[0]))
    case Unequal(lead, exported, name, gap, rest) =>
      && AllSpace(lead) && PrefixOk(exported) && NameOk(name) && (exported.None? ==> name != "export")
      && AllSpace(gap) && NoSpaceFirst(rest) && NoNameFirst(gap + rest) && (rest != "" ==> rest[0] != '=')
  }

  function Given(name: string, isExport: bool, written: string, read: Result<Value, ParseError>)
    : Result<Assignment, ParseError>
  {
    match read
    case Err(error) => Err(error)
    case Ok(v) => Ok(Assignment(name, if v.hasReference then written else v.text, v.hasReference, isExport))
  }

  /** An absent value or a remark is empty; a value with a reference is kept as it is written. */
  ghost predicate ShapeMeans(shape: Shape, r: Result<Assignment, ParseError>) {
    match shape
    case Assigned(_, exported, name, _, _, value) =>
      if value == "" || value[0] == '#' then r == Ok(Assignment(name, "", false, exported.Some?))
      else exists d :: Grammatical(d) && Spelling(d) == value && r == Given(name, exported.Some?, value, Meaning(d))
    case Nameless(_, _) => r == Err(NoName)
    case NotExporting(_, _, _) => r == Err(ExportWithoutName)
    case Unequal(_, _, _, _, _) => r == Err(NoEquals)
  }

  lemma {:induction false} SkipsSpace(space: string, rest: string)
    requires AllSpace(space) && NoSpaceFirst(rest)
    ensures SkipSpace(space + rest) == rest
  {
    if space == "" {
      assert space + rest == rest;
    } else {
      assert (space + rest)[1..] == space[1..] + rest;
      SkipsSpace(space[1..], rest);
    }
  }

  lemma {:induction false} SpaceSplits(s: string) returns (space: string)
    ensures AllSpace(space) && s == space + SkipSpace(s) && NoSpaceFirst(SkipSpace(s))
  {
    hide IsSpace;
    if s != "" && IsSpace(s[0]) {
      space := SpaceSplits(s[1..]);
      space := [s[0]] + space;
    } else {
      space := "";
    }
  }

  lemma {:induction false} RunsOverName(name: string, rest: string)
    requires (forall i :: 0 <= i < |name| ==> IsNameChar(name[i])) && NoNameFirst(rest)
    ensures NameRun(name + rest) == |name|
  {
    if name == "" {
      assert name + rest == rest;
    } else {
      assert (name + rest)[1..] == name[1..] + rest;
      RunsOverName(name[1..], rest);
    }
  }

  lemma NameIsFound(name: string, rest: string)
    requires NameOk(name) && NoNameFirst(rest)
    ensures NameAt(name + rest) == Some(name) && (name + rest)[|name|..] == rest
  {
    RunsOverName(name, rest);
    assert (name + rest)[..|name|] == name;
  }

  lemma {:induction false} NameRunSplits(s: string)
    ensures forall i :: 0 <= i < NameRun(s) ==> IsNameChar(s[i])
    ensures NoNameFirst(s[NameRun(s)..])
  {
    if s != "" && IsNameChar(s[0]) {
      NameRunSplits(s[1..]);
      assert s[1..][NameRun(s[1..])..] == s[NameRun(s)..];
      assert forall i :: 1 <= i < NameRun(s) ==> s[i] == s[1..][i - 1];
    }
  }

  lemma NameSplits(s: string)
    ensures var name := NameAt(s);
            && (name.Some? ==> NameOk(name.value) && s == name.value + s[|name.value|..]
                               && NoNameFirst(s[|name.value|..]))
            && (name.None? ==> s == "" || !IsNameStart(s[0]))
  {
    NameRunSplits(s);
  }

  lemma SpaceEndsName(gap: string, rest: string)
    requires AllSpace(gap) && (gap == "" ==> NoNameFirst(rest))
    ensures NoNameFirst(gap + rest)
  {
  }

  /** From the name on, for a shape that has one: what the name is followed by decides. */
  function AfterName(line: string, isExport: bool): Result<Assignment, ParseError> {
    var name := NameAt(line);
    if name.None? then Err(if isExport then ExportWithoutName else NoName)
    else
      var equals := AfterEquals(SkipSpace(line[|name.value|..]));
      if equals.Some? then FinishAssignment(name.value, isExport, equals.value) else Err(NoEquals)
  }

  lemma NamedIsRead(name: string, gap: string, rest: string, isExport: bool)
    requires NameOk(name) && AllSpace(gap) && NoSpaceFirst(rest) && NoNameFirst(gap + rest)
    ensures AfterName(name + (gap + rest), isExport) ==
            if AfterEquals(rest).Some? then FinishAssignment(name, isExport, AfterEquals(rest).value) else Err(NoEquals)
  {
    NameIsFound(name, gap + rest);
    SkipsSpace(gap, rest);
  }

  /** An optional `export` is noticed only when no equals sign follows it. */
  lemma PrefixIsRead(lead: string, line: string)
    requires AllSpace(lead) && NoSpaceFirst(line)
    ensures var name := NameAt(line);
            ParsedAssignment(lead + line) ==
            if name != Some("export") then AfterName(line, false)
            else
              var after := SkipSpace(line[6..]);
              if AfterEquals(after).Some? then FinishAssignment("export", false, AfterEquals(after).value)
              else AfterName(after, true)
  {
    hide FinishAssignment, NameAt;
    SkipsSpace(lead, line);
  }

  lemma EqualsIsFound(rest: string)
    ensures AfterEquals("=" + rest) == Some(rest) && NoSpaceFirst("=" + rest) && NoNameFirst("=" + rest)
  {
    assert ("=" + rest)[1..] == rest;
  }

  lemma FinishMeans(shape: Shape)
    requires shape.Assigned? && ShapeOk(shape)
    ensures ShapeMeans(shape, FinishAssignment(shape.name, shape.exported.Some?, shape.space + shape.value))
  {
    hide RunValue, Grammatical, Spelling, Meaning;
    SkipsSpace(shape.space, shape.value);
    ValueMeetsGrammar(shape.value, RunValue(START_OF_VALUE, shape.value));
  }

  lemma MeaningIsUnique(shape: Shape, r: Result<Assignment, ParseError>, r': Result<Assignment, ParseError>)
    requires ShapeMeans(shape, r) && ShapeMeans(shape, r')
    ensures r == r'
  {
    hide RunValue, Grammatical, Spelling, Meaning;
    if shape.Assigned? && shape.value != "" && shape.value[0] != '#' {
      forall d | Grammatical(d) && Spelling(d) == shape.value
        ensures Meaning(d) == RunValue(START_OF_VALUE, shape.value)
      {
        GrammarIsRead(d);
      }
    }
  }

  lemma ExportIsFound(blanks: string, rest: string)
    requires AllSpace(blanks) && NoSpaceFirst(rest) && NoNameFirst(blanks + rest)
    ensures var line := "export" + (blanks + rest);
            NameAt(line) == Some("export") && SkipSpace(line[6..]) == rest && NoSpaceFirst(line)
  {
    assert NameOk("export");
    NameIsFound("export", blanks + rest);
    SkipsSpace(blanks, rest);
  }

  /** A line that has a name: with or without the prefix, the name and what follows it decide. */
  lemma NamedLineIsRead(lead: string, exported: Option<string>, name: string, gap: string, rest: string)
    requires AllSpace(lead) && PrefixOk(exported) && NameOk(name) && AllSpace(gap)
    requires NoSpaceFirst(rest) && NoNameFirst(gap + rest)
    requires AfterEquals(rest).None? && exported.None? ==> name != "export"
    ensures ParsedAssignment(lead + (SpellPrefix(exported) + (name + (gap + rest)))) ==
            if AfterEquals(rest).None? then Err(NoEquals)
            else FinishAssignment(name, exported.Some?, AfterEquals(rest).value)
  {
    hide FinishAssignment, ParsedAssignment, NameAt, NameOk, SkipSpace, AfterEquals, NoNameFirst, AllSpace;
    var line := name + (gap + rest);
    NameFirst(name, gap + rest);
    NamedIsRead(name, gap, rest, exported.Some?);
    NameIsFound(name, gap + rest);
    SkipsSpace(gap, rest);
    if exported.None? {
      assert SpellPrefix(exported) + line == line;
      PrefixIsRead(lead, line);
      if name == "export" {
        assert line[6..] == gap + rest;
      }
    } else {
      assert SpellPrefix(exported) + line == "export" + (exported.value + line);
      NoEqualsFirst(line);
      SpaceEndsName(exported.value, line);
      ExportedIsRead(lead, exported.value, line);
    }
  }

  lemma ExportedIsRead(lead: string, blanks: string, line: string)
    requires AllSpace(lead) && AllSpace(blanks) && NoSpaceFirst(line) && NoNameFirst(blanks + line)
    requires AfterEquals(line).None?
    ensures ParsedAssignment(lead + ("export" + (blanks + line))) == AfterName(line, true)
  {
    hide ParsedAssignment, AfterName, NameAt, SkipSpace, AfterEquals, AllSpace, NoNameFirst;
    ExportIsFound(blanks, line);
    PrefixIsRead(lead, "export" + (blanks + line));
  }

  lemma NameFirst(name: string, rest: string)
    requires NameOk(name)
    ensures var line := name + rest;
            line != "" && line[0] == name[0] && NoSpaceFirst(line) && line[0] != '='
  {
    assert (name + rest)[0] == name[0];
  }

  lemma NoEqualsFirst(line: string)
    requires line != "" && line[0] != '='
    ensures AfterEquals(line).None?
  {
  }

  /** Every line of a known shape is read as that shape says. */
  lemma ShapeIsRead(shape: Shape)
    requires ShapeOk(shape)
    ensures ShapeMeans(shape, ParsedAssignment(SpellShape(shape)))
  {
    hide FinishAssignment, ParsedAssignment, NameAt, NameOk, SkipSpace;
    match shape {
      case Assigned(lead, exported, name, gap, space, value) =>
        EqualsIsFound(space + value);
        SpaceEndsName(gap, "=" + (space + value));
        NamedLineIsRead(lead, exported, name, gap, "=" + (space + value));
        FinishMeans(shape);
      case Unequal(lead, exported, name, gap, rest) =>
        NamedLineIsRead(lead, exported, name, gap, rest);
      case Nameless(lead, rest) =>
        PrefixIsRead(lead, rest);
        NoNameAt(rest);
      case NotExporting(lead, gap, rest) =>
        ExportIsFound(gap, rest);
        PrefixIsRead(lead, "export" + (gap + rest));
        NoNameAt(rest);
    }
  }

  lemma NoNameAt(rest: string)
    requires rest != "" ==> !IsNameStart(rest[0])
    ensures NameAt(rest).None?
  {
  }

  /** Everything from a name on, split at the name, the blanks, and the equals sign if there is one. */
  lemma NamedLineSplits(lead: string, exported: Option<string>, line: string) returns (shape: Shape)
    requires AllSpace(lead) && PrefixOk(exported) && NameAt(line).Some?
    requires exported.None? && NameAt(line) == Some("export") ==>
               AfterEquals(SkipSpace(line[6..])).Some?
    ensures ShapeOk(shape) && SpellShape(shape) == lead + (SpellPrefix(exported) + line)
  {
    hide NameAt, SkipSpace, NameOk;
    NameSplits(line);
    var name := NameAt(line).value;
    var gap := SpaceSplits(line[|name|..]);
    var rest := SkipSpace(line[|name|..]);
    if AfterEquals(rest).Some? {
      var space := SpaceSplits(rest[1..]);
      shape := Assigned(lead, exported, name, gap, space, SkipSpace(rest[1..]));
      assert rest == "=" + (space + SkipSpace(rest[1..]));
    } else {
      shape := Unequal(lead, exported, name, gap, rest);
    }
    assert line == name + (gap + rest);
  }

  lemma EveryLineHasShape(text: string) returns (shape: Shape)
    ensures ShapeOk(shape) && SpellShape(shape) == text
  {
    hide NameOk, NameAt, SkipSpace, ShapeOk, SpellShape;
    var lead := SpaceSplits(text);
    var line := SkipSpace(text);
    NameSplits(line);
    if NameAt(line).None? {
      shape := NamelessShape(lead, line);
    } else if NameAt(line) == Some("export") && AfterEquals(SkipSpace(line[6..])).None? {
      shape := ExportingShape(lead, line);
    } else {
      assert SpellPrefix(None) + line == line;
      shape := NamedLineSplits(lead, None, line);
    }
  }

  lemma NamelessShape(lead: string, line: string) returns (shape: Shape)
    requires AllSpace(lead) && NoSpaceFirst(line) && NameAt(line).None?
    ensures ShapeOk(shape) && SpellShape(shape) == lead + line
  {
    shape := Nameless(lead, line);
  }

  lemma ExportingShape(lead: string, line: string) returns (shape: Shape)
    requires AllSpace(lead) && NameAt(line) == Some("export") && AfterEquals(SkipSpace(line[6..])).None?
    ensures ShapeOk(shape) && SpellShape(shape) == lead + line
  {
    hide NameOk, NameAt, SkipSpace;
    NameSplits(line);
    var blanks := SpaceSplits(line[6..]);
    var rest := SkipSpace(line[6..]);
    assert line == "export" + (blanks + rest);
    NameSplits(rest);
    if NameAt(rest).None? {
      shape := NotExporting(lead, blanks, rest);
    } else {
      NameStartsName(rest);
      shape := NamedLineSplits(lead, Some(blanks), rest);
      assert SpellPrefix(Some(blanks)) + rest == line;
    }
  }

  lemma NameStartsName(rest: string)
    requires NameAt(rest).Some?
    ensures rest != "" && IsNameChar(rest[0])
  {
  }

  /** The reading of a line is what its shape means, for every line and every answer: assignment or error. */
  lemma AssignmentMeetsGrammar(text: string, r: Result<Assignment, ParseError>)
    ensures ParsedAssignment(text) == r <==>
            exists shape :: ShapeOk(shape) && SpellShape(shape) == text && ShapeMeans(shape, r)
  {
    hide ParsedAssignment, ShapeOk, SpellShape, ShapeMeans;
    if ParsedAssignment(text) == r {
      var shape := EveryLineHasShape(text);
      ShapeIsRead(shape);
    }
    if shape :| ShapeOk(shape) && SpellShape(shape) == text && ShapeMeans(shape, r) {
      ShapeIsRead(shape);
      MeaningIsUnique(shape, r, ParsedAssignment(text));
    }
  }
}

/** Printing a value so that both the line scanner and the value parser read it back. */
module DotenvQuoting {
  import opened Prelude
  import opened DotenvScanner
  import opened DotenvValue
  import opened DotenvParser
  import opened DotenvLines

  predicate IsSafeChar(c: char) {
    IsAlnum(c) || c == '_' || c == '.' || c == '-' || c == '/' || c == ':' || c == '@' || c == '%' || c == '+'
      || c == ','
  }

  predicate AllSafe(s: string) {
    forall i :: 0 <= i < |s| ==> IsSafeChar(s[i])
  }

  function Replace(s: string, c: char, with: string): string {
    if s == "" then "" else (if s[0] == c then with else [s[0]]) + Replace(s[1..], c, with)
  }

  function EscapeWeak(value: string): string {
    Replace(Replace(Replace(Replace(value, '\\', "\\\\"), '"', "\\\""), '$', "\\$"), '\n', "\\n")
  }

  function ChooseQuoting(value: string): string {
    if value == "" then ""
    else if AllSafe(value) then value
    else if '\'' !in value then "'" + value + "'"
    else "\"" + EscapeWeak(value) + "\""
  }

  /** The printer's choice: bare if every character is harmless, in single quotes if the value has none
      itself, and in double quotes otherwise, where it is escaped. */
  lemma QuotingForm(value: string)
    ensures value == "" ==> ChooseQuoting(value) == ""
    ensures var harmless := forall i :: 0 <= i < |value| ==>
                              || 'a' <= value[i] <= 'z' || 'A' <= value[i] <= 'Z' || '0' <= value[i] <= '9'
                              || value[i] in ['_', '.', '-', '/', ':', '@', '%', '+', ','];
            && (harmless ==> ChooseQuoting(value) == value)
            && (!harmless && '\'' !in value ==> ChooseQuoting(value) == "'" + value + "'")
            && (!harmless && '\'' in value ==>
                  exists inside :: ChooseQuoting(value) == "\"" + inside + "\"" && Escapes(inside, value))
  {
    SafeIsHarmless(value);
    hide EscapeWeak, Escaped, Escapes, AllSafe;
    EscapeWeakIsEscaped(value);
    EscapedEscapes(value);
  }

  lemma SafeIsHarmless(value: string)
    ensures AllSafe(value) <==>
            forall i :: 0 <= i < |value| ==>
              || 'a' <= value[i] <= 'z' || 'A' <= value[i] <= 'Z' || '0' <= value[i] <= '9'
              || value[i] in ['_', '.', '-', '/', ':', '@', '%', '+', ',']
  {
  }

  /** `inside` is `value` with a backslash before each backslash, double quote and dollar sign, and `\n`
      for each newline. */
  ghost predicate Escapes(inside: string, value: string) {
    if value == "" then inside == ""
    else
      var c, later := value[0], value[1..];
      if c == '\\' || c == '"' || c == '$' then
        |inside| >= 2 && inside[0] == '\\' && inside[1] == c && Escapes(inside[2..], later)
      else if c == '\n' then |inside| >= 2 && inside[0] == '\\' && inside[1] == 'n' && Escapes(inside[2..], later)
      else inside != "" && inside[0] == c && Escapes(inside[1..], later)
  }

  lemma {:induction false} EscapedEscapes(value: string)
    ensures Escapes(Escaped(value), value)
  {
    if value != "" {
      EscapedEscapes(value[1..]);
      var head := EscapedChar(value[0]);
      assert Escaped(value)[..|head|] == head && Escaped(value)[|head|..] == Escaped(value[1..]);
    }
  }

  predicate ValidName(name: string) {
    name != "" && IsNameStart(name[0]) && forall i :: 0 <= i < |name| ==> IsNameChar(name[i])
  }

  function ExportPrefix(isExport: bool): string {
    if isExport then "export " else ""
  }

  function Statement(isExport: bool, name: string, value: string): string {
    ExportPrefix(isExport) + (name + "=" + ChooseQuoting(value))
  }

  function TrailingBackslashes(s: string): nat {
    if s != "" && s[|s| - 1] == '\\' then 1 + TrailingBackslashes(s[..|s| - 1]) else 0
  }

  /** Values the printer and the two readers agree on: all except those printed in single quotes
      although they end in an odd run of backslashes. */
  predicate Quotable(value: string) {
    AllSafe(value) || '\'' in value || TrailingBackslashes(value) % 2 == 0
  }

  // ----- escaping, one character at a time -----

  function EscapedChar(c: char): string {
    if c == '\\' then "\\\\" else if c == '"' then "\\\"" else if c == '$' then "\\$" else if c == '\n' then "\\n"
      else [c]
  }

  function Escaped(s: string): string {
    if s == "" then "" else EscapedChar(s[0]) + Escaped(s[1..])
  }

  lemma {:induction false} ReplaceConcat(a: string, b: string, c: char, with: string)
    ensures Replace(a + b, c, with) == Replace(a, c, with) + Replace(b, c, with)
  {
    if a == "" {
      assert a + b == b;
    } else {
      ReplaceConcat(a[1..], b, c, with);
      assert (a + b)[1..] == a[1..] + b;
      var head := if a[0] == c then with else [a[0]];
      assert head + (Replace(a[1..], c, with) + Replace(b, c, with)) == (head + Replace(a[1..], c, with))
             + Replace(b, c, with);
    }
  }

  lemma ReplaceOne(x: char, c: char, with: string)
    ensures Replace([x], c, with) == if x == c then with else [x]
  {
    assert [x][1..] == "";
  }

  lemma ReplaceTwo(x: char, y: char, c: char, with: string)
    requires x != c && y != c
    ensures Replace([x, y], c, with) == [x, y]
  {
    assert [x, y][1..] == [y] && [x] + [y] == [x, y];
    ReplaceOne(y, c, with);
  }

  lemma EscapeWeakOne(x: char)
    ensures EscapeWeak([x]) == EscapedChar(x)
  {
    hide Replace;
    ReplaceOne(x, '\\', "\\\\");
    ReplaceOne(x, '"', "\\\"");
    ReplaceOne(x, '$', "\\$");
    ReplaceOne(x, '\n', "\\n");
    ReplaceTwo('\\', '\\', '"', "\\\"");
    ReplaceTwo('\\', '\\', '$', "\\$");
    ReplaceTwo('\\', '\\', '\n', "\\n");
    ReplaceTwo('\\', '"', '$', "\\$");
    ReplaceTwo('\\', '"', '\n', "\\n");
    ReplaceTwo('\\', '$', '\n', "\\n");
  }

  lemma EscapeWeakConcat(a: string, b: string)
    ensures EscapeWeak(a + b) == EscapeWeak(a) + EscapeWeak(b)
  {
    hide Replace;
    ReplaceConcat(a, b, '\\', "\\\\");
    var a1, b1 := Replace(a, '\\', "\\\\"), Replace(b, '\\', "\\\\");
    ReplaceConcat(a1, b1, '"', "\\\"");
    var a2, b2 := Replace(a1, '"', "\\\""), Replace(b1, '"', "\\\"");
    ReplaceConcat(a2, b2, '$', "\\$");
    ReplaceConcat(Replace(a2, '$', "\\$"), Replace(b2, '$', "\\$"), '\n', "\\n");
  }

  /** The four successive replacements never disturb each other: they escape each character once. */
  lemma {:induction false} EscapeWeakIsEscaped(s: string)
    ensures EscapeWeak(s) == Escaped(s)
  {
    if s != "" {
      EscapeWeakIsEscaped(s[1..]);
      EscapeWeakConcat([s[0]], s[1..]);
      EscapeWeakOne(s[0]);
      assert s == [s[0]] + s[1..];
    }
  }

  // ----- the value parser undoes the printer -----

  function Reading(output: string): ValueState {
    START_OF_VALUE.(output := output)
  }

  lemma {:induction false} ReadBare(output: string, s: string)
    requires AllSafe(s)
    ensures RunValue(Reading(output), s) == Ok(Value(output + s, false))
    decreases |s|
  {
    if s == "" {
      assert output + s == output;
    } else {
      assert ValueStep(Reading(output), s[0]) == Go(Reading(output + [s[0]]));
      ReadBare(output + [s[0]], s[1..]);
      assert (output + [s[0]]) + s[1..] == output + s;
    }
  }

  lemma {:induction false} ReadStrong(output: string, s: string)
    requires '\'' !in s
    ensures RunValue(Reading(output).(strongQuote := true), s + "'") == Ok(Value(output + s, false))
    decreases |s|
  {
    if s == "" {
      assert output + s == output && s + "'" == "'" && "'"[1..] == "";
    } else {
      assert (s + "'")[1..] == s[1..] + "'";
      ReadStrong(output + [s[0]], s[1..]);
      assert (output + [s[0]]) + s[1..] == output + s;
    }
  }

  lemma {:induction false} ReadWeak(output: string, s: string)
    ensures RunValue(Reading(output).(weakQuote := true), Escaped(s) + "\"") == Ok(Value(output + s, false))
    decreases |s|
  {
    if s == "" {
      assert output + s == output && "" + "\"" == "\"" && "\""[1..] == "";
    } else {
      hide RunValue, ValueStep, EscapedChar;
      var rest := Escaped(s[1..]) + "\"";
      assert Escaped(s) + "\"" == EscapedChar(s[0]) + rest;
      ReadWeak(output + [s[0]], s[1..]);
      assert (output + [s[0]]) + s[1..] == output + s;
      ReadEscapedChar(output, s[0], rest);
    }
  }

  lemma ReadEscapedChar(output: string, c: char, rest: string)
    ensures RunValue(Reading(output).(weakQuote := true), EscapedChar(c) + rest) ==
            RunValue(Reading(output + [c]).(weakQuote := true), rest)
  {
    var all := EscapedChar(c) + rest;
    var st := Reading(output).(weakQuote := true);
    if |EscapedChar(c)| == 1 {
      assert all[1..] == rest;
    } else {
      assert all[1..] == [EscapedChar(c)[1]] + rest;
      assert ([EscapedChar(c)[1]] + rest)[1..] == rest;
      assert ValueStep(st, '\\') == Go(st.(escaped := true));
    }
  }

  lemma OpenQuote(rest: string)
    ensures RunValue(START_OF_VALUE, "'" + rest) == RunValue(Reading("").(strongQuote := true), rest)
    ensures RunValue(START_OF_VALUE, "\"" + rest) == RunValue(Reading("").(weakQuote := true), rest)
  {
    assert ("'" + rest)[1..] == rest && ("\"" + rest)[1..] == rest;
  }

  /** The value parser always recovers the printed value, and sees no reference in it. */
  lemma ValueRoundTrip(v: string)
    ensures RunValue(START_OF_VALUE, ChooseQuoting(v)) == Ok(Value(v, false))
  {
    hide RunValue;
    var q := ChooseQuoting(v);
    assert "" + v == v;
    if v == "" || AllSafe(v) {
      ReadBare("", v);
    } else if '\'' !in v {
      assert q == "'" + (v + "'");
      OpenQuote(v + "'");
      ReadStrong("", v);
    } else {
      EscapeWeakIsEscaped(v);
      assert q == "\"" + (Escaped(v) + "\"");
      OpenQuote(Escaped(v) + "\"");
      ReadWeak("", v);
    }
  }

  // ----- the line scanner -----

  predicate IsPlain(c: char) {
    !IsSpace(c) && c != '#' && c != '\\' && c != '"' && c != '\''
  }

  predicate AllPlain(s: string) {
    forall i :: 0 <= i < |s| ==> IsPlain(s[i])
  }

  lemma {:induction false} ScanPlain(state: ScanState, s: string)
    requires state == Complete || state == WhiteSpace
    requires AllPlain(s) && s != ""
    ensures Quiet(state, s) && Scan(state, s) == Complete
    decreases |s|
  {
    if |s| > 1 {
      ScanPlain(Complete, s[1..]);
    } else {
      assert s[1..] == "";
    }
  }

  lemma {:induction false} ScanStrong(v: string)
    requires '\'' !in v
    ensures Quiet(StrongOpen, v)
    ensures Scan(StrongOpen, v) == if TrailingBackslashes(v) % 2 == 1 then StrongOpenEscape else StrongOpen
    decreases |v|
  {
    if v != "" {
      var u, c := v[..|v| - 1], v[|v| - 1];
      assert v == u + [c];
      ScanStrong(u);
      ScanAppend(StrongOpen, u, [c]);
      assert [c][1..] == "";
      assert c in v;
      QuietAppend(StrongOpen, u, [c]);
    }
  }

  lemma {:induction false} ScanWeak(s: string)
    ensures Quiet(WeakOpen, Escaped(s)) && Scan(WeakOpen, Escaped(s)) == WeakOpen
    decreases |s|
  {
    if s != "" {
      ScanWeak(s[1..]);
      ScanEscapedChar(s[0]);
      QuietAppend(WeakOpen, EscapedChar(s[0]), Escaped(s[1..]));
      ScanAppend(WeakOpen, EscapedChar(s[0]), Escaped(s[1..]));
    }
  }

  lemma ScanEscapedChar(c: char)
    ensures Quiet(WeakOpen, EscapedChar(c)) && Scan(WeakOpen, EscapedChar(c)) == WeakOpen
  {
    var e := EscapedChar(c);
    if |e| == 1 {
      assert e[1..] == "";
    } else {
      assert e == ['\\'] + ([e[1]] + "");
      ScanCons(WeakOpen, '\\', [e[1]] + "");
      ScanCons(WeakOpenEscape, e[1], "");
      assert e[1..] == [e[1]] && [e[1]][1..] == "";
    }
  }

  lemma ScanBracketed(q: char, inner: string, state: ScanState)
    requires q == '\'' || q == '"'
    requires state == Next(Complete, q) && Quiet(state, inner) && Scan(state, inner) != Comment
    ensures Quiet(Complete, [q] + inner + [q])
    ensures Scan(Complete, [q] + inner + [q]) == Next(Scan(state, inner), q)
  {
    assert [q][1..] == "";
    var last := Scan(state, inner);
    assert Next(last, q) != Comment by { QuoteIsNoComment(last, q); }
    QuietAppend(Complete, [q], inner);
    ScanAppend(Complete, [q], inner);
    QuietAppend(Complete, [q] + inner, [q]);
    ScanAppend(Complete, [q] + inner, [q]);
  }

  lemma QuoteIsNoComment(state: ScanState, q: char)
    requires state != Comment && (q == '\'' || q == '"')
    ensures Next(state, q) != Comment
  {
  }

  /** Where the scanner stands after a printed value: complete, or still inside a single-quoted
      string when the closing quote was eaten by a trailing backslash. */
  lemma ScanQuoted(v: string)
    ensures Quiet(Complete, ChooseQuoting(v))
    ensures Scan(Complete, ChooseQuoting(v)) == if Quotable(v) then Complete else StrongOpen
  {
    var q := ChooseQuoting(v);
    if v != "" {
      if AllSafe(v) {
        ScanPlain(Complete, v);
      } else if '\'' !in v {
        ScanStrong(v);
        ScanBracketed('\'', v, StrongOpen);
        assert q == ['\''] + v + ['\''];
      } else {
        EscapeWeakIsEscaped(v);
        ScanWeak(v);
        ScanBracketed('"', Escaped(v), WeakOpen);
        assert q == ['"'] + Escaped(v) + ['"'];
      }
    }
  }

  lemma ScanPrefix(isExport: bool)
    ensures Quiet(Complete, ExportPrefix(isExport))
    ensures Scan(Complete, ExportPrefix(isExport)) == if isExport then WhiteSpace else Complete
  {
    if isExport {
      var e := "export";
      assert AllPlain(e);
      ScanPlain(Complete, e);
      assert "export " == e + " " && " "[1..] == "";
      QuietAppend(Complete, e, " ");
      ScanAppend(Complete, e, " ");
    }
  }

  lemma ScanStatement(isExport: bool, name: string, v: string)
    requires ValidName(name)
    ensures var u := Statement(isExport, name, v);
            Quiet(Complete, u) && Scan(Complete, u) == if Quotable(v) then Complete else StrongOpen
  {
    var p, n, q := ExportPrefix(isExport), name + "=", ChooseQuoting(v);
    ScanPrefix(isExport);
    assert AllPlain(n);
    ScanPlain(Scan(Complete, p), n);
    ScanQuoted(v);
    QuietAppend(Scan(Complete, p), n, q);
    ScanAppend(Scan(Complete, p), n, q);
    assert name + "=" + q == n + q;
    QuietAppend(Complete, p, n + q);
    ScanAppend(Complete, p, n + q);
  }

  // ----- the assignment parser -----

  lemma {:induction false} NameRunStops(name: string, rest: string)
    requires forall i :: 0 <= i < |name| ==> IsNameChar(name[i])
    requires rest == "" || !IsNameChar(rest[0])
    ensures NameRun(name + rest) == |name|
  {
    if name == "" {
      assert name + rest == rest;
    } else {
      NameRunStops(name[1..], rest);
      assert (name + rest)[1..] == name[1..] + rest;
    }
  }

  lemma ReadName(name: string, rest: string)
    requires ValidName(name) && (rest == "" || !IsNameChar(rest[0]))
    ensures NameAt(name + rest) == Some(name) && (name + rest)[|name|..] == rest
    ensures SkipSpace(name + rest) == name + rest
  {
    NameRunStops(name, rest);
    assert (name + rest)[..|name|] == name;
  }

  lemma FinishRoundTrip(name: string, isExport: bool, v: string)
    ensures FinishAssignment(name, isExport, ChooseQuoting(v)) == Ok(Assignment(name, v, false, isExport))
  {
    var q := ChooseQuoting(v);
    ValueRoundTrip(v);
    if v != "" {
      assert !IsSpace(q[0]) && q[0] != '#';
    }
  }

  lemma ParsePlain(name: string, q: string, a: Assignment)
    requires ValidName(name) && FinishAssignment(name, false, q) == Ok(a)
    ensures ParsedAssignment(name + ("=" + q)) == Ok(a)
  {
    hide FinishAssignment, NameAt, SkipSpace;
    var rest := "=" + q;
    ReadName(name, rest);
    NoSpaceToSkip(rest);
    assert rest[1..] == q;
  }

  lemma ParseExported(name: string, q: string, a: Assignment)
    requires ValidName(name) && FinishAssignment(name, true, q) == Ok(a)
    ensures ParsedAssignment("export " + (name + ("=" + q))) == Ok(a)
  {
    hide FinishAssignment, NameAt, SkipSpace;
    var rest := "=" + q;
    var plain := name + rest;
    assert "export " + plain == "export" + (" " + plain);
    ReadName("export", " " + plain);
    ReadName(name, rest);
    OneSpaceToSkip(plain);
    NoSpaceToSkip(rest);
    assert rest[1..] == q;
  }

  lemma NoSpaceToSkip(s: string)
    requires s != "" && !IsSpace(s[0])
    ensures SkipSpace(s) == s
  {
  }

  lemma OneSpaceToSkip(s: string)
    requires s != "" && !IsSpace(s[0])
    ensures SkipSpace(" " + s) == s
  {
    assert (" " + s)[1..] == s;
  }

  lemma ParseRoundTrip(isExport: bool, name: string, v: string)
    requires ValidName(name)
    ensures ParsedAssignment(Statement(isExport, name, v)) == Ok(Assignment(name, v, false, isExport))
  {
    hide FinishAssignment, ParsedAssignment, ChooseQuoting;
    var q := ChooseQuoting(v);
    assert name + "=" + q == name + ("=" + q);
    FinishRoundTrip(name, isExport, v);
    if isExport {
      ParseExported(name, q, Assignment(name, v, false, true));
    } else {
      assert "" + (name + ("=" + q)) == name + ("=" + q);
      ParsePlain(name, q, Assignment(name, v, false, false));
    }
  }

  // ----- the whole line -----

  lemma StatementEnds(isExport: bool, name: string, v: string)
    requires ValidName(name)
    ensures var u := Statement(isExport, name, v);
            u != "" && !IsSpace(u[0]) && u[0] != '#' && !IsSpace(u[|u| - 1])
  {
    var u, q := Statement(isExport, name, v), ChooseQuoting(v);
    if q == "" {
      assert u[|u| - 1] == '=';
    } else {
      assert u[|u| - 1] == q[|q| - 1];
    }
    assert u[0] == if isExport then 'e' else name[0];
  }

  lemma FirstLineStart(s: string)
    requires s != "" && !IsSpace(s[0]) && s[0] != '#'
    ensures !StartsWithHash(SkipSpace(s[..LineEnd(s)]))
  {
    assert s[..LineEnd(s)][0] == s[0];
  }

  /** The quoting round trip, exactly. A printed assignment is one logical line; it reads back as the
      same name and value, with no reference, precisely when the value is quotable. Otherwise the
      scanner finds the line unterminated. */
  lemma QuotingRoundTrip(isExport: bool, name: string, v: string)
    requires ValidName(name)
    ensures var text := Statement(isExport, name, v) + "\n";
            Lines(text) == [Line(text, if Quotable(v) then Assign(Assignment(name, v, false, isExport))
                                       else Unsupported(UnterminatedLine))]
  {
    hide Statement, Quotable, ParsedAssignment, LogicalEnd, ChooseQuoting, ValidName;
    var u := Statement(isExport, name, v);
    var text := u + "\n";
    StatementEnds(isExport, name, v);
    FirstLineStart(text);
    StatementExtent(isExport, name, v);
    if Quotable(v) {
      assert text[..|text|] == text;
      assert text[..|text| - 1] == u;
      ParseRoundTrip(isExport, name, v);
      assert TrimEnd(text) == u;
      assert SkipSpace(u) == u;
    }
    assert FirstLine(text).text == text;
    assert text[|text|..] == "";
  }

  lemma StatementExtent(isExport: bool, name: string, v: string)
    requires ValidName(name)
    ensures var text := Statement(isExport, name, v) + "\n";
            LogicalEnd(text, Complete) == if Quotable(v) then Terminated(|text|, |text|) else Unterminated(|text|)
  {
    var u := Statement(isExport, name, v);
    ScanStatement(isExport, name, v);
    Absorb(Complete, u, "\n");
    assert "\n"[..1] == "\n" && "\n"[1..] == "";
  }
}

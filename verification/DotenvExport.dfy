/** What a re-import of an exported document yields. */
module DotenvExport {
  import opened Prelude
  import opened DotenvScanner
  import opened DotenvValue
  import opened DotenvParser
  import opened DotenvLines
  import opened DotenvStanding
  import opened DotenvQuoting
  import opened DotenvDocument

  // ----- export without edits -----

  function Loaded(schema: seq<string>, lines: seq<Line>): map<string, FieldState> {
    map name | name in schema :: LoadedState(lines, name)
  }

  lemma {:induction false} BodyWithoutEdits(lines: seq<Line>, seen: set<string>, fields: map<string, FieldState>)
    ensures ExportedBody(lines, seen, fields, {}) == Join(lines)
  {
    if lines != [] {
      BodyWithoutEdits(lines[1..], Seeing(seen, lines[0]), fields);
    }
  }

  lemma {:induction false} NewKeysAreEdited(schema: seq<string>, lines: seq<Line>, fields: map<string, FieldState>)
    ensures forall k :: k in NewKeys(schema, lines, fields) <==> k in schema && IsNewKey(lines, fields, k)
    ensures forall k :: k in NewKeys(schema, lines, fields) ==> k in EditedKeys(lines, fields)
  {
    if schema != [] {
      NewKeysAreEdited(schema[1..], lines, fields);
    }
  }

  /** Importing any document and exporting it unchanged gives back the document, character for character. */
  lemma UneditedExportIsIdentity(schema: seq<string>, source: string)
    ensures Exported(schema, Lines(source), Loaded(schema, Lines(source))) == source
  {
    hide Lines, Effective;
    var lines := Lines(source);
    var fields := Loaded(schema, lines);
    assert EditedKeys(lines, fields) == {};
    NewKeysAreEdited(schema, lines, fields);
    BodyWithoutEdits(lines, {}, fields);
    LinesPartition(source);
  }

  // ----- export with edits -----

  function Given(name: string, st: FieldState, isExport: bool): Line {
    Line(Statement(isExport, name, st.value) + "\n", Assign(Assignment(name, st.value, false, isExport)))
  }

  predicate IsRewritten(l: Line, seen: set<string>, fields: map<string, FieldState>, edited: set<string>) {
    l.body.Assign? && l.body.assignment.key in fields && l.body.assignment.key !in seen
      && l.body.assignment.key in edited
  }

  /** Only the effective assignment of an edited key changes: it takes the new value, or disappears. */
  function RewrittenLine(l: Line, seen: set<string>, fields: map<string, FieldState>, edited: set<string>): seq<Line> {
    if !IsRewritten(l, seen, fields, edited) then [l]
    else if fields[l.body.assignment.key].enabled
    then [Given(l.body.assignment.key, fields[l.body.assignment.key], l.body.assignment.isExport)]
    else []
  }

  function Rewritten(lines: seq<Line>, seen: set<string>, fields: map<string, FieldState>,
                     edited: set<string>): seq<Line>
    decreases |lines|
  {
    if lines == [] then []
    else RewrittenLine(lines[0], seen, fields, edited) + Rewritten(lines[1..], Seeing(seen, lines[0]), fields, edited)
  }

  function AddedLines(keys: seq<string>, fields: map<string, FieldState>): seq<Line>
    requires forall k :: k in keys ==> k in fields
  {
    if keys == [] then [] else [Given(keys[0], fields[keys[0]], false)] + AddedLines(keys[1..], fields)
  }

  function Appendix(before: string, keys: seq<string>, fields: map<string, FieldState>): seq<Line>
    requires forall k :: k in keys ==> k in fields
  {
    if keys == [] then []
    else (if Separator(before) == "" then [] else [Line("\n", Blank)])
         + [Line(OPENING_REMARK, Remark)] + AddedLines(keys, fields) + [Line(CLOSING_REMARK, Remark)]
  }

  /** The document the editor means to write: the new block, if there is one, after a finished last line. */
  function Intended(schema: seq<string>, lines: seq<Line>, fields: map<string, FieldState>): seq<Line> {
    var body, keys := Rewritten(lines, {}, fields, EditedKeys(lines, fields)), NewKeys(schema, lines, fields);
    if keys == [] then body else FinishLast(body) + Appendix(Join(FinishLast(body)), keys, fields)
  }

  /** Every edited field is switched off, or holds a value that can be quoted. */
  ghost predicate Writable(fields: map<string, FieldState>, edited: set<string>) {
    forall k :: k in edited ==>
        k in fields && ValidName(k) && (fields[k].enabled ==> !fields[k].hasReference && Quotable(fields[k].value))
  }

  lemma GivenStands(name: string, st: FieldState, isExport: bool)
    requires ValidName(name) && st.enabled && !st.hasReference && Quotable(st.value)
    ensures Stands(Given(name, st, isExport)) && Serialized(isExport, name, st) == Given(name, st, isExport).text
  {
    hide Lines, Statement, Quotable, ValidName;
    QuotingRoundTrip(isExport, name, st.value);
  }

  lemma RewrittenLineText(l: Line, seen: set<string>, fields: map<string, FieldState>, edited: set<string>)
    requires Writable(fields, edited) && Alone(l)
    ensures Sound(RewrittenLine(l, seen, fields, edited))
    ensures Stands(l) ==> AllStand(RewrittenLine(l, seen, fields, edited))
    ensures Join(RewrittenLine(l, seen, fields, edited)) == ExportedLine(l, seen, fields, edited)
  {
    hide Lines, Stands, Alone, Sound, Given, Statement, Quotable, ValidName;
    NothingSound();
    if IsRewritten(l, seen, fields, edited) {
      var key := l.body.assignment.key;
      if fields[key].enabled {
        var given := Given(key, fields[key], l.body.assignment.isExport);
        GivenStands(key, fields[key], l.body.assignment.isExport);
        JoinOne(given);
        StandingIsAlone(given);
        SoundOne(given);
      }
    } else {
      JoinOne(l);
      SoundOne(l);
    }
  }

  lemma RewrittenUnfolds(lines: seq<Line>, seen: set<string>, fields: map<string, FieldState>, edited: set<string>)
    requires lines != []
    ensures var later := Seeing(seen, lines[0]);
            && Rewritten(lines, seen, fields, edited)
               == RewrittenLine(lines[0], seen, fields, edited) + Rewritten(lines[1..], later, fields, edited)
            && ExportedBody(lines, seen, fields, edited)
               == ExportedLine(lines[0], seen, fields, edited) + ExportedBody(lines[1..], later, fields, edited)
  {
    hide RewrittenLine, ExportedLine;
  }

  lemma NothingRewritten(seen: set<string>, fields: map<string, FieldState>, edited: set<string>)
    ensures Rewritten([], seen, fields, edited) == [] && ExportedBody([], seen, fields, edited) == ""
  {
  }

  lemma {:induction false} RewrittenText(lines: seq<Line>, seen: set<string>, fields: map<string, FieldState>,
                                         edited: set<string>)
    requires Writable(fields, edited) && Sound(lines)
    ensures Sound(Rewritten(lines, seen, fields, edited))
    ensures Join(Rewritten(lines, seen, fields, edited)) == ExportedBody(lines, seen, fields, edited)
    decreases |lines|
  {
    hide *;
    if lines == [] {
      NothingRewritten(seen, fields, edited);
      NothingSound();
      NothingJoins();
    } else {
      var first, later := RewrittenLine(lines[0], seen, fields, edited), Seeing(seen, lines[0]);
      var rest := Rewritten(lines[1..], later, fields, edited);
      SoundHead(lines);
      RewrittenUnfolds(lines, seen, fields, edited);
      RewrittenLineText(lines[0], seen, fields, edited);
      RewrittenText(lines[1..], later, fields, edited);
      JoinConcat(first, rest);
      if |lines| > 1 {
        SoundConcat(first, rest);
      } else {
        NothingRewritten(later, fields, edited);
        assert lines[1..] == [] && first + [] == first;
      }
    }
  }

  lemma {:induction false} RewrittenStands(lines: seq<Line>, seen: set<string>, fields: map<string, FieldState>,
                                           edited: set<string>)
    requires Writable(fields, edited) && AllStand(lines)
    ensures AllStand(Rewritten(lines, seen, fields, edited))
    decreases |lines|
  {
    hide *;
    if lines == [] {
      NothingRewritten(seen, fields, edited);
      NoneToStand();
    } else {
      var later := Seeing(seen, lines[0]);
      AllStandHead(lines);
      StandingIsAlone(lines[0]);
      RewrittenUnfolds(lines, seen, fields, edited);
      RewrittenLineText(lines[0], seen, fields, edited);
      RewrittenStands(lines[1..], later, fields, edited);
      StandsConcat(RewrittenLine(lines[0], seen, fields, edited), Rewritten(lines[1..], later, fields, edited));
    }
  }

  /** An unterminated last line. */
  predicate Unfinished(lines: seq<Line>) {
    lines != [] && lines[|lines| - 1].body == Unsupported(UnterminatedLine)
  }

  lemma RewrittenLineEnd(l: Line, seen: set<string>, fields: map<string, FieldState>, edited: set<string>)
    ensures Unfinished(RewrittenLine(l, seen, fields, edited)) <==> l.body == Unsupported(UnterminatedLine)
    ensures l.body == Unsupported(UnterminatedLine) ==> RewrittenLine(l, seen, fields, edited) == [l]
  {
    hide Statement;
  }

  /** The last line of the rewritten body is unterminated exactly when that of the document is, and
      then it is that line. */
  lemma {:induction false} RewrittenEnd(lines: seq<Line>, seen: set<string>, fields: map<string, FieldState>,
                                        edited: set<string>)
    requires Sound(lines)
    ensures var body := Rewritten(lines, seen, fields, edited);
            && (Unfinished(body) <==> Unfinished(lines))
            && (Unfinished(lines) ==> body[|body| - 1] == lines[|lines| - 1])
    decreases |lines|
  {
    hide Sound, Stands, Alone, RewrittenLine, Rewritten;
    if lines == [] {
      NothingRewritten(seen, fields, edited);
    } else {
      var first, later := RewrittenLine(lines[0], seen, fields, edited), Seeing(seen, lines[0]);
      var rest := Rewritten(lines[1..], later, fields, edited);
      SoundHead(lines);
      RewrittenUnfolds(lines, seen, fields, edited);
      RewrittenLineEnd(lines[0], seen, fields, edited);
      RewrittenEnd(lines[1..], later, fields, edited);
      if |lines| > 1 {
        FinishedBody(lines[0]);
        LastOfBoth(first, rest);
      } else {
        NothingRewritten(later, fields, edited);
        assert lines[1..] == [] && first + [] == first;
      }
    }
  }

  lemma FinishedBody(l: Line)
    requires Stands(l)
    ensures l.body != Unsupported(UnterminatedLine)
  {
  }

  lemma LastOfBoth(first: seq<Line>, rest: seq<Line>)
    ensures rest != [] ==> (first + rest)[|first + rest| - 1] == rest[|rest| - 1]
    ensures rest == [] ==> first + rest == first
  {
  }

  lemma OpenEndStays(lines: seq<Line>, body: seq<Line>)
    requires Unfinished(body) <==> Unfinished(lines)
    requires Unfinished(lines) ==> body[|body| - 1] == lines[|lines| - 1]
    ensures OpenEnd(body) <==> OpenEnd(lines)
  {
    hide InQuote;
  }

  lemma {:induction false} AddedText(keys: seq<string>, fields: map<string, FieldState>, edited: set<string>)
    requires Writable(fields, edited) && forall k :: k in keys ==> k in edited && fields[k].enabled
    ensures AllStand(AddedLines(keys, fields)) && Join(AddedLines(keys, fields)) == Additions(keys, fields)
  {
    if keys != [] {
      hide Stands, AllStand, Join, Given, Serialized, Quotable, ValidName;
      assert keys[0] in keys;
      GivenStands(keys[0], fields[keys[0]], false);
      AddedText(keys[1..], fields, edited);
      StandsCons(Given(keys[0], fields[keys[0]], false), AddedLines(keys[1..], fields));
    }
  }

  lemma {:induction false} OneLine(u: string)
    requires '\n' !in u
    ensures LineEnd(u + "\n") == |u| + 1
  {
    if u != "" {
      assert (u + "\n")[1..] == u[1..] + "\n";
      OneLine(u[1..]);
    }
  }

  lemma RemarkStands(u: string)
    requires u != "" && u[0] == '#' && '\n' !in u
    ensures Stands(Line(u + "\n", Remark))
  {
    var text := u + "\n";
    OneLine(u);
    assert text[..|text|] == text && text[|text|..] == "";
    assert SkipSpace(text) == text;
    assert FirstLine(text) == Line(text, Remark);
    hide FirstLine, Lines;
    LinesUnfold(text);
    NoLines();
  }

  lemma BlankStands()
    ensures Stands(Line("\n", Blank))
  {
    var s := "\n";
    assert s[..1] == s && s[1..] == "";
    assert Scan(Complete, s) == Complete;
    assert TrimEnd(s) == "" by { assert s[..0] == ""; }
    assert FirstLine(s) == Line(s, Blank);
  }

  lemma AppendixText(before: string, keys: seq<string>, fields: map<string, FieldState>, edited: set<string>)
    requires Writable(fields, edited) && forall k :: k in keys ==> k in edited && fields[k].enabled
    requires before == "" || EndsWithNewline(before)
    ensures AllStand(Appendix(before, keys, fields))
    ensures Join(Appendix(before, keys, fields)) ==
            if keys == [] then "" else Separator(before) + OPENING_REMARK + Additions(keys, fields) + CLOSING_REMARK
  {
    if keys != [] {
      hide Stands, AllStand, Join, AddedLines, Additions, Writable;
      RemarkLines();
      AddedText(keys, fields, edited);
      SeparatorText(before);
      BracketedText(if Separator(before) == "" then [] else [Line("\n", Blank)],
                    Line(OPENING_REMARK, Remark), AddedLines(keys, fields), Line(CLOSING_REMARK, Remark));
    }
  }

  lemma BracketedText(separator: seq<Line>, opening: Line, added: seq<Line>, closing: Line)
    requires AllStand(separator) && Stands(opening) && AllStand(added) && Stands(closing)
    ensures AllStand(separator + [opening] + added + [closing])
    ensures Join(separator + [opening] + added + [closing]) == Join(separator) + opening.text + Join(added)
            + closing.text
  {
    hide Stands, Join;
    JoinOne(opening);
    JoinOne(closing);
    JoinConcat(separator, [opening]);
    JoinConcat(separator + [opening], added);
    JoinConcat(separator + [opening] + added, [closing]);
  }

  lemma SeparatorText(before: string)
    requires before == "" || EndsWithNewline(before)
    ensures var separator := if Separator(before) == "" then [] else [Line("\n", Blank)];
            AllStand(separator) && Join(separator) == Separator(before)
  {
    BlankStands();
    JoinOne(Line("\n", Blank));
  }

  lemma RemarkLines()
    ensures Stands(Line(OPENING_REMARK, Remark)) && Stands(Line(CLOSING_REMARK, Remark))
  {
    hide Stands;
    RemarkStands("# --- Almond configuration" + " (added by config editor) ---");
    RemarkStands("# --- end Almond" + " configuration ---");
  }

  lemma Regroup(a: string, b: string, c: string, d: string, e: string)
    ensures a + (b + c + d + e) == a + b + c + d + e
  {
  }

  /** Whether the text ends with a newline or not, the separator comes to the same. */
  lemma SeparatorFinishes(text: string)
    ensures var done := if text == "" || EndsWithNewline(text) then text else text + "\n";
            && (done == "" || EndsWithNewline(done)) && done + Separator(done) == text + Separator(text)
  {
    var done := if text == "" || EndsWithNewline(text) then text else text + "\n";
    if done != text {
      assert done[|done| - 1] == '\n' && |text| > 0 && done[|done| - 2] == text[|text| - 1] != '\n';
      assert done[|done| - 2..] != "\n\n";
      assert text[|text| - 1] != '\n';
      assert |text| >= 2 ==> text[|text| - 2..][1] != '\n';
      assert (text + "\n") + "\n" == text + "\n\n";
    }
  }

  lemma ExportUnfolds(schema: seq<string>, lines: seq<Line>, fields: map<string, FieldState>)
    ensures var out, keys := ExportedBody(lines, {}, fields, EditedKeys(lines, fields)), NewKeys(schema, lines, fields);
            Exported(schema, lines, fields) ==
            if keys == [] then out else out + Separator(out) + OPENING_REMARK + Additions(keys, fields) + CLOSING_REMARK
  {
    hide ExportedBody, EditedKeys, NewKeys, Separator, Additions;
  }

  lemma IntendedUnfolds(schema: seq<string>, lines: seq<Line>, fields: map<string, FieldState>)
    ensures var body, keys := Rewritten(lines, {}, fields, EditedKeys(lines, fields)), NewKeys(schema, lines, fields);
            Intended(schema, lines, fields) ==
            if keys == [] then body else FinishLast(body) + Appendix(Join(FinishLast(body)), keys, fields)
  {
    hide Rewritten, EditedKeys, NewKeys, FinishLast, Appendix, Join;
  }

  /** The exported text is the intended lines, joined. */
  lemma ExportJoinsIntended(schema: seq<string>, lines: seq<Line>, fields: map<string, FieldState>)
    requires Sound(lines) && Writable(fields, EditedKeys(lines, fields))
    requires NewKeys(schema, lines, fields) == [] || !OpenEnd(lines)
    ensures Sound(Intended(schema, lines, fields))
            && Join(Intended(schema, lines, fields)) == Exported(schema, lines, fields)
    ensures AllStand(lines) ==> AllStand(Intended(schema, lines, fields))
  {
    hide *;
    var edited := EditedKeys(lines, fields);
    var body, keys := Rewritten(lines, {}, fields, edited), NewKeys(schema, lines, fields);
    ExportUnfolds(schema, lines, fields);
    IntendedUnfolds(schema, lines, fields);
    RewrittenText(lines, {}, fields, edited);
    if AllStand(lines) {
      RewrittenStands(lines, {}, fields, edited);
    }
    if keys != [] {
      RewrittenEnd(lines, {}, fields, edited);
      OpenEndStays(lines, body);
      FinishedStands(body);
      AppendedText(schema, lines, fields, edited, FinishLast(body), Join(body));
    }
  }

  lemma AppendedText(schema: seq<string>, lines: seq<Line>, fields: map<string, FieldState>, edited: set<string>,
                     done: seq<Line>, text: string)
    requires Writable(fields, edited) && edited == EditedKeys(lines, fields) && NewKeys(schema, lines, fields) != []
    requires AllStand(done) && Join(done) == if text == "" || EndsWithNewline(text) then text else text + "\n"
    ensures var keys := NewKeys(schema, lines, fields);
            && (forall k :: k in keys ==> k in fields)
            && AllStand(done + Appendix(Join(done), keys, fields)) && Sound(done + Appendix(Join(done), keys, fields))
            && Join(done + Appendix(Join(done), keys, fields))
               == text + Separator(text) + OPENING_REMARK + Additions(keys, fields) + CLOSING_REMARK
  {
    hide AllStand, Lines, Writable, EditedKeys, Join, Separator, Appendix, NewKeys, EndsWithNewline, Additions, Sound;
    var keys := NewKeys(schema, lines, fields);
    var before := Join(done);
    NewKeysAreEdited(schema, lines, fields);
    SeparatorFinishes(text);
    AppendixText(before, keys, fields, edited);
    JoinConcat(done, Appendix(before, keys, fields));
    StandsConcat(done, Appendix(before, keys, fields));
    StandingIsSound(done + Appendix(before, keys, fields));
    Regroup(before, Separator(before), OPENING_REMARK, Additions(keys, fields), CLOSING_REMARK);
  }

  /** Re-import after export, for every document: unless new assignments follow a quote left open, the
      exported text splits into exactly the intended lines. */
  lemma ReimportYieldsIntended(schema: seq<string>, source: string, fields: map<string, FieldState>)
    requires Writable(fields, EditedKeys(Lines(source), fields))
    requires NewKeys(schema, Lines(source), fields) == [] || !OpenEnd(Lines(source))
    ensures var out := Exported(schema, Lines(source), fields);
            Lines(out) == Intended(schema, Lines(source), fields) && (Closed(source) ==> Closed(out))
  {
    hide *;
    LinesSound(source);
    ExportJoinsIntended(schema, Lines(source), fields);
    SplitJoinSound(Intended(schema, Lines(source), fields));
    if Closed(source) {
      ClosedLinesStand(source);
      SplitJoin(Intended(schema, Lines(source), fields));
    }
  }

  // ----- a quote left open -----

  predicate NoQuotes(u: string) {
    forall i :: 0 <= i < |u| ==> u[i] != '\'' && u[i] != '"' && u[i] != '\\'
  }

  lemma {:induction false} PlainInQuote(state: ScanState, u: string)
    requires InQuote(state) && NoQuotes(u)
    ensures Quiet(state, u) && InQuote(Scan(state, u))
    decreases |u|
  {
    if u != "" {
      assert NoQuotes(u[1..]);
      PlainInQuote(Next(state, u[0]), u[1..]);
    }
  }

  lemma CommentTerminates(state: ScanState, c: char, rest: string)
    requires Next(state, c) == Comment || (c == '\n' && Next(state, c) == Complete)
    ensures LogicalEnd([c] + rest, state).Terminated?
  {
    hide LogicalEnd, Next, Scan, CommentAt;
    var s := [c] + rest;
    LogicalEndUnfold(s, state);
    if c == '\n' {
      assert s[..1] == [c] + "" && LineEnd(s) == 1;
      ScanCons(state, c, "");
      ScanNothing(Next(state, c));
    } else {
      FirstLineOfCons(c, rest);
      ScanCons(state, c, rest[..LineEnd(rest)]);
      CommentAbsorbs(rest[..LineEnd(rest)]);
    }
  }

  lemma LoneCharacter(state: ScanState, c: char)
    requires LogicalEnd([c], state).Unterminated?
    ensures Quiet(state, [c])
  {
    assert [c] == [c] + "";
    if Next(state, c) == Comment || (c == '\n' && Next(state, c) == Complete) {
      CommentTerminates(state, c, "");
      assert false;
    }
    hide LogicalEnd, Next;
    assert [c][1..] == "";
  }

  lemma QuietCons(state: ScanState, c: char, rest: string)
    requires Next(state, c) != Comment && (c == '\n' ==> Next(state, c) != Complete) && Quiet(Next(state, c), rest)
    ensures Quiet(state, [c] + rest)
  {
    hide Next;
    assert ([c] + rest)[1..] == rest;
  }

  /** An unterminated value opens no comment and is complete at none of its newlines. */
  lemma {:induction false} UnterminatedIsQuiet(t: string, state: ScanState)
    requires t != "" && LogicalEnd(t, state).Unterminated?
    ensures Quiet(state, t)
    decreases |t|
  {
    hide *;
    var c, rest := t[0], t[1..];
    assert t == [c] + rest;
    if rest == "" {
      assert t == [c];
      LoneCharacter(state, c);
    } else {
      if Next(state, c) == Comment || (c == '\n' && Next(state, c) == Complete) {
        CommentTerminates(state, c, rest);
        assert false;
      }
      AbsorbOne(state, c, rest);
      ShiftKeepsKind(1, LogicalEnd(rest, Next(state, c)));
      UnterminatedIsQuiet(rest, Next(state, c));
      QuietCons(state, c, rest);
    }
  }

  lemma ShiftKeepsKind(k: nat, e: Extent)
    ensures Shift(k, e).Unterminated? == e.Unterminated? && Shift(k, e).end == k + e.end
  {
  }

  lemma {:induction false} BlankIsNotOpen(state: ScanState, t: string)
    requires SkipSpace(t) == "" && (state == Complete || state == WhiteSpace)
    ensures Scan(state, t) == Complete || Scan(state, t) == WhiteSpace
    decreases |t|
  {
    if t != "" {
      BlankIsNotOpen(Next(state, t[0]), t[1..]);
    }
  }

  lemma {:induction false} LineEndPast(t: string, x: string)
    requires LineEnd(t) == |t| && !EndsWithNewline(t)
    ensures LineEnd(t + x) == |t| + LineEnd(x)
  {
    if t == "" {
      assert t + x == x;
    } else {
      assert (t + x)[1..] == t[1..] + x;
      LineEndPast(t[1..], x);
    }
  }

  lemma StillNoRemark(t: string, x: string)
    requires t != "" && SkipSpace(t) != "" && !StartsWithHash(SkipSpace(t[..LineEnd(t)]))
    ensures !StartsWithHash(SkipSpace((t + x)[..LineEnd(t + x)]))
  {
    hide LineEnd, SkipSpace;
    LineEndIsInside(t);
    if LineEnd(t) < |t| || EndsWithNewline(t) {
      if LineEnd(t) < |t| {
        LineEndInterior(t);
      }
      LineEndSplit(t, x);
    } else {
      LineEndPast(t, x);
      assert (t + x)[..|t| + LineEnd(x)] == t + x[..LineEnd(x)] && t[..LineEnd(t)] == t;
      SkipSpaceOn(t, x[..LineEnd(x)]);
      assert (SkipSpace(t) + x[..LineEnd(x)])[0] == SkipSpace(t)[0];
    }
  }

  /** Whatever plain text follows a quote left open belongs to its line, and so does something of what
      comes after that. */
  lemma OpenLineSwallows(l: Line, u: string, rest: string)
    requires Alone(l) && LeftOpen(l) && NoQuotes(u) && rest != ""
    ensures l.text + u < FirstLine(l.text + u + rest).text
  {
    hide *;
    var t := l.text;
    AloneReads(l);
    FirstLineText(t);
    OpenParts(l);
    assert LogicalEnd(t, Complete).Unterminated?;
    UnterminatedIsQuiet(t, Complete);
    PlainInQuote(Scan(Complete, t), u);
    QuietAppend(Complete, t, u);
    Absorb(Complete, t + u, rest);
    ShiftKeepsKind(|t + u|, LogicalEnd(rest, Scan(Complete, t + u)));
    if SkipSpace(t) == "" {
      BlankIsNotOpen(Complete, t);
      assert false;
    }
    StillNoRemark(t, u + rest);
    assert t + u + rest == t + (u + rest);
    FirstLineText(t + u + rest);
    FirstLineText(rest);
    SomethingRead(rest, Scan(Complete, t + u));
    PrefixOfPrefix(t + u, rest, LogicalEnd(t + u + rest, Complete).end);
  }

  lemma PrefixOfPrefix(p: string, rest: string, n: nat)
    requires |p| < n <= |p + rest|
    ensures p < (p + rest)[..n]
  {
  }

  lemma SomethingRead(s: string, state: ScanState)
    requires s != ""
    ensures LogicalEnd(s, state).end > 0
  {
  }

  lemma OpenParts(l: Line)
    requires LeftOpen(l)
    ensures l.body == Unsupported(UnterminatedLine) && InQuote(Scan(Complete, l.text))
    ensures Scan(Complete, l.text) != Complete && Scan(Complete, l.text) != WhiteSpace
  {
  }

  lemma BlockOpening(text: string)
    ensures NoQuotes(Separator(text) + OPENING_REMARK)
  {
    assert NoQuotes("# --- Almond configuration");
    assert NoQuotes(" (added by config editor) ---");
    assert NoQuotes(Separator(text));
  }

  /** New assignments after a quote left open are swallowed by it: the line with the quote goes on past
      the opening remark of the block, into the first new assignment. */
  lemma NewKeysSwallowed(schema: seq<string>, source: string, fields: map<string, FieldState>)
    requires Writable(fields, EditedKeys(Lines(source), fields))
    requires NewKeys(schema, Lines(source), fields) != [] && OpenEnd(Lines(source))
    ensures var lines := Lines(source); var body := Rewritten(lines, {}, fields, EditedKeys(lines, fields));
            var out := Exported(schema, lines, fields); var n := |body| - 1;
            && 0 <= n < |Lines(out)| && Lines(out)[..n] == body[..n] && body[n] == lines[|lines| - 1]
            && body[n].text + (Separator(Join(body)) + OPENING_REMARK) < Lines(out)[n].text
  {
    hide *;
    var lines := Lines(source);
    var edited := EditedKeys(lines, fields);
    var body, keys := Rewritten(lines, {}, fields, edited), NewKeys(schema, lines, fields);
    LinesSound(source);
    RewrittenText(lines, {}, fields, edited);
    RewrittenEnd(lines, {}, fields, edited);
    OpenEndLast(lines);
    OpenEndStays(lines, body);
    OpenEndLast(body);
    var front, last := body[..|body| - 1], body[|body| - 1];
    assert body == front + [last];
    SoundSplit(body);
    JoinSnoc(front, last);
    ExportUnfolds(schema, lines, fields);
    var text := Join(body);
    BlockOpening(text);
    var opening, rest := Separator(text) + OPENING_REMARK, Additions(keys, fields) + CLOSING_REMARK;
    ClosingIsThere(Additions(keys, fields));
    OpenLineSwallows(last, opening, rest);
    SplitJoin(front);
    SplitIsLocal(Join(front), last.text + opening + rest);
    LinesUnfold(last.text + opening + rest);
    Spread(Join(front), last.text, Separator(text), OPENING_REMARK, Additions(keys, fields), CLOSING_REMARK);
  }

  lemma ClosingIsThere(additions: string)
    ensures additions + CLOSING_REMARK != ""
  {
    assert CLOSING_REMARK[0] == '#';
  }

  lemma OpenEndLast(lines: seq<Line>)
    requires OpenEnd(lines)
    ensures lines != [] && Unfinished(lines) && LeftOpen(lines[|lines| - 1])
  {
  }

  lemma Spread(a: string, b: string, c: string, d: string, e: string, f: string)
    ensures (a + b) + c + d + e + f == a + (b + (c + d) + (e + f))
  {
    assert (a + b) + c + d == a + (b + (c + d));
    assert a + (b + (c + d)) + e + f == a + (b + (c + d)) + (e + f);
  }

  /** Re-import yields the intended lines exactly when there is nothing to add or the last line of the
      document does not end inside a quote. */
  lemma ReimportExactly(schema: seq<string>, source: string, fields: map<string, FieldState>)
    requires Writable(fields, EditedKeys(Lines(source), fields))
    ensures Lines(Exported(schema, Lines(source), fields)) == Intended(schema, Lines(source), fields)
            <==> NewKeys(schema, Lines(source), fields) == [] || !OpenEnd(Lines(source))
  {
    hide *;
    var lines := Lines(source);
    if NewKeys(schema, lines, fields) == [] || !OpenEnd(lines) {
      ReimportYieldsIntended(schema, source, fields);
    } else {
      var body := Rewritten(lines, {}, fields, EditedKeys(lines, fields));
      NewKeysSwallowed(schema, source, fields);
      IntendedUnfolds(schema, lines, fields);
      FinishedParts(body);
      FinishIsShort(body[|body| - 1], Separator(Join(body)));
    }
  }

  lemma FinishIsShort(l: Line, separator: string)
    ensures |Finish(l).text| <= |l.text + (separator + OPENING_REMARK)|
  {
    assert OPENING_REMARK[0] == '#';
  }

  lemma ClosedEnds(s: string)
    requires Closed(s)
    ensures s == "" || EndsWithNewline(s)
  {
  }

  // ----- the values a re-import loads -----

  /** The lines after the first assignment to `key`. */
  function AfterFirst(lines: seq<Line>, key: string): seq<Line> {
    if lines == [] then [] else if Assigns(lines[0].body, key) then lines[1..] else AfterFirst(lines[1..], key)
  }

  /** What the body keeps for `key`: the old assignment, the new value in its place, or, when the key
      is switched off, its second assignment, if it has one. */
  function Kept(lines: seq<Line>, fields: map<string, FieldState>, key: string): Option<Assignment> {
    var original := Effective(lines, key);
    if key !in EditedKeys(lines, fields) then original
    else if original.None? then None
    else if fields[key].enabled then Some(Assignment(key, fields[key].value, false, original.value.isExport))
    else Effective(AfterFirst(lines, key), key)
  }

  /** The assignment that an unterminated last line turns into when a newline finishes it. */
  function Surfaced(lines: seq<Line>, key: string): Option<Assignment> {
    if Unfinished(lines) && Assigns(Finish(lines[|lines| - 1]).body, key)
    then Some(Finish(lines[|lines| - 1]).body.assignment) else None
  }

  /** The assignment a re-import should find effective for `key`. */
  function Expected(schema: seq<string>, lines: seq<Line>, fields: map<string, FieldState>,
                    key: string): Option<Assignment>
  {
    var kept, keys := Kept(lines, fields, key), NewKeys(schema, lines, fields);
    if kept.Some? || keys == [] then kept
    else if Surfaced(lines, key).Some? then Surfaced(lines, key)
    else if key in keys then Some(Assignment(key, fields[key].value, false, false))
    else None
  }

  lemma {:induction false} EffectiveConcat(a: seq<Line>, b: seq<Line>, key: string)
    ensures Effective(a + b, key) == if Effective(a, key).Some? then Effective(a, key) else Effective(b, key)
  {
    if a == [] {
      assert a + b == b;
    } else {
      assert (a + b)[1..] == a[1..] + b;
      EffectiveConcat(a[1..], b, key);
    }
  }

  lemma {:induction false} RewrittenSeen(lines: seq<Line>, seen: set<string>, fields: map<string, FieldState>,
                                         edited: set<string>, key: string)
    requires key in seen || key !in fields || key !in edited
    ensures Effective(Rewritten(lines, seen, fields, edited), key) == Effective(lines, key)
    decreases |lines|
  {
    if lines != [] {
      var first, rest := RewrittenLine(lines[0], seen, fields, edited), Rewritten(lines[1..], Seeing(seen, lines[0]),
              fields, edited);
      EffectiveConcat(first, rest, key);
      RewrittenSeen(lines[1..], Seeing(seen, lines[0]), fields, edited, key);
    }
  }

  lemma {:induction false} RewrittenEdited(lines: seq<Line>, seen: set<string>, fields: map<string, FieldState>,
                                           edited: set<string>, key: string)
    requires key !in seen && key in fields && key in edited
    ensures Effective(Rewritten(lines, seen, fields, edited), key) ==
            if Effective(lines, key).None? then None
            else if fields[key].enabled
              then Some(Assignment(key, fields[key].value, false, Effective(lines, key).value.isExport))
            else Effective(AfterFirst(lines, key), key)
    decreases |lines|
  {
    if lines != [] {
      var first, rest := RewrittenLine(lines[0], seen, fields, edited), Rewritten(lines[1..], Seeing(seen, lines[0]),
              fields, edited);
      EffectiveConcat(first, rest, key);
      if Assigns(lines[0].body, key) {
        RewrittenSeen(lines[1..], Seeing(seen, lines[0]), fields, edited, key);
      } else {
        RewrittenEdited(lines[1..], Seeing(seen, lines[0]), fields, edited, key);
      }
    }
  }

  lemma {:induction false} AddedEffective(keys: seq<string>, fields: map<string, FieldState>, key: string)
    requires forall k :: k in keys ==> k in fields
    ensures Effective(AddedLines(keys, fields), key) ==
            if key in keys then Some(Assignment(key, fields[key].value, false, false)) else None
  {
    if keys != [] {
      hide Statement;
      AddedEffective(keys[1..], fields, key);
    }
  }

  lemma AppendixEffective(before: string, keys: seq<string>, fields: map<string, FieldState>, key: string)
    requires forall k :: k in keys ==> k in fields
    ensures Effective(Appendix(before, keys, fields), key) ==
            if key in keys then Some(Assignment(key, fields[key].value, false, false)) else None
  {
    if keys != [] {
      hide AddedLines, Separator;
      var separator := if Separator(before) == "" then [] else [Line("\n", Blank)];
      var opening, closing := [Line(OPENING_REMARK, Remark)], [Line(CLOSING_REMARK, Remark)];
      var added := AddedLines(keys, fields);
      AddedEffective(keys, fields, key);
      EffectiveConcat(separator, opening, key);
      EffectiveConcat(separator + opening, added, key);
      EffectiveConcat(separator + opening + added, closing, key);
    }
  }

  lemma KeptByBody(lines: seq<Line>, fields: map<string, FieldState>, key: string)
    ensures Effective(Rewritten(lines, {}, fields, EditedKeys(lines, fields)), key) == Kept(lines, fields, key)
  {
    hide Effective, Rewritten, AfterFirst;
    var edited := EditedKeys(lines, fields);
    if key in edited {
      RewrittenEdited(lines, {}, fields, edited, key);
    } else {
      RewrittenSeen(lines, {}, fields, edited, key);
    }
  }

  lemma EffectiveOne(l: Line, key: string)
    ensures Effective([l], key) == if Assigns(l.body, key) then Some(l.body.assignment) else None
  {
    assert [l][1..] == [];
  }

  lemma FinishKeepsBody(l: Line)
    ensures l.body != Unsupported(UnterminatedLine) ==> Finish(l).body == l.body
  {
  }

  lemma SurfacedLast(lines: seq<Line>, key: string)
    requires lines != []
    ensures Surfaced(lines, key) ==
            var last := lines[|lines| - 1];
            if last.body == Unsupported(UnterminatedLine) && Assigns(Finish(last).body, key)
              then Some(Finish(last).body.assignment)
            else None
  {
    hide Finish;
  }

  lemma EffectiveFinished(lines: seq<Line>, key: string)
    ensures Effective(FinishLast(lines), key) ==
            if Effective(lines, key).Some? then Effective(lines, key) else Surfaced(lines, key)
  {
    hide Effective, Finish, FinishLast, Surfaced;
    FinishedParts(lines);
    if lines == [] {
      NothingSurfaces(key);
    } else {
      var front, last := lines[..|lines| - 1], lines[|lines| - 1];
      assert lines == front + [last];
      EffectiveConcat(front, [last], key);
      EffectiveConcat(front, [Finish(last)], key);
      EffectiveOne(last, key);
      EffectiveOne(Finish(last), key);
      FinishKeepsBody(last);
      SurfacedLast(lines, key);
    }
  }

  lemma NothingSurfaces(key: string)
    ensures Surfaced([], key).None? && Effective([], key).None?
  {
  }

  lemma SurfacedSame(lines: seq<Line>, body: seq<Line>, key: string)
    requires Unfinished(body) <==> Unfinished(lines)
    requires Unfinished(lines) ==> body[|body| - 1] == lines[|lines| - 1]
    ensures Surfaced(body, key) == Surfaced(lines, key)
  {
    hide Finish;
  }

  /** Every key, edited or not, known or not, reads back from the exported document as expected, whatever
      the document: only a quote left open in front of new assignments is excluded. */
  lemma ReimportedValues(schema: seq<string>, source: string, fields: map<string, FieldState>, key: string)
    requires Writable(fields, EditedKeys(Lines(source), fields)) && fields.Keys == set name | name in schema
    requires NewKeys(schema, Lines(source), fields) == [] || !OpenEnd(Lines(source))
    ensures Effective(Lines(Exported(schema, Lines(source), fields)), key)
            == Expected(schema, Lines(source), fields, key)
  {
    hide *;
    var lines := Lines(source);
    var body, keys := Rewritten(lines, {}, fields, EditedKeys(lines, fields)), NewKeys(schema, lines, fields);
    ReimportYieldsIntended(schema, source, fields);
    IntendedUnfolds(schema, lines, fields);
    KeptByBody(lines, fields, key);
    ExpectedUnfolds(schema, lines, fields, key);
    if keys != [] {
      NewKeysAreEdited(schema, lines, fields);
      AddedAreFields(schema, lines, fields);
      EffectiveConcat(FinishLast(body), Appendix(Join(FinishLast(body)), keys, fields), key);
      EffectiveFinished(body, key);
      AppendixEffective(Join(FinishLast(body)), keys, fields, key);
      LinesSound(source);
      RewrittenEnd(lines, {}, fields, EditedKeys(lines, fields));
      SurfacedSame(lines, body, key);
    }
  }

  lemma AddedAreFields(schema: seq<string>, lines: seq<Line>, fields: map<string, FieldState>)
    ensures forall k :: k in NewKeys(schema, lines, fields) ==> k in fields
  {
  }

  lemma ExpectedUnfolds(schema: seq<string>, lines: seq<Line>, fields: map<string, FieldState>, key: string)
    ensures var kept, keys := Kept(lines, fields, key), NewKeys(schema, lines, fields);
            && (forall k :: k in keys ==> k in fields)
            && Expected(schema, lines, fields, key) ==
               if kept.Some? || keys == [] then kept
               else if Surfaced(lines, key).Some? then Surfaced(lines, key)
               else if key in keys then Some(Assignment(key, fields[key].value, false, false))
               else None
  {
    hide Kept, NewKeys, Surfaced;
  }

  /** The two forms agree on which fields are switched on, and on what those say. */
  ghost predicate SameForm(a: map<string, FieldState>, b: map<string, FieldState>) {
    && a.Keys == b.Keys
    && forall k :: k in a ==> a[k].enabled == b[k].enabled && (a[k].enabled ==> a[k] == b[k])
  }

  /** What a newline in front of the new block makes of an unterminated last line. */
  function SurfacedByBlock(schema: seq<string>, lines: seq<Line>, fields: map<string, FieldState>,
                           key: string): Option<Assignment>
  {
    if NewKeys(schema, lines, fields) == [] then None else Surfaced(lines, key)
  }

  /** Whether the form's entry for `key` can be recovered from the exported document: a key that is
      switched off must not be assigned a second time, a field whose text equals the imported text must
      not have changed between reference and literal, and an unterminated last line that the new block
      turns into an assignment must not say otherwise. */
  predicate Recoverable(schema: seq<string>, lines: seq<Line>, fields: map<string, FieldState>, key: string)
    requires key in fields
  {
    var surfaced := SurfacedByBlock(schema, lines, fields, key);
    if Effective(lines, key).None? && surfaced.Some?
    then fields[key] == FieldState(true, surfaced.value.value, surfaced.value.hasReference)
    else if !fields[key].enabled then Effective(AfterFirst(lines, key), key).None? && surfaced.None?
    else key in EditedKeys(lines, fields) || fields[key].hasReference == LoadedState(lines, key).hasReference
  }

  /** Import, edit, export, import: the form comes back as it was left exactly when every entry of it
      is recoverable. */
  lemma FormSurvivesRoundTrip(schema: seq<string>, source: string, fields: map<string, FieldState>)
    requires Writable(fields, EditedKeys(Lines(source), fields)) && fields.Keys == set name | name in schema
    requires NewKeys(schema, Lines(source), fields) == [] || !OpenEnd(Lines(source))
    ensures SameForm(Loaded(schema, Lines(Exported(schema, Lines(source), fields))), fields)
            <==> forall k :: k in fields ==> Recoverable(schema, Lines(source), fields, k)
  {
    hide Lines, Effective, AfterFirst, Exported, NewKeys, OpenEnd, Writable, Recoverable, LoadedState;
    var lines, out := Lines(source), Exported(schema, Lines(source), fields);
    var again := Loaded(schema, Lines(out));
    forall k | k in fields
      ensures again[k].enabled == fields[k].enabled && (again[k].enabled ==> again[k] == fields[k])
              <==> Recoverable(schema, lines, fields, k)
    {
      ReimportedValues(schema, source, fields, k);
      EntryRecovers(schema, lines, fields, Lines(out), k);
    }
  }

  lemma EntryRecovers(schema: seq<string>, lines: seq<Line>, fields: map<string, FieldState>, again: seq<Line>,
                      k: string)
    requires Writable(fields, EditedKeys(lines, fields)) && fields.Keys == (set name | name in schema) && k in fields
    requires Effective(again, k) == Expected(schema, lines, fields, k)
    ensures var st := LoadedState(again, k);
            st.enabled == fields[k].enabled && (st.enabled ==> st == fields[k]) <==>
            Recoverable(schema, lines, fields, k)
  {
    hide Effective, AfterFirst, NewKeys, Surfaced, Quotable, ValidName;
    NewKeysAreEdited(schema, lines, fields);
    if Effective(lines, k).None? {
      NothingAfterNothing(lines, k);
    }
  }

  /** The two ways in which a form is not recoverable do occur. Switching `A` off in a document that
      assigns it twice brings back the second value; and replacing the reference `$B` by a literal of
      the same text leaves the reference in place. */
  lemma FormCanBeLost()
    ensures var source := "A=1\n" + "A=2\n";
            var fields := map["A" := FieldState(false, "", false)];
            LoadedState(Lines(Exported(["A"], Lines(source), fields)), "A") == FieldState(true, "2", false)
    ensures var source := "A=$B" + "\n";
            var fields := map["A" := FieldState(true, "$B", false)];
            LoadedState(Lines(Exported(["A"], Lines(source), fields)), "A") == FieldState(true, "$B", true)
  {
    TwoAssignments();
    OneReference();
    hide Lines;
    var first, second := Assignment("A", "1", false, false), Assignment("A", "2", false, false);
    var source := "A=1\n" + "A=2\n";
    var lines := [Line("A=1\n", Assign(first)), Line("A=2\n", Assign(second))];
    var fields := map["A" := FieldState(false, "", false)];
    ReimportedValues(["A"], source, fields, "A");
    assert Effective(lines, "A") == Some(first) && AfterFirst(lines, "A") == [lines[1]];
    assert Effective([lines[1]], "A") == Some(second);

    assert NewKeys(["A"], lines, fields) == [] by { NoNewKeys("A", lines, fields); }
    var literal := map["A" := FieldState(true, "$B", false)];
    NoNewKeys("A", Lines("A=$B" + "\n"), literal);
    ReimportedValues(["A"], "A=$B" + "\n", literal, "A");
  }

  lemma NoNewKeys(name: string, lines: seq<Line>, fields: map<string, FieldState>)
    requires name in fields && (fields[name].enabled ==> Effective(lines, name).Some?)
    ensures NewKeys([name], lines, fields) == []
  {
    hide Effective;
    assert [name][1..] == [];
  }

  lemma PlainStatement(v: string)
    requires v == "1" || v == "2"
    ensures Statement(false, "A", v) + "\n" == "A=" + v + "\n" && ValidName("A") && Quotable(v)
  {
    if v == "1" {
      assert ChooseQuoting("1") == "1";
    } else {
      assert ChooseQuoting("2") == "2";
    }
  }

  lemma PlainLine(v: string)
    requires v == "1" || v == "2"
    ensures var text := "A=" + v + "\n";
            Lines(text) == [Line(text, Assign(Assignment("A", v, false, false)))] && Closed(text)
  {
    PlainStatement(v);
    hide *;
    QuotingRoundTrip(false, "A", v);
  }

  lemma TwoAssignments()
    ensures Lines("A=1\n" + "A=2\n") ==
            [Line("A=1\n", Assign(Assignment("A", "1", false, false))),
             Line("A=2\n", Assign(Assignment("A", "2", false, false)))]
    ensures Closed("A=1\n" + "A=2\n")
  {
    hide *;
    PlainLine("1");
    PlainLine("2");
    assert "A=" + "1" + "\n" == "A=1\n" && "A=" + "2" + "\n" == "A=2\n";
    SplitIsLocal("A=1\n", "A=2\n");
    ClosedConcat("A=1\n", "A=2\n");
  }

  lemma ReadReference()
    ensures ParsedAssignment("A=$B") == Ok(Assignment("A", "$B", true, false))
  {
    assert "$B"[1..] == "B" && "B"[1..] == "";
    assert FinishAssignment("A", false, "$B") == Ok(Assignment("A", "$B", true, false));
    hide FinishAssignment, ParsedAssignment;
    ParsePlain("A", "$B", Assignment("A", "$B", true, false));
    assert "A" + ("=" + "$B") == "A=$B";
  }

  lemma ReferenceExtent(s: string)
    requires s == "A=$B" + "\n"
    ensures LogicalEnd(s, Complete) == Terminated(|s|, |s|)
  {
    hide LogicalEnd;
    ScanPlain(Complete, "A=$B");
    ScanAppend(Complete, "A=$B", "\n");
    OneLine("A=$B");
    LogicalEndUnfold(s, Complete);
    assert s[..|s|] == s;
  }

  lemma TrimReference(s: string)
    requires s == "A=$B" + "\n"
    ensures TrimEnd(s) == "A=$B" && SkipSpace("A=$B") == "A=$B"
  {
    assert s[..4] == "A=$B";
  }

  lemma ClassifyReference()
    ensures Classify("A=$B") == Assign(Assignment("A", "$B", true, false))
  {
    TrimReference("A=$B" + "\n");
    ReadReference();
    hide ParsedAssignment;
  }

  lemma ReferenceStart(s: string)
    requires s == "A=$B" + "\n"
    ensures !StartsWithHash(SkipSpace(s[..LineEnd(s)])) && EndsWithNewline(s)
  {
    hide LineEnd;
    LineEndIsInside(s);
    FirstLineStart(s);
  }

  lemma OneReference()
    ensures Lines("A=$B" + "\n") == [Line("A=$B" + "\n", Assign(Assignment("A", "$B", true, false)))]
            && Closed("A=$B" + "\n")
  {
    hide *;
    var s := "A=$B" + "\n";
    ReferenceExtent(s);
    ReferenceStart(s);
    ValueFirst(s);
    TrimReference(s);
    ClassifyReference();
    assert s[..|s|] == s;
    WholeFirst(Line(s, Assign(Assignment("A", "$B", true, false))));
    StandingLineIsClosed(Line(s, Assign(Assignment("A", "$B", true, false))));
  }

  lemma {:induction false} NothingAfterNothing(lines: seq<Line>, key: string)
    requires Effective(lines, key).None?
    ensures Effective(AfterFirst(lines, key), key).None?
  {
    if lines != [] {
      NothingAfterNothing(lines[1..], key);
    }
  }
}

/** Splitting a document into logical lines, each classified and kept with its exact text. */
module DotenvLines {
  import opened Prelude
  import opened DotenvScanner
  import opened DotenvValue
  import opened DotenvParser
  import DotenvLineGrammar

  datatype Reason = UnterminatedLine | Malformed(error: ParseError)

  datatype Body = Remark | Blank | Assign(assignment: Assignment) | Unsupported(reason: Reason)

  datatype Line = Line(text: string, body: Body)

  /** A line as the editor stores it: a slice of the source. */
  datatype Entry = Entry(start: nat, end: nat, body: Body)

  function TrimEnd(s: string): (r: string)
    ensures r <= s
    ensures r != "" ==> !IsSpace(r[|r| - 1])
  {
    if s != "" && IsSpace(s[|s| - 1]) then TrimEnd(s[..|s| - 1]) else s
  }

  function Classify(trimmed: string): Body {
    if SkipSpace(trimmed) == "" then Blank
    else
      match ParsedAssignment(trimmed)
      case Ok(a) => Assign(a)
      case Err(error) => Unsupported(Malformed(error))
  }

  predicate StartsWithHash(s: string) {
    s != "" && s[0] == '#'
  }

  function FirstLine(s: string): (l: Line)
    requires s != ""
    ensures l.text != "" && l.text <= s
  {
    var first := s[..LineEnd(s)];
    if StartsWithHash(SkipSpace(first)) then Line(first, Remark)
    else
      match LogicalEnd(s, Complete)
      case Unterminated(end) => Line(s[..end], Unsupported(UnterminatedLine))
      case Terminated(valueEnd, end) => Line(s[..end], Classify(TrimEnd(s[..valueEnd])))
  }

  /** Everything up to and with the first newline, or all of it. */
  ghost predicate IsPhysicalLine(line: string, s: string) {
    && line != "" && line <= s && (line == s || line[|line| - 1] == '\n')
    && forall i :: 0 <= i < |line| - 1 ==> line[i] != '\n'
  }

  ghost predicate StartsRemark(line: string) {
    exists i :: 0 <= i < |line| && line[i] == '#' && forall j :: 0 <= j < i ==> IsSpace(line[j])
  }

  /** `trimmed` is `s` without the white space at its end. */
  ghost predicate IsTrimmed(trimmed: string, s: string) {
    && trimmed <= s && (trimmed != "" ==> !IsSpace(trimmed[|trimmed| - 1]))
    && forall i :: |trimmed| <= i < |s| ==> IsSpace(s[i])
  }

  function BodyOf(r: Result<Assignment, ParseError>): Body {
    match r
    case Ok(a) => Assign(a)
    case Err(error) => Unsupported(Malformed(error))
  }

  /** What a value text, already trimmed, is: nothing, or what the shapes of an assignment say. */
  ghost predicate IsBody(body: Body, trimmed: string) {
    if trimmed == "" then body == Blank
    else exists shape, r ::
           ShapeOk(shape) && SpellShape(shape) == trimmed && ShapeMeans(shape, r) && body == BodyOf(r)
  }

  ghost predicate IsBodyOf(body: Body, value: string) {
    exists trimmed :: IsTrimmed(trimmed, value) && IsBody(body, trimmed)
  }

  /** The logical line that the grammar finds, with the body of its value. */
  ghost predicate IsLogicalLine(l: Line, s: string, line: DotenvLineGrammar.LogicalLine) {
    && DotenvLineGrammar.LineOk(line) && DotenvLineGrammar.Spelling(line) == s
    && var extent := DotenvLineGrammar.EndOf(line);
       && l.text <= s && |l.text| == extent.end
       && (extent.Unterminated? ==> l.body == Unsupported(UnterminatedLine))
       && (extent.Terminated? ==> extent.valueEnd <= |s| && IsBodyOf(l.body, s[..extent.valueEnd]))
  }

  /** What the line at the start of `s` is, and how far it reaches: a remark if its first physical line
      has a hash sign before anything else, and otherwise the logical line that the grammar finds. */
  ghost predicate IsFirstLine(l: Line, s: string) {
    || (l.body == Remark && IsPhysicalLine(l.text, s) && StartsRemark(l.text))
    || ((exists first :: IsPhysicalLine(first, s) && !StartsRemark(first))
        && exists line :: IsLogicalLine(l, s, line))
  }

  lemma {:induction false} LineEndIsFirstNewline(s: string)
    requires s != ""
    ensures IsPhysicalLine(s[..LineEnd(s)], s)
  {
    if s[0] != '\n' && |s| > 1 {
      LineEndIsFirstNewline(s[1..]);
      var n := LineEnd(s[1..]);
      assert s[..1 + n] == [s[0]] + s[1..][..n];
    }
  }

  lemma {:induction false} SkipSpaceMeaning(s: string)
    ensures StartsWithHash(SkipSpace(s)) <==> StartsRemark(s)
    ensures SkipSpace(s) == "" <==> forall i :: 0 <= i < |s| ==> IsSpace(s[i])
  {
    if s != "" && IsSpace(s[0]) {
      SkipSpaceMeaning(s[1..]);
      if StartsRemark(s[1..]) {
        var i :| 0 <= i < |s[1..]| && s[1..][i] == '#' && forall j :: 0 <= j < i ==> IsSpace(s[1..][j]);
        assert s[i + 1] == '#' && forall j :: 0 < j < i + 1 ==> s[j] == s[1..][j - 1];
      }
      if StartsRemark(s) {
        var i :| 0 <= i < |s| && s[i] == '#' && forall j :: 0 <= j < i ==> IsSpace(s[j]);
        assert i > 0 && s[1..][i - 1] == '#' && forall j :: 0 <= j < i - 1 ==> s[1..][j] == s[j + 1];
      }
      assert forall i :: 0 < i < |s| ==> s[i] == s[1..][i - 1];
    } else if s != "" {
      assert s[0] == '#' ==> StartsRemark(s);
    }
  }

  lemma {:induction false} TrimEndIsTrimmed(s: string)
    ensures IsTrimmed(TrimEnd(s), s)
  {
    if s != "" && IsSpace(s[|s| - 1]) {
      TrimEndIsTrimmed(s[..|s| - 1]);
    }
  }

  lemma ClassifyIsBody(trimmed: string)
    requires trimmed != "" ==> !IsSpace(trimmed[|trimmed| - 1])
    ensures IsBody(Classify(trimmed), trimmed)
  {
    SkipSpaceMeaning(trimmed);
    hide ShapeOk, SpellShape, ShapeMeans, ParsedAssignment;
    if trimmed != "" {
      assert IsSpace(trimmed[|trimmed| - 1]) || SkipSpace(trimmed) != "";
      AssignmentMeetsGrammar(trimmed, ParsedAssignment(trimmed));
      var shape :| ShapeOk(shape) && SpellShape(shape) == trimmed && ShapeMeans(shape, ParsedAssignment(trimmed));
    }
  }

  /** Every text starts with a line of the described kind: remark, blank, assignment with its parts, or
      unsupported with its reason. */
  lemma FirstLineIsDescribed(s: string)
    requires s != ""
    ensures IsFirstLine(FirstLine(s), s)
  {
    var extent := LogicalEnd(s, Complete);
    LineEndIsFirstNewline(s);
    DotenvLineGrammar.LogicalEndMeetsGrammar(s, extent);
    hide *;
    var line :| DotenvLineGrammar.LineOk(line) && DotenvLineGrammar.Spelling(line) == s
                && DotenvLineGrammar.EndOf(line) == extent;
    var first := s[..LineEnd(s)];
    SkipSpaceMeaning(first);
    if StartsRemark(first) {
      RemarkIsFirstLine(s);
    } else {
      ExtentIsInside(s, extent);
      LogicalLineIs(s, extent, line);
      IsFirst(FirstLine(s), s, first, line);
    }
  }

  lemma RemarkIsFirstLine(s: string)
    requires s != "" && StartsWithHash(SkipSpace(s[..LineEnd(s)])) && StartsRemark(s[..LineEnd(s)])
    requires IsPhysicalLine(s[..LineEnd(s)], s)
    ensures IsFirstLine(FirstLine(s), s)
  {
    hide StartsRemark, IsPhysicalLine, LogicalEnd;
  }

  lemma IsFirst(l: Line, s: string, first: string, line: DotenvLineGrammar.LogicalLine)
    requires IsPhysicalLine(first, s) && !StartsRemark(first) && IsLogicalLine(l, s, line)
    ensures IsFirstLine(l, s)
  {
    hide StartsRemark, IsPhysicalLine, IsLogicalLine;
  }

  lemma ExtentIsInside(s: string, extent: Extent)
    requires extent == LogicalEnd(s, Complete)
    ensures extent.end <= |s| && (extent.Terminated? ==> extent.valueEnd <= extent.end)
  {
    hide LogicalEnd;
  }

  lemma LogicalLineIs(s: string, extent: Extent, line: DotenvLineGrammar.LogicalLine)
    requires s != "" && extent == LogicalEnd(s, Complete)
    requires !StartsWithHash(SkipSpace(s[..LineEnd(s)]))
    requires extent.end <= |s| && (extent.Terminated? ==> extent.valueEnd <= extent.end)
    requires DotenvLineGrammar.LineOk(line) && DotenvLineGrammar.Spelling(line) == s
    requires DotenvLineGrammar.EndOf(line) == extent
    ensures IsLogicalLine(FirstLine(s), s, line)
  {
    hide DotenvLineGrammar.LineOk, DotenvLineGrammar.Spelling, DotenvLineGrammar.EndOf;
    hide LogicalEnd, SkipSpace, LineEnd, Classify, IsBody, IsTrimmed, TrimEnd;
    if extent.Terminated? {
      TrimEndIsTrimmed(s[..extent.valueEnd]);
      ClassifyIsBody(TrimEnd(s[..extent.valueEnd]));
    }
  }

  function Lines(s: string): seq<Line>
    decreases |s|
  {
    if s == "" then []
    else var l := FirstLine(s); [l] + Lines(s[|l.text|..])
  }

  function EntriesFrom(at: nat, lines: seq<Line>): seq<Entry>
    decreases |lines|
  {
    if lines == [] then []
    else [Entry(at, at + |lines[0].text|, lines[0].body)] + EntriesFrom(at + |lines[0].text|, lines[1..])
  }

  function EntryOf(source: string, start: nat): Entry
    requires start < |source|
  {
    var l := FirstLine(source[start..]);
    Entry(start, start + |l.text|, l.body)
  }

  lemma RemarkEntry(source: string, start: nat, line: string)
    requires start < |source| && line == source[start..][..LineEnd(source[start..])]
    ensures StartsWithHash(SkipSpace(line)) ==> EntryOf(source, start) == Entry(start, start + |line|, Remark)
  {
  }

  lemma ValueEntry(source: string, start: nat, extent: Extent)
    requires start < |source| && extent == LogicalEnd(source[start..], Complete)
    requires !StartsWithHash(SkipSpace(source[start..][..LineEnd(source[start..])]))
    ensures EntryOf(source, start) ==
            if extent.Unterminated? then Entry(start, start + extent.end, Unsupported(UnterminatedLine))
            else Entry(start, start + extent.end, Classify(TrimEnd(source[start..][..extent.valueEnd])))
  {
  }

  method ClassifyText(trimmed: string) returns (body: Body)
    ensures body == Classify(trimmed)
  {
    if SkipSpace(trimmed) == "" {
      return Blank;
    }
    var parsed := ParseAssignment(trimmed);
    match parsed {
      case Err(error) => return Unsupported(Malformed(error));
      case Ok(a) => return Assign(a);
    }
  }

  /** One turn of the splitter: the entry that starts at `start`. */
  method NextEntry(source: string, start: nat) returns (entry: Entry)
    requires start < |source|
    ensures entry == EntryOf(source, start)
  {
    hide EntryOf;
    var firstLineEnd := NextPhysicalLineEnd(source, start);
    var firstLine := source[start..firstLineEnd];
    assert firstLine == source[start..][..LineEnd(source[start..])];
    if StartsWithHash(SkipSpace(firstLine)) {
      RemarkEntry(source, start, firstLine);
      return Entry(start, firstLineEnd, Remark);
    }
    var extent := FindLogicalEnd(source, start);
    ValueEntry(source, start, LogicalEnd(source[start..], Complete));
    if extent.Unterminated? {
      return Entry(start, extent.end, Unsupported(UnterminatedLine));
    }
    assert source[start..extent.valueEnd] == source[start..][..extent.valueEnd - start];
    var body := ClassifyText(TrimEnd(source[start..extent.valueEnd]));
    return Entry(start, extent.end, body);
  }

  lemma EntriesCons(at: nat, l: Line, rest: seq<Line>)
    ensures EntriesFrom(at, [l] + rest) == [Entry(at, at + |l.text|, l.body)] + EntriesFrom(at + |l.text|, rest)
  {
    assert ([l] + rest)[1..] == rest;
  }

  lemma EntriesUnfold(source: string, start: nat)
    requires start < |source|
    ensures EntriesFrom(start, Lines(source[start..])) ==
            [EntryOf(source, start)]
              + EntriesFrom(EntryOf(source, start).end, Lines(source[EntryOf(source, start).end..]))
    ensures start < EntryOf(source, start).end <= |source|
  {
    hide FirstLine, Lines;
    var s := source[start..];
    var l := FirstLine(s);
    assert s[|l.text|..] == source[start + |l.text|..];
    LinesUnfold(s);
    EntriesCons(start, l, Lines(s[|l.text|..]));
  }

  method SplitLogicalLines(source: string) returns (entries: seq<Entry>)
    ensures entries == EntriesFrom(0, Lines(source))
  {
    entries := [];
    var i := 0;
    assert source[0..] == source;
    while i < |source|
      invariant 0 <= i <= |source|
      invariant EntriesFrom(0, Lines(source)) == entries + EntriesFrom(i, Lines(source[i..]))
      decreases |source| - i
    {
      EntriesUnfold(source, i);
      ghost var rest := EntriesFrom(EntryOf(source, i).end, Lines(source[EntryOf(source, i).end..]));
      hide EntriesFrom, Lines, EntryOf;
      var entry := NextEntry(source, i);
      assert entries + ([entry] + rest) == (entries + [entry]) + rest;
      entries := entries + [entry];
      i := entry.end;
    }
  }

  // ----- partition -----

  function Join(lines: seq<Line>): string {
    if lines == [] then "" else lines[0].text + Join(lines[1..])
  }

  lemma JoinCons(l: Line, rest: seq<Line>)
    ensures Join([l] + rest) == l.text + Join(rest)
  {
    assert ([l] + rest)[1..] == rest;
  }

  lemma NothingJoins()
    ensures Lines("") == [] && Join([]) == ""
  {
  }

  /** The logical lines, concatenated, are the source again, character for character. */
  lemma {:induction false} LinesPartition(s: string)
    ensures Join(Lines(s)) == s
    decreases |s|
  {
    if s != "" {
      var l := FirstLine(s);
      var tail := s[|l.text|..];
      hide *;
      LinesUnfold(s);
      LinesPartition(tail);
      JoinCons(l, Lines(tail));
      assert s == l.text + tail;
    } else {
      NothingJoins();
    }
  }

  /** Each entry starts where the previous one ends, and slices its own line out of the source. */
  ghost predicate Tile(source: string, at: nat, entries: seq<Entry>, lines: seq<Line>)
    decreases |lines|
  {
    if lines == [] then entries == [] && at == |source|
    else
      && entries != [] && lines[0].text != ""
      && entries[0].start == at && entries[0].end == at + |lines[0].text| <= |source|
      && source[at..entries[0].end] == lines[0].text && entries[0].body == lines[0].body
      && Tile(source, entries[0].end, entries[1..], lines[1..])
  }

  lemma TileCons(source: string, at: nat, l: Line, rest: seq<Line>)
    requires l.text != "" && at + |l.text| <= |source| && source[at..at + |l.text|] == l.text
    requires Tile(source, at + |l.text|, EntriesFrom(at + |l.text|, rest), rest)
    ensures Tile(source, at, EntriesFrom(at, [l] + rest), [l] + rest)
  {
    var later := EntriesFrom(at + |l.text|, rest);
    EntriesCons(at, l, rest);
    hide EntriesFrom;
    TileUnfolds(source, at, Entry(at, at + |l.text|, l.body), later, l, rest);
  }

  lemma TileUnfolds(source: string, at: nat, entry: Entry, entries: seq<Entry>, l: Line, rest: seq<Line>)
    requires l.text != "" && at + |l.text| <= |source| && source[at..at + |l.text|] == l.text
    requires entry == Entry(at, at + |l.text|, l.body) && Tile(source, entry.end, entries, rest)
    ensures Tile(source, at, [entry] + entries, [l] + rest)
  {
    assert ([l] + rest)[1..] == rest && ([entry] + entries)[1..] == entries;
  }

  lemma SliceAt(source: string, at: nat, t: string)
    requires at <= |source| && t <= source[at..]
    ensures at + |t| <= |source| && source[at..at + |t|] == t && source[at..][|t|..] == source[at + |t|..]
  {
  }

  lemma TileEnds(source: string)
    ensures Tile(source, |source|, EntriesFrom(|source|, Lines("")), Lines(""))
  {
  }

  lemma {:induction false} EntriesTile(source: string, at: nat)
    requires at <= |source|
    ensures Tile(source, at, EntriesFrom(at, Lines(source[at..])), Lines(source[at..]))
    decreases |source| - at
  {
    hide *;
    if at == |source| {
      assert source[at..] == "";
      TileEnds(source);
    } else {
      var l := FirstLine(source[at..]);
      LinesUnfold(source[at..]);
      SliceAt(source, at, l.text);
      EntriesTile(source, at + |l.text|);
      TileCons(source, at, l, Lines(source[at + |l.text|..]));
    }
  }

  // ----- locality -----

  predicate EndsWithNewline(s: string) {
    s != "" && s[|s| - 1] == '\n'
  }

  /** A document whose last line is finished: newline-terminated, no quote left open. */
  predicate Closed(s: string) {
    s == "" || (EndsWithNewline(s) && NoneOpen(Lines(s)))
  }

  predicate NoneOpen(lines: seq<Line>) {
    forall i :: 0 <= i < |lines| ==> lines[i].body != Unsupported(UnterminatedLine)
  }

  lemma RemarkLocal(s: string, b: string)
    requires s != "" && StartsWithHash(SkipSpace(s[..LineEnd(s)])) && EndsWithNewline(s[..LineEnd(s)])
    ensures FirstLine(s + b) == FirstLine(s)
  {
    hide LogicalEnd, LineEnd, SkipSpace, FirstLine;
    LineEndSplit(s, b);
    RemarkFirst(s);
    RemarkFirst(s + b);
  }

  lemma RemarkFirst(s: string)
    requires s != "" && StartsWithHash(SkipSpace(s[..LineEnd(s)]))
    ensures FirstLine(s) == Line(s[..LineEnd(s)], Remark)
  {
  }

  lemma ValueLineLocal(s: string, b: string, e: Extent)
    requires s != "" && !StartsWithHash(SkipSpace(s[..LineEnd(s)]))
    requires e == LogicalEnd(s, Complete) && e.Terminated? && s[e.end - 1] == '\n'
    ensures FirstLine(s + b) == FirstLine(s)
  {
    var line := LineEnd(s);
    LogicalEndLocal(s, Complete, b);
    FirstNewline(s, e.end);
    LineEndLocal(s, b);
    assert (s + b)[..line] == s[..line];
    assert (s + b)[..e.end] == s[..e.end] && (s + b)[..e.valueEnd] == s[..e.valueEnd];
  }

  lemma FirstLineLocal(s: string, b: string)
    requires s != "" && EndsWithNewline(FirstLine(s).text) && FirstLine(s).body != Unsupported(UnterminatedLine)
    ensures FirstLine(s + b) == FirstLine(s)
  {
    if StartsWithHash(SkipSpace(s[..LineEnd(s)])) {
      RemarkLocal(s, b);
    } else {
      var e := LogicalEnd(s, Complete);
      assert s[..e.end][|s[..e.end]| - 1] == s[e.end - 1];
      ValueLineLocal(s, b, e);
    }
  }

  lemma {:induction false} FirstNewline(s: string, k: nat)
    requires 0 < k <= |s| && s[k - 1] == '\n'
    ensures s[LineEnd(s) - 1] == '\n'
  {
    if s[0] != '\n' {
      FirstNewline(s[1..], k - 1);
    }
  }

  lemma FirstLineEndsInside(s: string)
    requires s != "" && EndsWithNewline(s) && FirstLine(s).body != Unsupported(UnterminatedLine)
    ensures EndsWithNewline(FirstLine(s).text)
  {
    hide *;
    var line, e := LineEnd(s), LogicalEnd(s, Complete);
    FirstLineText(s);
    LastChar(s);
    if StartsWithHash(SkipSpace(s[..line])) {
      if line < |s| {
        LineEndInterior(s);
      }
      PrefixEnds(s, line);
    } else {
      if e.end < |s| {
        TerminatedInterior(s, Complete);
      }
      PrefixEnds(s, e.end);
    }
  }

  lemma LastChar(s: string)
    ensures EndsWithNewline(s) ==> s != "" && s[|s| - 1] == '\n'
  {
  }

  lemma PrefixEnds(s: string, k: nat)
    requires 0 < k <= |s| && s[k - 1] == '\n'
    ensures EndsWithNewline(s[..k])
  {
  }

  lemma FirstLineText(s: string)
    requires s != ""
    ensures 0 < LineEnd(s) <= |s| && 0 < LogicalEnd(s, Complete).end <= |s|
    ensures var first := s[..LineEnd(s)]; var e := LogicalEnd(s, Complete);
            && FirstLine(s).text == (if StartsWithHash(SkipSpace(first)) then first else s[..e.end])
            && (FirstLine(s).body == Unsupported(UnterminatedLine)
                <==> !StartsWithHash(SkipSpace(first)) && e.Unterminated?)
  {
    hide LogicalEnd, LineEnd, SkipSpace, TrimEnd, ParsedAssignment;
  }

  lemma LinesUnfold(s: string)
    requires s != ""
    ensures Lines(s) == [FirstLine(s)] + Lines(s[|FirstLine(s).text|..])
  {
  }

  lemma TailEnds(s: string, l: Line, tail: string)
    requires EndsWithNewline(s) && l.text <= s && tail == s[|l.text|..]
    ensures tail == "" || EndsWithNewline(tail)
  {
  }

  lemma ClosedTail(s: string)
    requires s != "" && Closed(s)
    ensures EndsWithNewline(FirstLine(s).text) && FirstLine(s).body != Unsupported(UnterminatedLine)
    ensures Closed(s[|FirstLine(s).text|..])
  {
    hide FirstLine, Lines;
    var l, tail := FirstLine(s), s[|FirstLine(s).text|..];
    LinesUnfold(s);
    assert Lines(s)[0] == l;
    FirstLineEndsInside(s);
    TailEnds(s, l, tail);
    assert forall i :: 0 <= i < |Lines(tail)| ==> Lines(tail)[i] == Lines(s)[i + 1];
  }

  lemma SplitStep(a: string, b: string, l: Line, tail: string)
    requires a != "" && l == FirstLine(a) && FirstLine(a + b) == l && tail == a[|l.text|..]
    requires Lines(tail + b) == Lines(tail) + Lines(b)
    ensures Lines(a + b) == Lines(a) + Lines(b)
  {
    hide *;
    LinesUnfold(a);
    LinesUnfold(a + b);
    assert (a + b)[|l.text|..] == tail + b;
    assert [l] + (Lines(tail) + Lines(b)) == ([l] + Lines(tail)) + Lines(b);
  }

  /** Locality: what follows a closed document is split on its own, and leaves its lines untouched. */
  lemma {:induction false} SplitIsLocal(a: string, b: string)
    requires Closed(a)
    ensures Lines(a + b) == Lines(a) + Lines(b)
    decreases |a|
  {
    if a == "" {
      assert a + b == b;
    } else {
      hide FirstLine;
      var l := FirstLine(a);
      ClosedTail(a);
      FirstLineLocal(a, b);
      SplitIsLocal(a[|l.text|..], b);
      SplitStep(a, b, l, a[|l.text|..]);
    }
  }

  lemma ClosedConcat(a: string, b: string)
    requires Closed(a) && Closed(b)
    ensures Closed(a + b)
  {
    hide FirstLine, Lines;
    SplitIsLocal(a, b);
    if b == "" {
      assert a + b == a;
    } else {
      assert (a + b)[|a + b| - 1] == b[|b| - 1];
      NoneOpenConcat(a, Lines(b));
    }
  }

  lemma NoneOpenConcat(a: string, later: seq<Line>)
    requires Closed(a) && NoneOpen(later)
    ensures NoneOpen(Lines(a) + later)
  {
  }
}

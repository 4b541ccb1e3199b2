/** What a logical line is: glyphs outside and inside quotes up to a newline, a remark, or the end of the
    text; and where the line and its value end, for every text, independent of the scanner's states. */
module DotenvLineGrammar {
  import opened DotenvScanner

  /** A character inside quotes, by itself or behind a backslash. */
  datatype Unit = Literal(c: char) | Escaped(c: char)

  datatype Glyph =
    | Plain(c: char)             // outside quotes
    | Slashed(c: char)           // outside quotes, behind a backslash
    | Weak(body: seq<Unit>)      // double quotes
    | Strong(body: seq<Unit>)    // single quotes

  datatype Ending =
    | Newline(slashed: bool)                     // a newline outside quotes; a backslash does not save it
    | Remark(text: string, newline: bool)        // `#` and what follows it on the physical line
    | Finished                                   // the text ends outside quotes
    | Trailing                                   // the text ends after a blank that could start a remark
    | CutSlash                                   // the text ends in a backslash outside quotes
    | OpenWeak(body: seq<Unit>, cut: bool)       // the text ends inside double quotes
    | OpenStrong(body: seq<Unit>, cut: bool)     // the text ends inside single quotes

  datatype LogicalLine = LogicalLine(glyphs: seq<Glyph>, ending: Ending, later: string)

  // ----- spelling -----

  function SpellUnit(u: Unit): string {
    match u
    case Literal(c) => [c]
    case Escaped(c) => "\\" + [c]
  }

  function SpellUnits(body: seq<Unit>): string {
    if body == [] then "" else SpellUnit(body[0]) + SpellUnits(body[1..])
  }

  function SpellGlyph(g: Glyph): string {
    match g
    case Plain(c) => [c]
    case Slashed(c) => "\\" + [c]
    case Weak(body) => "\"" + (SpellUnits(body) + "\"")
    case Strong(body) => "'" + (SpellUnits(body) + "'")
  }

  function SpellGlyphs(glyphs: seq<Glyph>): string {
    if glyphs == [] then "" else SpellGlyphs(glyphs[..|glyphs| - 1]) + SpellGlyph(glyphs[|glyphs| - 1])
  }

  function SpellEnding(ending: Ending): string {
    match ending
    case Newline(slashed) => if slashed then "\\\n" else "\n"
    case Remark(body, newline) => "#" + body + if newline then "\n" else ""
    case Finished => ""
    case Trailing => ""
    case CutSlash => "\\"
    case OpenWeak(body, cut) => "\"" + (SpellUnits(body) + if cut then "\\" else "")
    case OpenStrong(body, cut) => "'" + (SpellUnits(body) + if cut then "\\" else "")
  }

  function Spelling(l: LogicalLine): string {
    SpellGlyphs(l.glyphs) + (SpellEnding(l.ending) + l.later)
  }

  // ----- what is allowed where -----

  predicate IsBlankGlyph(g: Glyph) {
    g.Plain? && IsSpace(g.c) && g.c != '\n' && g.c != '\r'
  }

  /** How many blanks stand at the end. */
  function TrailingBlanks(glyphs: seq<Glyph>): nat {
    if glyphs == [] || !IsBlankGlyph(glyphs[|glyphs| - 1]) then 0
    else 1 + TrailingBlanks(glyphs[..|glyphs| - 1])
  }

  /** Only after an odd run of blanks does a hash sign start a remark. */
  predicate RemarkMayStart(glyphs: seq<Glyph>) {
    TrailingBlanks(glyphs) % 2 == 1
  }

  ghost predicate UnitsOk(body: seq<Unit>, quote: char) {
    forall i :: 0 <= i < |body| ==> body[i].Literal? ==> body[i].c != quote && body[i].c != '\\'
  }

  ghost predicate GlyphOk(g: Glyph) {
    match g
    case Plain(c) => c != '\\' && c != '"' && c != '\'' && c != '\n'
    case Slashed(c) => c != '\n'
    case Weak(body) => UnitsOk(body, '"')
    case Strong(body) => UnitsOk(body, '\'')
  }

  ghost predicate GlyphsOk(glyphs: seq<Glyph>) {
    && (forall i :: 0 <= i < |glyphs| ==> GlyphOk(glyphs[i]))
    && (forall i :: 0 <= i < |glyphs| ==> glyphs[i] == Plain('#') ==> !RemarkMayStart(glyphs[..i]))
  }

  ghost predicate EndingOk(ending: Ending, glyphs: seq<Glyph>, later: string) {
    match ending
    case Newline(_) => true
    case Remark(body, newline) => RemarkMayStart(glyphs) && '\n' !in body && (newline || later == "")
    case Finished => !RemarkMayStart(glyphs) && later == "" && glyphs != []
    case Trailing => RemarkMayStart(glyphs) && later == ""
    case CutSlash => later == ""
    case OpenWeak(body, _) => UnitsOk(body, '"') && later == ""
    case OpenStrong(body, _) => UnitsOk(body, '\'') && later == ""
  }

  ghost predicate LineOk(l: LogicalLine) {
    GlyphsOk(l.glyphs) && EndingOk(l.ending, l.glyphs, l.later)
  }

  // ----- where it ends -----

  function EndOf(l: LogicalLine): Extent {
    var end := |SpellGlyphs(l.glyphs)| + |SpellEnding(l.ending)|;
    match l.ending
    case Newline(_) => Terminated(end, end)
    case Finished => Terminated(end, end)
    case Remark(_, _) => Terminated(|SpellGlyphs(l.glyphs)|, end)
    case _ => Unterminated(end)
  }

  // ----- the scanner follows the grammar -----

  predicate Outside(st: ScanState) {
    st == Complete || st == WhiteSpace
  }

  function Between(glyphs: seq<Glyph>): ScanState {
    if RemarkMayStart(glyphs) then WhiteSpace else Complete
  }

  lemma QuietStart(st: ScanState, c: char, u: string)
    requires Next(st, c) != Comment && (c == '\n' ==> Next(st, c) != Complete) && Quiet(Next(st, c), u)
    ensures Quiet(st, [c] + u) && Scan(st, [c] + u) == Scan(Next(st, c), u)
  {
    assert ([c] + u)[1..] == u;
  }

  /** The states inside quotes of one kind. */
  function Inside(quote: char): ScanState {
    if quote == '"' then WeakOpen else StrongOpen
  }

  lemma {:induction false} UnitsStayInside(body: seq<Unit>, quote: char)
    requires UnitsOk(body, quote) && (quote == '"' || quote == '\'')
    ensures Quiet(Inside(quote), SpellUnits(body)) && Scan(Inside(quote), SpellUnits(body)) == Inside(quote)
  {
    hide Quiet, Scan;
    NothingIsQuiet(Inside(quote));
    if body != [] {
      var st, rest := Inside(quote), SpellUnits(body[1..]);
      UnitsStayInside(body[1..], quote);
      match body[0] {
        case Literal(c) => QuietStart(st, c, rest);
        case Escaped(c) =>
          QuietStart(Next(st, '\\'), c, rest);
          QuietStart(st, '\\', [c] + rest);
          assert SpellUnits(body) == ['\\'] + ([c] + rest);
      }
    }
  }

  lemma NothingIsQuiet(st: ScanState)
    ensures Quiet(st, "") && Scan(st, "") == st
  {
  }

  lemma QuotedIsQuiet(body: seq<Unit>, quote: char, st: ScanState)
    requires UnitsOk(body, quote) && (quote == '"' || quote == '\'') && Outside(st)
    ensures var u := [quote] + (SpellUnits(body) + [quote]); Quiet(st, u) && Scan(st, u) == Complete
  {
    hide Quiet, Scan, UnitsOk;
    UnitsStayInside(body, quote);
    NothingIsQuiet(Complete);
    QuietStart(Inside(quote), quote, "");
    assert [quote] + "" == [quote];
    QuietAppend(Inside(quote), SpellUnits(body), [quote]);
    ScanAppend(Inside(quote), SpellUnits(body), [quote]);
    QuietStart(st, quote, SpellUnits(body) + [quote]);
  }

  lemma GlyphIsQuiet(g: Glyph, st: ScanState)
    requires GlyphOk(g) && Outside(st) && (st == WhiteSpace ==> g != Plain('#'))
    ensures Quiet(st, SpellGlyph(g))
    ensures Scan(st, SpellGlyph(g)) == if st == Complete && IsBlankGlyph(g) then WhiteSpace else Complete
  {
    hide Quiet, Scan, UnitsOk;
    NothingIsQuiet(Complete);
    NothingIsQuiet(WhiteSpace);
    match g {
      case Plain(c) =>
        QuietStart(st, c, "");
        assert [c] + "" == [c];
      case Slashed(c) =>
        QuietStart(Escape, c, "");
        QuietStart(st, '\\', [c] + "");
        assert SpellGlyph(g) == ['\\'] + ([c] + "");
      case Weak(body) => QuotedIsQuiet(body, '"', st);
      case Strong(body) => QuotedIsQuiet(body, '\'', st);
    }
  }

  lemma FrontOk(glyphs: seq<Glyph>)
    requires GlyphsOk(glyphs) && glyphs != []
    ensures var n := |glyphs| - 1;
            GlyphsOk(glyphs[..n]) && GlyphOk(glyphs[n]) && (RemarkMayStart(glyphs[..n]) ==> glyphs[n] != Plain('#'))
  {
    var n := |glyphs| - 1;
    forall i | 0 <= i < n ensures glyphs[..n][..i] == glyphs[..i] {
    }
  }

  lemma NoGlyphs()
    ensures SpellGlyphs([]) == "" && Between([]) == Complete
  {
  }

  lemma LastGlyph(glyphs: seq<Glyph>)
    requires glyphs != []
    ensures var n := |glyphs| - 1; var st := Between(glyphs[..n]);
            && SpellGlyphs(glyphs) == SpellGlyphs(glyphs[..n]) + SpellGlyph(glyphs[n])
            && Outside(st) && (st == WhiteSpace <==> RemarkMayStart(glyphs[..n]))
            && Between(glyphs) == if st == Complete && IsBlankGlyph(glyphs[n]) then WhiteSpace else Complete
  {
    hide SpellGlyph, IsBlankGlyph, TrailingBlanks;
    BlanksGrow(glyphs);
  }

  lemma BlanksGrow(glyphs: seq<Glyph>)
    requires glyphs != []
    ensures var n := |glyphs| - 1;
            TrailingBlanks(glyphs) == if IsBlankGlyph(glyphs[n]) then 1 + TrailingBlanks(glyphs[..n]) else 0
  {
    hide IsBlankGlyph;
  }

  lemma {:induction false} GlyphsAreQuiet(glyphs: seq<Glyph>)
    requires GlyphsOk(glyphs)
    ensures Quiet(Complete, SpellGlyphs(glyphs)) && Scan(Complete, SpellGlyphs(glyphs)) == Between(glyphs)
  {
    hide *;
    NoGlyphs();
    if glyphs == [] {
      NothingIsQuiet(Complete);
    } else {
      var n := |glyphs| - 1;
      FrontOk(glyphs);
      LastGlyph(glyphs);
      GlyphsAreQuiet(glyphs[..n]);
      GlyphIsQuiet(glyphs[n], Between(glyphs[..n]));
      QuietAppend(Complete, SpellGlyphs(glyphs[..n]), SpellGlyph(glyphs[n]));
      ScanAppend(Complete, SpellGlyphs(glyphs[..n]), SpellGlyph(glyphs[n]));
    }
  }

  /** A quiet text up to the end of everything leaves its line unterminated. */
  lemma {:induction false} QuietToTheEnd(st: ScanState, u: string)
    requires Quiet(st, u) && st != Comment && u != ""
    ensures var final := Scan(st, u);
            LogicalEnd(u, st) == if final == Complete then Terminated(|u|, |u|) else Unterminated(|u|)
    decreases |u|
  {
    hide LogicalEnd, Quiet, Scan;
    var c, tail := u[0], u[1..];
    assert u == [c] + tail;
    QuietStep(st, u);
    if tail == "" {
      assert u == [c];
      LastCharacter(st, c);
      NothingIsQuiet(Next(st, c));
    } else {
      QuietToTheEnd(Next(st, c), tail);
      AbsorbOne(st, c, tail);
    }
  }

  lemma LastCharacter(st: ScanState, c: char)
    requires Next(st, c) != Comment
    ensures LogicalEnd([c], st) == if Next(st, c) == Complete then Terminated(1, 1) else Unterminated(1)
  {
    assert [c][..1] == [c] && [c][1..] == "";
    assert Scan(st, [c]) == Scan(Next(st, c), "");
    assert LineEnd([c]) == 1;
  }

  lemma NewlineEnds(st: ScanState, later: string)
    requires Next(st, '\n') == Complete
    ensures LogicalEnd("\n" + later, st) == Terminated(1, 1)
  {
    var s := "\n" + later;
    assert s[..1] == "\n" && LineEnd(s) == 1;
    assert Scan(st, "\n") == Scan(Next(st, '\n'), "\n"[1..]);
  }

  lemma {:induction false} LineEndAt(body: string, newline: bool, later: string)
    requires '\n' !in body && (newline || later == "")
    ensures LineEnd(body + (if newline then "\n" else "") + later) == |body| + if newline then 1 else 0
  {
    var s := body + (if newline then "\n" else "") + later;
    if body == "" {
      assert s == (if newline then "\n" else "") + later;
    } else {
      assert s[1..] == body[1..] + (if newline then "\n" else "") + later;
      LineEndAt(body[1..], newline, later);
    }
  }

  lemma RemarkEnds(body: string, newline: bool, later: string)
    requires '\n' !in body && (newline || later == "")
    ensures LogicalEnd("#" + body + (if newline then "\n" else "") + later, WhiteSpace) ==
            Terminated(0, 1 + |body| + if newline then 1 else 0)
  {
    var s := "#" + body + (if newline then "\n" else "") + later;
    LineEndAt("#" + body, newline, later);
    var line := LineEnd(s);
    assert s[..line][0] == '#';
    CommentAbsorbs(s[..line][1..]);
  }

  lemma OpenIsQuiet(body: seq<Unit>, cut: bool, quote: char, st: ScanState)
    requires UnitsOk(body, quote) && (quote == '"' || quote == '\'') && Outside(st)
    ensures var u := [quote] + (SpellUnits(body) + if cut then "\\" else "");
            Quiet(st, u) && Scan(st, u) != Complete
  {
    hide Quiet, Scan, UnitsOk;
    var tail := if cut then "\\" else "";
    UnitsStayInside(body, quote);
    NothingIsQuiet(Inside(quote));
    NothingIsQuiet(Next(Inside(quote), '\\'));
    QuietStart(Inside(quote), '\\', "");
    assert ['\\'] + "" == "\\";
    QuietAppend(Inside(quote), SpellUnits(body), tail);
    ScanAppend(Inside(quote), SpellUnits(body), tail);
    QuietStart(st, quote, SpellUnits(body) + tail);
  }

  /** What an ending decides, counted from where it starts. */
  function Decided(ending: Ending): Extent {
    match ending
    case Newline(_) => Terminated(|SpellEnding(ending)|, |SpellEnding(ending)|)
    case Remark(_, _) => Terminated(0, |SpellEnding(ending)|)
    case _ => Unterminated(|SpellEnding(ending)|)
  }

  lemma EndIsDecided(l: LogicalLine)
    requires LineOk(l)
    ensures SpellEnding(l.ending) + l.later != "" ==> EndOf(l) == Shift(|SpellGlyphs(l.glyphs)|, Decided(l.ending))
    ensures SpellEnding(l.ending) + l.later == "" ==>
              var n := |SpellGlyphs(l.glyphs)|;
              && l.glyphs != []
              && EndOf(l) == if Between(l.glyphs) == Complete then Terminated(n, n) else Unterminated(n)
  {
    hide GlyphsOk, UnitsOk, SpellGlyphs, SpellUnits, TrailingBlanks;
    NoGlyphs();
  }

  /** What the ending decides, in the state left by the glyphs. */
  lemma EndingDecides(l: LogicalLine)
    requires LineOk(l) && SpellEnding(l.ending) + l.later != ""
    ensures LogicalEnd(SpellEnding(l.ending) + l.later, Between(l.glyphs)) == Decided(l.ending)
  {
    hide LogicalEnd, Quiet, Scan, UnitsOk, GlyphsOk;
    var st, text := Between(l.glyphs), SpellEnding(l.ending) + l.later;
    match l.ending {
      case Newline(slashed) =>
        if slashed {
          assert text == ['\\'] + ("\n" + l.later);
          AbsorbOne(st, '\\', "\n" + l.later);
          NewlineEnds(Escape, l.later);
        } else {
          NewlineEnds(st, l.later);
        }
      case Remark(body, newline) => RemarkEnds(body, newline, l.later);
      case CutSlash =>
        assert text == "\\" == ['\\'];
        LastCharacter(st, '\\');
      case OpenWeak(body, cut) =>
        OpenIsQuiet(body, cut, '"', st);
        assert text == SpellEnding(l.ending);
        QuietToTheEnd(st, text);
      case OpenStrong(body, cut) =>
        OpenIsQuiet(body, cut, '\'', st);
        assert text == SpellEnding(l.ending);
        QuietToTheEnd(st, text);
      case _ =>
    }
  }

  /** Every logical line ends where the grammar says. */
  lemma LineIsFound(l: LogicalLine)
    requires LineOk(l)
    ensures LogicalEnd(Spelling(l), Complete) == EndOf(l)
  {
    var text := SpellEnding(l.ending) + l.later;
    assert Spelling(l) == SpellGlyphs(l.glyphs) + text && GlyphsOk(l.glyphs);
    hide *;
    GlyphsAreQuiet(l.glyphs);
    EndIsDecided(l);
    if text == "" {
      assert Spelling(l) == SpellGlyphs(l.glyphs);
      NonEmptyGlyphs(l.glyphs);
      QuietToTheEnd(Complete, SpellGlyphs(l.glyphs));
    } else {
      EndingDecides(l);
      Absorb(Complete, SpellGlyphs(l.glyphs), text);
    }
  }

  lemma NonEmptyGlyphs(glyphs: seq<Glyph>)
    ensures glyphs != [] ==> SpellGlyphs(glyphs) != ""
  {
    if glyphs != [] {
      assert SpellGlyph(glyphs[|glyphs| - 1]) != "";
    }
  }

  // ----- every text is a logical line and what follows it -----

  lemma NoUnits()
    ensures SpellUnits([]) == ""
  {
  }

  lemma UnitsCons(u: Unit, body: seq<Unit>, quote: char)
    requires UnitsOk(body, quote) && UnitsOk([u], quote)
    ensures UnitsOk([u] + body, quote) && SpellUnits([u] + body) == SpellUnit(u) + SpellUnits(body)
  {
    assert ([u] + body)[1..] == body;
    assert u == [u][0];
  }

  /** The inside of quotes: units up to the closing quote, or up to the end. */
  lemma {:induction false} UnitsParse(s: string, quote: char)
    returns (body: seq<Unit>, closed: bool, rest: string, cut: bool)
    requires quote != '\\'
    ensures UnitsOk(body, quote)
    ensures closed ==> s == SpellUnits(body) + ([quote] + rest) && |rest| < |s|
    ensures !closed ==> s == SpellUnits(body) + if cut then "\\" else ""
    decreases |s|
  {
    hide SpellUnits;
    NoUnits();
    body, closed, rest, cut := [], false, "", false;
    if s == "" {
    } else if s[0] == quote {
      closed, rest := true, s[1..];
      assert s == [quote] + rest;
    } else if s == "\\" {
      cut := true;
    } else {
      var u, after := if s[0] == '\\' then Escaped(s[1]) else Literal(s[0]), if s[0] == '\\' then s[2..] else s[1..];
      assert s == SpellUnit(u) + after;
      body, closed, rest, cut := UnitsParse(after, quote);
      UnitsCons(u, body, quote);
      body := [u] + body;
    }
  }

  lemma {:induction false} RemarkParses(s: string) returns (body: string, newline: bool, later: string)
    ensures '\n' !in body && (newline || later == "") && s == body + (if newline then "\n" else "") + later
  {
    if s == "" {
      body, newline, later := "", false, "";
    } else if s[0] == '\n' {
      body, newline, later := "", true, s[1..];
      assert s == "\n" + later;
    } else {
      body, newline, later := RemarkParses(s[1..]);
      body := [s[0]] + body;
    }
  }

  lemma OneMoreGlyph(glyphs: seq<Glyph>, g: Glyph)
    requires GlyphsOk(glyphs) && GlyphOk(g) && (RemarkMayStart(glyphs) ==> g != Plain('#'))
    ensures GlyphsOk(glyphs + [g]) && SpellGlyphs(glyphs + [g]) == SpellGlyphs(glyphs) + SpellGlyph(g)
  {
    var all := glyphs + [g];
    assert all[..|glyphs|] == glyphs;
    forall i | 0 <= i < |glyphs| ensures all[..i] == glyphs[..i] {
    }
  }

  /** The next glyph, or the ending. */
  lemma GlyphParses(glyphs: seq<Glyph>, s: string) returns (glyph: seq<Glyph>, ending: Ending, later: string)
    requires s != "" || glyphs != []
    ensures |glyph| <= 1
    ensures glyph != [] ==>
              && GlyphOk(glyph[0]) && (RemarkMayStart(glyphs) ==> glyph[0] != Plain('#'))
              && s == SpellGlyph(glyph[0]) + later && |later| < |s|
    ensures glyph == [] ==> EndingOk(ending, glyphs, later) && s == SpellEnding(ending) + later
  {
    hide RemarkMayStart, UnitsOk;
    glyph, ending, later := [], if RemarkMayStart(glyphs) then Trailing else Finished, "";
    if s == "" {
    } else if s[0] == '\n' {
      ending, later := Newline(false), s[1..];
    } else if s[0] == '#' && RemarkMayStart(glyphs) {
      var body, newline;
      body, newline, later := RemarkParses(s[1..]);
      ending := Remark(body, newline);
      assert s == "#" + s[1..];
    } else if s == "\\" {
      ending := CutSlash;
    } else if s[0] == '\\' {
      later := s[2..];
      assert s == "\\" + [s[1]] + later;
      if s[1] == '\n' {
        ending := Newline(true);
      } else {
        glyph := [Slashed(s[1])];
      }
    } else if s[0] == '"' || s[0] == '\'' {
      glyph, ending, later := QuoteParses(s);
    } else {
      glyph, later := [Plain(s[0])], s[1..];
    }
  }

  lemma QuoteParses(s: string) returns (glyph: seq<Glyph>, ending: Ending, later: string)
    requires s != "" && (s[0] == '"' || s[0] == '\'')
    ensures |glyph| <= 1
    ensures glyph != [] ==>
              GlyphOk(glyph[0]) && !glyph[0].Plain? && s == SpellGlyph(glyph[0]) + later && |later| < |s|
    ensures glyph == [] ==> (ending.OpenWeak? || ending.OpenStrong?) && later == ""
                            && EndingOk(ending, [], later) && s == SpellEnding(ending)
  {
    hide UnitsOk;
    var body, closed, rest, cut := UnitsParse(s[1..], s[0]);
    assert s == [s[0]] + s[1..];
    glyph, later := [], "";
    ending := if s[0] == '"' then OpenWeak(body, cut) else OpenStrong(body, cut);
    if closed {
      glyph, later := [if s[0] == '"' then Weak(body) else Strong(body)], rest;
      assert s == [s[0]] + (SpellUnits(body) + [s[0]]) + rest;
    }
  }

  lemma {:induction false} RestParses(glyphs: seq<Glyph>, s: string) returns (l: LogicalLine)
    requires GlyphsOk(glyphs) && (s != "" || glyphs != [])
    ensures LineOk(l) && Spelling(l) == SpellGlyphs(glyphs) + s
    decreases |s|
  {
    hide GlyphsOk, GlyphOk, EndingOk, SpellGlyph, SpellEnding, SpellGlyphs;
    var glyph, ending, later := GlyphParses(glyphs, s);
    if glyph == [] {
      l := LogicalLine(glyphs, ending, later);
    } else {
      OneMoreGlyph(glyphs, glyph[0]);
      assert glyph == [glyph[0]];
      l := RestParses(glyphs + glyph, later);
      assert SpellGlyphs(glyphs) + s == SpellGlyphs(glyphs) + SpellGlyph(glyph[0]) + later;
    }
  }

  /** Where the logical line at the start of a text ends, and its value with it, for every text. */
  lemma LogicalEndMeetsGrammar(s: string, e: Extent)
    requires s != ""
    ensures LogicalEnd(s, Complete) == e <==> exists l :: LineOk(l) && Spelling(l) == s && EndOf(l) == e
  {
    assert SpellGlyphs([]) + s == s;
    hide LogicalEnd, LineOk, Spelling, EndOf;
    if LogicalEnd(s, Complete) == e {
      var l := RestParses([], s);
      LineIsFound(l);
    }
    if l :| LineOk(l) && Spelling(l) == s && EndOf(l) == e {
      LineIsFound(l);
    }
  }
}

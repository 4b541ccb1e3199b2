/** What the value of an assignment may look like, and what it means: a grammar of quoted, escaped and
    bare pieces, with the reading or the error of every text, independent of the machine that reads it. */
module DotenvGrammar {
  import opened Prelude
  import opened DotenvValue

  /** What may stand both bare and inside double quotes. */
  datatype Part =
    | Char(c: char)                               // a character that stands for itself
    | Escape(c: char)                             // a backslash and one of six characters
    | Reference(name: string, closing: Closing)   // a dollar sign and what it swallows

  datatype Closing =
    | Braces(body: string)   // `{`, anything but `}`, `}`
    | Verbatim(c: char)      // the character that ends the name, kept as it is

  datatype Piece = Bare(part: Part) | Single(body: string) | Double(parts: seq<Part>)

  /** A part that the end of the text, or an unknown escape, cuts short. */
  datatype Cut =
    | Nothing
    | CutEscape
    | CutReference(name: string)
    | CutBraces(name: string, body: string)
    | BadEscape(c: char, rest: string)

  datatype Ending =
    | Bareword(cut: Cut)                                // the text stops outside quotes
    | Blank(blanks: string, remark: Option<string>)     // blanks, then nothing or a remark
    | Junk(blanks: string, c: char, rest: string)       // blanks, then something else
    | OpenSingle(body: string)
    | OpenDouble(parts: seq<Part>, cut: Cut)

  datatype Reading = Reading(pieces: seq<Piece>, ending: Ending)

  // ----- spelling -----

  function SpellClosing(closing: Closing): string {
    match closing
    case Braces(body) => "{" + body + "}"
    case Verbatim(c) => [c]
  }

  function SpellPart(p: Part): string {
    match p
    case Char(c) => [c]
    case Escape(c) => "\\" + [c]
    case Reference(name, closing) => "$" + name + SpellClosing(closing)
  }

  function SpellParts(parts: seq<Part>): string {
    if parts == [] then "" else SpellPart(parts[0]) + SpellParts(parts[1..])
  }

  function SpellPiece(p: Piece): string {
    match p
    case Bare(part) => SpellPart(part)
    case Single(body) => "'" + body + "'"
    case Double(parts) => "\"" + SpellParts(parts) + "\""
  }

  function SpellCut(cut: Cut): string {
    match cut
    case Nothing => ""
    case CutEscape => "\\"
    case CutReference(name) => "$" + name
    case CutBraces(name, body) => "$" + name + "{" + body
    case BadEscape(c, rest) => "\\" + [c] + rest
  }

  function SpellEnding(ending: Ending): string {
    match ending
    case Bareword(cut) => SpellCut(cut)
    case Blank(blanks, remark) => blanks + if remark.Some? then "#" + remark.value else ""
    case Junk(blanks, c, rest) => blanks + [c] + rest
    case OpenSingle(body) => "'" + body
    case OpenDouble(parts, cut) => "\"" + SpellParts(parts) + SpellCut(cut)
  }

  function SpellPieces(pieces: seq<Piece>): string {
    if pieces == [] then "" else SpellPiece(pieces[0]) + SpellPieces(pieces[1..])
  }

  function Spelling(d: Reading): string {
    SpellPieces(d.pieces) + SpellEnding(d.ending)
  }

  // ----- what is allowed where -----

  predicate IsBlank(c: char) {
    c == ' ' || c == '\t'
  }

  predicate Escapable(c: char) {
    c == '\\' || c == '\'' || c == '"' || c == '$' || c == ' ' || c == 'n'
  }

  /** Inside double quotes a quote of the other kind and blanks stand for themselves. */
  predicate Literal(c: char, quoted: bool) {
    && c != '"' && c != '\\' && c != '$'
    && (quoted || (c != '\'' && !IsBlank(c)))
  }

  ghost predicate IsName(name: string) {
    forall i :: 0 <= i < |name| ==>
      'a' <= name[i] <= 'z' || 'A' <= name[i] <= 'Z' || '0' <= name[i] <= '9' || name[i] == '$'
  }

  ghost predicate PartOk(p: Part, quoted: bool) {
    match p
    case Char(c) => Literal(c, quoted)
    case Escape(c) => Escapable(c)
    case Reference(name, Braces(body)) => IsName(name) && '}' !in body
    case Reference(name, Verbatim(c)) => IsName(name) && !IsAlnum(c) && c != '$' && c != '{'
  }

  ghost predicate PartsOk(parts: seq<Part>, quoted: bool) {
    forall i :: 0 <= i < |parts| ==> PartOk(parts[i], quoted)
  }

  ghost predicate PieceOk(p: Piece) {
    match p
    case Bare(part) => PartOk(part, false)
    case Single(body) => '\'' !in body
    case Double(parts) => PartsOk(parts, true)
  }

  ghost predicate CutOk(cut: Cut) {
    match cut
    case CutReference(name) => IsName(name)
    case CutBraces(name, body) => IsName(name) && '}' !in body
    case BadEscape(c, _) => !Escapable(c)
    case _ => true
  }

  ghost predicate Blanks(s: string) {
    s != "" && forall i :: 0 <= i < |s| ==> IsBlank(s[i])
  }

  ghost predicate EndingOk(ending: Ending) {
    match ending
    case Bareword(cut) => CutOk(cut)
    case Blank(blanks, _) => Blanks(blanks)
    case Junk(blanks, c, _) => Blanks(blanks) && !IsBlank(c) && c != '#'
    case OpenSingle(body) => '\'' !in body
    case OpenDouble(parts, cut) => PartsOk(parts, true) && CutOk(cut)
  }

  ghost predicate Grammatical(d: Reading) {
    (forall i :: 0 <= i < |d.pieces| ==> PieceOk(d.pieces[i])) && EndingOk(d.ending)
  }

  // ----- meaning -----

  function PartText(p: Part): string {
    match p
    case Char(c) => [c]
    case Escape(c) => [if c == 'n' then '\n' else c]
    case Reference(_, Braces(_)) => ""
    case Reference(_, Verbatim(c)) => [c]
  }

  function PartsText(parts: seq<Part>): string {
    if parts == [] then "" else PartText(parts[0]) + PartsText(parts[1..])
  }

  predicate Refers(parts: seq<Part>) {
    exists i :: 0 <= i < |parts| && parts[i].Reference?
  }

  function PieceText(p: Piece): string {
    match p
    case Bare(part) => PartText(part)
    case Single(body) => body
    case Double(parts) => PartsText(parts)
  }

  predicate PieceRefers(p: Piece) {
    match p
    case Bare(part) => part.Reference?
    case Single(_) => false
    case Double(parts) => Refers(parts)
  }

  function Text(pieces: seq<Piece>): string {
    if pieces == [] then "" else PieceText(pieces[0]) + Text(pieces[1..])
  }

  /** The error a text ends in, if any. A lone backslash at the end is not one. */
  function EndingError(ending: Ending): Option<ParseError> {
    match ending
    case Bareword(CutBraces(_, _)) => Some(UnterminatedValue)
    case Bareword(BadEscape(c, _)) => Some(InvalidEscape(c))
    case Bareword(_) => None
    case Blank(_, _) => None
    case Junk(_, c, _) => Some(UnexpectedAfterValue(c))
    case OpenSingle(_) => Some(UnterminatedValue)
    case OpenDouble(_, BadEscape(c, _)) => Some(InvalidEscape(c))
    case OpenDouble(_, _) => Some(UnterminatedValue)
  }

  predicate SomeRefers(pieces: seq<Piece>) {
    exists i :: 0 <= i < |pieces| && PieceRefers(pieces[i])
  }

  predicate HasReference(d: Reading) {
    || SomeRefers(d.pieces)
    || (d.ending.Bareword? && d.ending.cut.CutReference?)
  }

  function Meaning(d: Reading): Result<Value, ParseError> {
    if EndingError(d.ending).Some? then Err(EndingError(d.ending).value)
    else Ok(Value(Text(d.pieces), HasReference(d)))
  }

  // ----- the machine follows the grammar -----

  /** Between two pieces, or between two parts inside double quotes. */
  predicate Ready(st: ValueState, quoted: bool) {
    st == START_OF_VALUE.(weakQuote := quoted, output := st.output, hasReference := st.hasReference)
  }

  function After(st: ValueState, text: string, reference: bool): ValueState {
    st.(output := st.output + text, hasReference := st.hasReference || reference)
  }

  function Resume(st: ValueState, step: Step, rest: string): Result<Value, ParseError> {
    match step
    case Go(next) => RunValue(next, rest)
    case Stop => EndOfValue(st)
    case Fail(error) => Err(error)
  }

  lemma OneStep(st: ValueState, c: char, rest: string)
    ensures RunValue(st, [c] + rest) == Resume(st, ValueStep(st, c), rest)
  {
    assert ([c] + rest)[1..] == rest;
  }

  lemma {:induction false} NameRuns(st: ValueState, name: string, rest: string)
    requires !st.expectingEnd && !st.escaped && !st.strongQuote && st.subMode == Block && IsName(name)
    ensures RunValue(st, name + rest) == RunValue(st.(hasReference := st.hasReference || '$' in name), rest)
    decreases |name|
  {
    hide RunValue;
    if name == "" {
      assert name + rest == rest;
    } else {
      assert name + rest == [name[0]] + (name[1..] + rest);
      OneStep(st, name[0], name[1..] + rest);
      NameRuns(if name[0] == '$' then st.(hasReference := true) else st, name[1..], rest);
      assert name == [name[0]] + name[1..];
    }
  }

  lemma {:induction false} BodyRuns(st: ValueState, body: string, rest: string)
    requires !st.expectingEnd && !st.escaped && !st.strongQuote && st.subMode == EscapedBlock && '}' !in body
    ensures RunValue(st, body + rest) == RunValue(st, rest)
    decreases |body|
  {
    hide RunValue;
    if body == "" {
      assert body + rest == rest;
    } else {
      assert body + rest == [body[0]] + (body[1..] + rest);
      OneStep(st, body[0], body[1..] + rest);
      BodyRuns(st, body[1..], rest);
    }
  }

  lemma {:induction false} SingleRuns(st: ValueState, body: string, rest: string)
    requires !st.expectingEnd && !st.escaped && st.strongQuote && '\'' !in body
    ensures RunValue(st, body + rest) == RunValue(st.(output := st.output + body), rest)
    decreases |body|
  {
    hide RunValue;
    if body == "" {
      assert body + rest == rest && st.output + body == st.output;
    } else {
      assert body + rest == [body[0]] + (body[1..] + rest);
      OneStep(st, body[0], body[1..] + rest);
      SingleRuns(Emit(st, body[0]), body[1..], rest);
      assert (st.output + [body[0]]) + body[1..] == st.output + body;
    }
  }

  lemma ReferenceRuns(st: ValueState, name: string, closing: Closing, quoted: bool, rest: string)
    requires Ready(st, quoted) && PartOk(Reference(name, closing), quoted)
    ensures var p := Reference(name, closing);
            RunValue(st, SpellPart(p) + rest) == RunValue(After(st, PartText(p), true), rest)
  {
    hide RunValue, IsName;
    var tail := SpellClosing(closing) + rest;
    assert SpellPart(Reference(name, closing)) + rest == "$" + name + tail;
    DollarRuns(st, name, tail, quoted);
    match closing {
      case Braces(body) =>
        assert tail == ['{'] + (body + (['}'] + rest));
        BracesRun(Swallowing(st, name), body, ['}'] + rest);
        OneStep(Swallowing(st, name).(subMode := EscapedBlock), '}', rest);
        assert st.output + "" == st.output;
      case Verbatim(c) =>
        OneStep(Swallowing(st, name), c, rest);
    }
  }

  /** After a dollar sign and a name, which may hold more dollar signs. */
  function Swallowing(st: ValueState, name: string): ValueState {
    st.(subMode := Block, hasReference := st.hasReference || '$' in name)
  }

  lemma DollarRuns(st: ValueState, name: string, rest: string, quoted: bool)
    requires Ready(st, quoted) && IsName(name)
    ensures RunValue(st, "$" + name + rest) == RunValue(Swallowing(st, name), rest)
  {
    hide RunValue, IsName;
    assert "$" + name + rest == ['$'] + (name + rest);
    OneStep(st, '$', name + rest);
    NameRuns(st.(subMode := Block), name, rest);
  }

  lemma BracesRun(st: ValueState, body: string, rest: string)
    requires !st.expectingEnd && !st.escaped && !st.strongQuote && st.subMode == Block && '}' !in body
    ensures RunValue(st, ['{'] + (body + rest)) == RunValue(st.(subMode := EscapedBlock), rest)
  {
    hide RunValue;
    OneStep(st, '{', body + rest);
    BodyRuns(st.(subMode := EscapedBlock), body, rest);
  }

  lemma PartRuns(st: ValueState, p: Part, quoted: bool, rest: string)
    requires Ready(st, quoted) && PartOk(p, quoted)
    ensures RunValue(st, SpellPart(p) + rest) == RunValue(After(st, PartText(p), p.Reference?), rest)
  {
    hide RunValue;
    match p {
      case Char(c) => OneStep(st, c, rest);
      case Escape(c) =>
        assert SpellPart(p) + rest == ['\\'] + ([c] + rest);
        OneStep(st, '\\', [c] + rest);
        OneStep(st.(escaped := true), c, rest);
      case Reference(name, closing) => ReferenceRuns(st, name, closing, quoted, rest);
    }
  }

  lemma {:induction false} PartsRun(st: ValueState, parts: seq<Part>, quoted: bool, rest: string)
    requires Ready(st, quoted) && PartsOk(parts, quoted)
    ensures RunValue(st, SpellParts(parts) + rest) == RunValue(After(st, PartsText(parts), Refers(parts)), rest)
    decreases |parts|
  {
    hide RunValue, PartOk, SpellPart, PartText, Refers;
    if parts == [] {
      NothingRefers();
      assert SpellParts(parts) + rest == rest && st.output + PartsText(parts) == st.output;
    } else {
      var later := SpellParts(parts[1..]) + rest;
      assert SpellParts(parts) + rest == SpellPart(parts[0]) + later;
      PartRuns(st, parts[0], quoted, later);
      var next := After(st, PartText(parts[0]), parts[0].Reference?);
      PartsRun(next, parts[1..], quoted, rest);
      assert (st.output + PartText(parts[0])) + PartsText(parts[1..]) == st.output + PartsText(parts);
      RefersSplit(parts);
    }
  }

  lemma NothingRefers()
    ensures !Refers([]) && !SomeRefers([])
  {
  }

  lemma RefersSplit(parts: seq<Part>)
    requires parts != []
    ensures Refers(parts) <==> parts[0].Reference? || Refers(parts[1..])
  {
    if Refers(parts) && !parts[0].Reference? {
      var i :| 0 <= i < |parts| && parts[i].Reference?;
      assert parts[1..][i - 1] == parts[i];
    }
    if Refers(parts[1..]) {
      var i :| 0 <= i < |parts[1..]| && parts[1..][i].Reference?;
      assert parts[i + 1] == parts[1..][i];
    }
  }

  lemma PieceRuns(st: ValueState, p: Piece, rest: string)
    requires Ready(st, false) && PieceOk(p)
    ensures RunValue(st, SpellPiece(p) + rest) == RunValue(After(st, PieceText(p), PieceRefers(p)), rest)
  {
    hide RunValue, PartOk;
    match p {
      case Bare(part) => PartRuns(st, part, false, rest);
      case Single(body) =>
        assert SpellPiece(p) + rest == ['\''] + (body + (['\''] + rest));
        OneStep(st, '\'', body + (['\''] + rest));
        SingleRuns(st.(strongQuote := true), body, ['\''] + rest);
        OneStep(After(st, body, false).(strongQuote := true), '\'', rest);
      case Double(parts) =>
        assert SpellPiece(p) + rest == ['"'] + (SpellParts(parts) + (['"'] + rest));
        OneStep(st, '"', SpellParts(parts) + (['"'] + rest));
        PartsRun(st.(weakQuote := true), parts, true, ['"'] + rest);
        OneStep(After(st, PartsText(parts), Refers(parts)).(weakQuote := true), '"', rest);
    }
  }

  lemma {:induction false} BlanksRun(st: ValueState, blanks: string, rest: string)
    requires st.expectingEnd && forall i :: 0 <= i < |blanks| ==> IsBlank(blanks[i])
    ensures RunValue(st, blanks + rest) == RunValue(st, rest)
    decreases |blanks|
  {
    hide RunValue;
    if blanks == "" {
      assert blanks + rest == rest;
    } else {
      assert blanks + rest == [blanks[0]] + (blanks[1..] + rest);
      OneStep(st, blanks[0], blanks[1..] + rest);
      BlanksRun(st, blanks[1..], rest);
    }
  }

  /** A text cut short: in double quotes it is unterminated unless an unknown escape comes first. */
  lemma CutRuns(st: ValueState, cut: Cut, quoted: bool)
    requires Ready(st, quoted) && CutOk(cut)
    ensures RunValue(st, SpellCut(cut)) ==
            if cut.BadEscape? then Err(InvalidEscape(cut.c))
            else if quoted || cut.CutBraces? then Err(UnterminatedValue)
            else Ok(Value(st.output, st.hasReference || cut.CutReference?))
  {
    hide RunValue, IsName;
    match cut {
      case Nothing => AtEnd(st);
      case CutEscape =>
        assert SpellCut(cut) == ['\\'] + "";
        OneStep(st, '\\', "");
        AtEnd(st.(escaped := true));
      case CutReference(name) =>
        assert SpellCut(cut) == "$" + name + "";
        DollarRuns(st, name, "", quoted);
        AtEnd(Swallowing(st, name));
      case CutBraces(name, body) =>
        assert SpellCut(cut) == "$" + name + (['{'] + (body + ""));
        DollarRuns(st, name, ['{'] + (body + ""), quoted);
        BracesRun(Swallowing(st, name), body, "");
        AtEnd(Swallowing(st, name).(subMode := EscapedBlock));
      case BadEscape(c, rest) =>
        assert SpellCut(cut) == ['\\'] + ([c] + rest);
        OneStep(st, '\\', [c] + rest);
        OneStep(st.(escaped := true), c, rest);
    }
  }

  lemma EndingRuns(st: ValueState, ending: Ending)
    requires Ready(st, false) && EndingOk(ending)
    ensures RunValue(st, SpellEnding(ending)) ==
            if EndingError(ending).Some? then Err(EndingError(ending).value)
            else Ok(Value(st.output, st.hasReference || (ending.Bareword? && ending.cut.CutReference?)))
  {
    hide RunValue, CutOk, PartOk, SpellCut, SpellPart, Refers, PartsText;
    match ending {
      case Bareword(cut) => CutRuns(st, cut, false);
      case Blank(blanks, remark) => RemarkRuns(st, blanks, remark);
      case Junk(blanks, c, rest) =>
        assert SpellEnding(ending) == blanks + ([c] + rest);
        BlanksThen(st, blanks, [c] + rest);
        OneStep(st.(expectingEnd := true), c, rest);
      case OpenSingle(body) =>
        assert SpellEnding(ending) == ['\''] + (body + "");
        OneStep(st, '\'', body + "");
        SingleRuns(st.(strongQuote := true), body, "");
        AtEnd(st.(strongQuote := true, output := st.output + body));
      case OpenDouble(parts, cut) =>
        assert SpellEnding(ending) == ['"'] + (SpellParts(parts) + SpellCut(cut));
        OneStep(st, '"', SpellParts(parts) + SpellCut(cut));
        PartsRun(st.(weakQuote := true), parts, true, SpellCut(cut));
        CutRuns(After(st, PartsText(parts), Refers(parts)).(weakQuote := true), cut, true);
    }
  }

  lemma AtEnd(st: ValueState)
    ensures RunValue(st, "") == EndOfValue(st)
  {
  }

  lemma RemarkRuns(st: ValueState, blanks: string, remark: Option<string>)
    requires Ready(st, false) && Blanks(blanks)
    ensures RunValue(st, SpellEnding(Blank(blanks, remark))) == Ok(Value(st.output, st.hasReference))
  {
    hide RunValue, Blanks;
    var tail := if remark.Some? then "#" + remark.value else "";
    BlanksThen(st, blanks, tail);
    AtEnd(st.(expectingEnd := true));
    if remark.Some? {
      OneStep(st.(expectingEnd := true), '#', remark.value);
    }
  }

  lemma BlanksThen(st: ValueState, blanks: string, rest: string)
    requires Ready(st, false) && Blanks(blanks)
    ensures RunValue(st, blanks + rest) == RunValue(st.(expectingEnd := true), rest)
  {
    assert blanks + rest == [blanks[0]] + (blanks[1..] + rest);
    OneStep(st, blanks[0], blanks[1..] + rest);
    BlanksRun(st.(expectingEnd := true), blanks[1..], rest);
  }

  lemma SomeRefersSplit(pieces: seq<Piece>)
    requires pieces != []
    ensures SomeRefers(pieces) <==> PieceRefers(pieces[0]) || SomeRefers(pieces[1..])
  {
    hide PieceRefers;
    if SomeRefers(pieces) && !PieceRefers(pieces[0]) {
      var i :| 0 <= i < |pieces| && PieceRefers(pieces[i]);
      assert pieces[1..][i - 1] == pieces[i];
    }
    if SomeRefers(pieces[1..]) {
      var i :| 0 <= i < |pieces[1..]| && PieceRefers(pieces[1..][i]);
      assert pieces[i + 1] == pieces[1..][i];
    }
  }

  lemma {:induction false} PiecesRun(st: ValueState, pieces: seq<Piece>, rest: string)
    requires Ready(st, false) && forall i :: 0 <= i < |pieces| ==> PieceOk(pieces[i])
    ensures RunValue(st, SpellPieces(pieces) + rest) == RunValue(After(st, Text(pieces), SomeRefers(pieces)), rest)
    decreases |pieces|
  {
    hide RunValue, PieceOk, PieceRefers, SomeRefers, SpellPiece, PieceText;
    if pieces == [] {
      NothingRefers();
      assert SpellPieces(pieces) + rest == rest && st.output + Text(pieces) == st.output;
    } else {
      var later := SpellPieces(pieces[1..]) + rest;
      assert SpellPieces(pieces) + rest == SpellPiece(pieces[0]) + later;
      PieceRuns(st, pieces[0], later);
      PiecesRun(After(st, PieceText(pieces[0]), PieceRefers(pieces[0])), pieces[1..], rest);
      assert (st.output + PieceText(pieces[0])) + Text(pieces[1..]) == st.output + Text(pieces);
      SomeRefersSplit(pieces);
    }
  }

  /** Every grammatical text reads as the grammar says. */
  lemma GrammarIsRead(d: Reading)
    requires Grammatical(d)
    ensures RunValue(START_OF_VALUE, Spelling(d)) == Meaning(d)
  {
    hide RunValue, PieceOk, EndingOk, EndingError, SpellPieces, SpellEnding, Text, SomeRefers;
    PiecesRun(START_OF_VALUE, d.pieces, SpellEnding(d.ending));
    EndingRuns(After(START_OF_VALUE, Text(d.pieces), SomeRefers(d.pieces)), d.ending);
    assert "" + Text(d.pieces) == Text(d.pieces);
  }

  // ----- every text is grammatical -----

  /** Splits off the longest name. */
  lemma {:induction false} LongestName(s: string) returns (name: string, rest: string)
    ensures s == name + rest && IsName(name)
    ensures rest != "" ==> !IsAlnum(rest[0]) && rest[0] != '$'
  {
    if s != "" && (IsAlnum(s[0]) || s[0] == '$') {
      name, rest := LongestName(s[1..]);
      name := [s[0]] + name;
    } else {
      name, rest := "", s;
    }
  }

  /** Splits at the first `c`, if there is one. */
  lemma {:induction false} UpTo(s: string, c: char) returns (before: string, rest: string)
    ensures c !in before
    ensures c in s ==> s == before + [c] + rest
    ensures c !in s ==> s == before
  {
    if s == "" {
      before, rest := "", "";
    } else if s[0] == c {
      before, rest := "", s[1..];
    } else {
      before, rest := UpTo(s[1..], c);
      before := [s[0]] + before;
    }
  }

  lemma {:induction false} LongestBlanks(s: string) returns (blanks: string, rest: string)
    ensures s == blanks + rest && (rest != "" ==> !IsBlank(rest[0]))
    ensures forall i :: 0 <= i < |blanks| ==> IsBlank(blanks[i])
  {
    if s != "" && IsBlank(s[0]) {
      blanks, rest := LongestBlanks(s[1..]);
      blanks := [s[0]] + blanks;
    } else {
      blanks, rest := "", s;
    }
  }

  lemma ReferenceParses(s: string, quoted: bool) returns (whole: Option<Part>, rest: string, cut: Cut)
    ensures whole.Some? ==> PartOk(whole.value, quoted) && "$" + s == SpellPart(whole.value) + rest && |rest| <= |s|
    ensures whole.None? ==> CutOk(cut) && "$" + s == SpellCut(cut)
  {
    hide IsName, SpellPart, SpellCut;
    var name, tail := LongestName(s);
    whole, rest, cut := None, "", Nothing;
    assert "$" + s == "$" + name + tail;
    if tail == "" {
      cut := CutReference(name);
      SpelledCut(name, "");
    } else if tail[0] != '{' {
      whole, rest := Some(Reference(name, Verbatim(tail[0]))), tail[1..];
      assert tail == [tail[0]] + rest;
      SpelledReference(name, Verbatim(tail[0]), rest);
    } else {
      var body, later := UpTo(tail[1..], '}');
      assert tail == "{" + tail[1..];
      if '}' in tail[1..] {
        whole, rest := Some(Reference(name, Braces(body))), later;
        assert tail == "{" + body + "}" + later;
        SpelledReference(name, Braces(body), later);
      } else {
        cut := CutBraces(name, body);
        SpelledCut(name, body);
      }
    }
  }

  lemma SpelledReference(name: string, closing: Closing, rest: string)
    ensures SpellPart(Reference(name, closing)) + rest == "$" + name + (SpellClosing(closing) + rest)
  {
  }

  lemma SpelledCut(name: string, body: string)
    ensures SpellCut(CutReference(name)) == "$" + name + ""
    ensures SpellCut(CutBraces(name, body)) == "$" + name + ("{" + body)
  {
  }

  /** The first part of a text that does not start with a character of another kind. */
  lemma PartParses(s: string, quoted: bool) returns (whole: Option<Part>, rest: string, cut: Cut)
    requires s != "" && (Literal(s[0], quoted) || s[0] == '\\' || s[0] == '$')
    ensures whole.Some? ==> PartOk(whole.value, quoted) && s == SpellPart(whole.value) + rest && |rest| < |s|
    ensures whole.None? ==> CutOk(cut) && s == SpellCut(cut)
  {
    hide IsName;
    whole, rest, cut := None, "", Nothing;
    assert s == [s[0]] + s[1..];
    if s[0] == '$' {
      whole, rest, cut := ReferenceParses(s[1..], quoted);
    } else if s[0] != '\\' {
      whole, rest := Some(Char(s[0])), s[1..];
    } else if |s| == 1 {
      cut := CutEscape;
    } else if Escapable(s[1]) {
      whole, rest := Some(Escape(s[1])), s[2..];
      assert s == "\\" + [s[1]] + s[2..];
    } else {
      cut := BadEscape(s[1], s[2..]);
      assert s == "\\" + [s[1]] + s[2..];
    }
  }

  /** The inside of double quotes: parts up to the closing quote, or parts and a cut. */
  lemma {:induction false} PartsParse(s: string) returns (parts: seq<Part>, closed: bool, rest: string, cut: Cut)
    ensures PartsOk(parts, true)
    ensures closed ==> s == SpellParts(parts) + "\"" + rest
    ensures !closed ==> CutOk(cut) && s == SpellParts(parts) + SpellCut(cut)
    decreases |s|
  {
    hide PartOk, SpellPart, SpellCut, CutOk;
    parts, closed, rest, cut := [], false, "", Nothing;
    if s == "" {
      NothingCut();
    } else if s[0] == '"' {
      closed, rest := true, s[1..];
    } else {
      var whole: Option<Part>;
      var later;
      whole, later, cut := PartParses(s, true);
      if whole.Some? {
        parts, closed, rest, cut := PartsParse(later);
        ConsParts(whole.value, parts);
        parts := [whole.value] + parts;
      }
    }
  }

  lemma NothingCut()
    ensures CutOk(Nothing) && SpellCut(Nothing) == ""
  {
  }

  lemma ConsParts(p: Part, parts: seq<Part>)
    requires PartOk(p, true) && PartsOk(parts, true)
    ensures PartsOk([p] + parts, true) && SpellParts([p] + parts) == SpellPart(p) + SpellParts(parts)
  {
    hide PartOk;
    assert ([p] + parts)[1..] == parts;
  }

  /** One piece off the front, or the ending. */
  lemma PieceParses(s: string) returns (piece: Option<Piece>, rest: string, ending: Ending)
    ensures piece.Some? ==> PieceOk(piece.value) && s == SpellPiece(piece.value) + rest && |rest| < |s|
    ensures piece.None? ==> EndingOk(ending) && s == SpellEnding(ending)
  {
    hide PartOk, CutOk, SpellPart, SpellCut;
    piece, rest, ending := None, "", Bareword(Nothing);
    if s == "" {
      NothingCut();
    } else if s[0] == '\'' {
      var body;
      body, rest := UpTo(s[1..], '\'');
      assert s == "'" + s[1..];
      if '\'' in s[1..] {
        piece := Some(Single(body));
        assert s == "'" + body + "'" + rest;
      } else {
        ending := OpenSingle(body);
      }
    } else if s[0] == '"' {
      var parts, closed, later, cut := PartsParse(s[1..]);
      assert s == "\"" + s[1..];
      if closed {
        piece, rest := Some(Double(parts)), later;
        assert s == "\"" + SpellParts(parts) + "\"" + rest;
      } else {
        ending := OpenDouble(parts, cut);
      }
    } else if IsBlank(s[0]) {
      ending := BlankEnding(s);
    } else {
      var whole, later, cut := PartParses(s, false);
      if whole.Some? {
        piece, rest := Some(Bare(whole.value)), later;
      } else {
        ending := Bareword(cut);
      }
    }
  }

  lemma BlankEnding(s: string) returns (ending: Ending)
    requires s != "" && IsBlank(s[0])
    ensures EndingOk(ending) && s == SpellEnding(ending)
  {
    var blanks, tail := LongestBlanks(s);
    if tail == "" {
      ending := Blank(blanks, None);
    } else if tail[0] == '#' {
      ending := Blank(blanks, Some(tail[1..]));
      assert tail == "#" + tail[1..];
    } else {
      ending := Junk(blanks, tail[0], tail[1..]);
      assert tail == [tail[0]] + tail[1..];
    }
  }

  lemma {:induction false} EveryTextIsGrammatical(s: string) returns (d: Reading)
    ensures Grammatical(d) && Spelling(d) == s
    decreases |s|
  {
    hide PieceOk, EndingOk, SpellPiece, SpellEnding;
    var piece, rest, ending := PieceParses(s);
    if piece.None? {
      d := Reading([], ending);
    } else {
      var later := EveryTextIsGrammatical(rest);
      d := Reading([piece.value] + later.pieces, later.ending);
      assert d.pieces[1..] == later.pieces;
      assert s == SpellPiece(piece.value) + (SpellPieces(later.pieces) + SpellEnding(later.ending));
    }
  }

  /** The reading of a text is the meaning of its spelling, for every text and every answer: value,
      reference flag, or error. */
  lemma ValueMeetsGrammar(s: string, r: Result<Value, ParseError>)
    ensures RunValue(START_OF_VALUE, s) == r <==> exists d :: Grammatical(d) && Spelling(d) == s && Meaning(d) == r
  {
    hide RunValue, Grammatical, Spelling, Meaning;
    if RunValue(START_OF_VALUE, s) == r {
      var d := EveryTextIsGrammatical(s);
      GrammarIsRead(d);
    }
    if d :| Grammatical(d) && Spelling(d) == s && Meaning(d) == r {
      GrammarIsRead(d);
    }
  }

  function BareParts(s: string): seq<Piece> {
    seq(|s|, i requires 0 <= i < |s| => Bare(Char(s[i])))
  }

  lemma {:induction false} PlainPieces(s: string)
    ensures SpellPieces(BareParts(s)) == s && Text(BareParts(s)) == s
    ensures !SomeRefers(BareParts(s))
  {
    if s != "" {
      assert BareParts(s)[1..] == BareParts(s[1..]);
      PlainPieces(s[1..]);
      assert s == [s[0]] + s[1..];
    }
  }

  /** Without quotes, backslashes, dollar signs and blanks, a text is its own value. */
  lemma PlainTextIsItself(s: string)
    requires forall i :: 0 <= i < |s| ==> s[i] !in ['\'', '"', '\\', '$', ' ', '\t']
    ensures RunValue(START_OF_VALUE, s) == Ok(Value(s, false))
  {
    hide RunValue, SpellPieces, Text, PieceRefers;
    var d := Reading(BareParts(s), Bareword(Nothing));
    PlainPieces(s);
    assert Spelling(d) == s + "" == s;
    assert forall i :: 0 <= i < |s| ==> Literal(s[i], false);
    assert Grammatical(d) && !HasReference(d);
    GrammarIsRead(d);
  }
}

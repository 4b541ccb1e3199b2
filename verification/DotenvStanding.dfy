/** Lines that can be read on their own, and what becomes of a last line that is not finished. */
module DotenvStanding {
  import opened Prelude
  import opened DotenvScanner
  import opened DotenvValue
  import opened DotenvParser
  import opened DotenvLines

  // ----- lines that stand on their own -----

  /** The line's text, read in isolation, is that one finished line. */
  ghost predicate Stands(l: Line) {
    Lines(l.text) == [l] && EndsWithNewline(l.text) && l.body != Unsupported(UnterminatedLine)
  }

  ghost predicate AllStand(lines: seq<Line>) {
    forall i :: 0 <= i < |lines| ==> Stands(lines[i])
  }

  lemma {:induction false} LineEndPrefix(s: string, k: nat)
    requires LineEnd(s) <= k <= |s|
    ensures LineEnd(s[..k]) == LineEnd(s)
  {
    if s != "" && s[0] != '\n' {
      assert s[..k][1..] == s[1..][..k - 1];
      LineEndPrefix(s[1..], k - 1);
    }
  }

  lemma {:induction false} LogicalEndPrefix(s: string, state: ScanState)
    requires s != "" && LogicalEnd(s, state).Terminated?
    ensures var e := LogicalEnd(s, state); LogicalEnd(s[..e.end], state) == e
    decreases |s|
  {
    hide LogicalEnd, LineEnd, Scan, CommentAt;
    var e, line := LogicalEnd(s, state), LineEnd(s);
    LogicalEndUnfold(s, state);
    var st := Scan(state, s[..line]);
    if st != Complete && st != Comment {
      LogicalEndPrefix(s[line..], st);
      assert s[..e.end][line..] == s[line..][..e.end - line];
    }
    LineEndPrefix(s, e.end);
    assert s[..e.end][..line] == s[..line];
    LogicalEndUnfold(s[..e.end], state);
  }

  lemma FirstLineStands(s: string)
    requires s != "" && EndsWithNewline(FirstLine(s).text) && FirstLine(s).body != Unsupported(UnterminatedLine)
    ensures Stands(FirstLine(s))
  {
    var l := FirstLine(s);
    FirstLineAlone(s);
    hide FirstLine, Lines;
    LinesUnfold(l.text);
    assert l.text[|l.text|..] == "";
    NoLines();
  }

  lemma NoLines()
    ensures Lines("") == []
  {
  }

  lemma FirstLineAlone(s: string)
    requires s != "" && FirstLine(s).body != Unsupported(UnterminatedLine)
    ensures FirstLine(FirstLine(s).text) == FirstLine(s)
  {
    hide LogicalEnd, LineEnd, Classify, SkipSpace, TrimEnd;
    var l, line := FirstLine(s), LineEnd(s);
    if StartsWithHash(SkipSpace(s[..line])) {
      LineEndPrefix(s, line);
      assert s[..line][..line] == s[..line];
    } else {
      var e := LogicalEnd(s, Complete);
      LogicalEndPrefix(s, Complete);
      LogicalEndCoversLine(s, Complete);
      LineEndPrefix(s, e.end);
      assert s[..e.end][..line] == s[..line] && s[..e.end][..e.end] == s[..e.end];
      assert s[..e.end][..e.valueEnd] == s[..e.valueEnd];
    }
  }

  lemma LogicalEndCoversLine(s: string, state: ScanState)
    requires s != ""
    ensures LineEnd(s) <= LogicalEnd(s, state).end
  {
  }

  /** Every line of a closed document stands on its own. */
  lemma {:induction false} ClosedLinesStand(s: string)
    requires Closed(s)
    ensures AllStand(Lines(s))
    decreases |s|
  {
    if s != "" {
      hide FirstLine, Lines, Stands;
      var l, tail := FirstLine(s), s[|FirstLine(s).text|..];
      ClosedTail(s);
      FirstLineStands(s);
      ClosedLinesStand(tail);
      LinesUnfold(s);
    } else {
      NoLines();
    }
  }

  lemma StandingLineIsClosed(l: Line)
    requires Stands(l)
    ensures Lines(l.text) == [l] && Closed(l.text)
  {
  }

  /** Splitting is the inverse of joining, on lines that stand. */
  lemma {:induction false} SplitJoin(lines: seq<Line>)
    requires AllStand(lines)
    ensures Lines(Join(lines)) == lines && Closed(Join(lines))
  {
    if lines == [] {
      NoLines();
    } else {
      hide Lines, Stands, Closed;
      var l := lines[0];
      StandingLineIsClosed(l);
      SplitJoin(lines[1..]);
      SplitIsLocal(l.text, Join(lines[1..]));
      ClosedConcat(l.text, Join(lines[1..]));
      assert [l] + lines[1..] == lines;
    }
  }

  lemma StandsCons(l: Line, rest: seq<Line>)
    requires Stands(l) && AllStand(rest)
    ensures AllStand([l] + rest) && Join([l] + rest) == l.text + Join(rest)
  {
    hide Stands;
    assert ([l] + rest)[1..] == rest;
  }

  lemma {:induction false} JoinConcat(a: seq<Line>, b: seq<Line>)
    ensures Join(a + b) == Join(a) + Join(b)
  {
    if a == [] {
      assert a + b == b;
    } else {
      assert (a + b)[1..] == a[1..] + b;
      JoinConcat(a[1..], b);
    }
  }

  lemma JoinOne(l: Line)
    ensures Join([l]) == l.text
  {
    assert Join([l]) == l.text + Join([l][1..]);
  }

  lemma StandsConcat(a: seq<Line>, b: seq<Line>)
    requires AllStand(a) && AllStand(b)
    ensures AllStand(a + b)
  {
  }

  // ----- a whole document: its last line may be unfinished -----

  /** The line's text, read in isolation, is that one line, finished or not. */
  ghost predicate Alone(l: Line) {
    l.text != "" && Lines(l.text) == [l]
  }

  /** Lines as a document has them: all but the last one stand. */
  ghost predicate Sound(lines: seq<Line>)
    decreases |lines|
  {
    lines == [] || (Alone(lines[0]) && (|lines| > 1 ==> Stands(lines[0])) && Sound(lines[1..]))
  }

  lemma StandingIsAlone(l: Line)
    requires Stands(l)
    ensures Alone(l)
  {
  }

  lemma {:induction false} UnterminatedReachesEnd(s: string, state: ScanState)
    requires LogicalEnd(s, state).Unterminated?
    ensures LogicalEnd(s, state).end == |s|
    decreases |s|
  {
    hide LogicalEnd, LineEnd, Scan, CommentAt;
    if s == "" {
      EmptyExtent(state);
    } else {
      LogicalEndUnfold(s, state);
      LineEndIsInside(s);
      if LineEnd(s) < |s| {
        UnterminatedReachesEnd(s[LineEnd(s)..], Scan(state, s[..LineEnd(s)]));
      }
    }
  }

  lemma EmptyExtent(state: ScanState)
    ensures LogicalEnd("", state) == Unterminated(0)
  {
  }

  /** A line with text behind it is finished. */
  lemma FirstLineInside(s: string)
    requires s != "" && |FirstLine(s).text| < |s|
    ensures EndsWithNewline(FirstLine(s).text) && FirstLine(s).body != Unsupported(UnterminatedLine)
  {
    hide *;
    FirstLineText(s);
    if StartsWithHash(SkipSpace(s[..LineEnd(s)])) {
      LineEndInterior(s);
      PrefixEnds(s, LineEnd(s));
    } else {
      var e := LogicalEnd(s, Complete);
      if e.Unterminated? {
        UnterminatedReachesEnd(s, Complete);
      } else {
        TerminatedInterior(s, Complete);
        PrefixEnds(s, e.end);
      }
    }
  }

  lemma SoundOne(l: Line)
    requires Alone(l)
    ensures Sound([l])
  {
    hide Alone;
    assert [l][1..] == [];
  }

  lemma SoundCons(l: Line, rest: seq<Line>)
    requires Stands(l) && Sound(rest)
    ensures Sound([l] + rest)
  {
    StandingIsAlone(l);
    hide Alone, Stands;
    assert ([l] + rest)[1..] == rest;
  }

  lemma NothingSound()
    ensures Sound([])
  {
  }

  /** The lines of any document. */
  lemma {:induction false} LinesSound(s: string)
    ensures Sound(Lines(s))
    decreases |s|
  {
    hide *;
    if s == "" {
      NoLines();
      NothingSound();
    } else {
      var l := FirstLine(s);
      var tail := s[|l.text|..];
      LinesUnfold(s);
      if tail == "" {
        assert l.text == s;
        NoLines();
        AloneWhen(l, s);
        SoundOne(l);
        assert [l] + [] == [l];
      } else {
        FirstLineInside(s);
        FirstLineStands(s);
        LinesSound(tail);
        SoundCons(l, Lines(tail));
      }
    }
  }

  lemma AloneWhen(l: Line, s: string)
    requires s != "" && l.text == s && Lines(s) == [l] + []
    ensures Alone(l)
  {
    assert [l] + [] == [l];
  }

  lemma SoundHead(lines: seq<Line>)
    requires Sound(lines) && lines != []
    ensures Alone(lines[0]) && Sound(lines[1..]) && (|lines| > 1 ==> Stands(lines[0]))
  {
  }

  lemma AloneReads(l: Line)
    requires Alone(l)
    ensures l.text != "" && Lines(l.text) == [l] && FirstLine(l.text) == l
  {
    hide FirstLine;
    LinesUnfold(l.text);
    assert Lines(l.text)[0] == FirstLine(l.text);
  }

  /** Splitting undoes joining for the lines of any document. */
  lemma {:induction false} SplitJoinSound(lines: seq<Line>)
    requires Sound(lines)
    ensures Lines(Join(lines)) == lines
  {
    hide *;
    if lines == [] {
      NothingJoins();
    } else {
      var l, rest := lines[0], lines[1..];
      SoundHead(lines);
      assert lines == [l] + rest;
      JoinCons(l, rest);
      if rest == [] {
        AloneReads(l);
        NothingJoins();
        assert l.text + "" == l.text && [l] + [] == [l];
      } else {
        StandingLineIsClosed(l);
        SplitJoinSound(rest);
        SplitIsLocal(l.text, Join(rest));
      }
    }
  }

  lemma {:induction false} StandingIsSound(lines: seq<Line>)
    requires AllStand(lines)
    ensures Sound(lines)
  {
    hide *;
    if lines == [] {
      NothingSound();
    } else {
      AllStandHead(lines);
      StandingIsSound(lines[1..]);
      SoundCons(lines[0], lines[1..]);
      assert [lines[0]] + lines[1..] == lines;
    }
  }

  lemma AllStandHead(lines: seq<Line>)
    requires AllStand(lines) && lines != []
    ensures Stands(lines[0]) && AllStand(lines[1..])
  {
  }

  lemma {:induction false} SoundConcat(a: seq<Line>, b: seq<Line>)
    requires AllStand(a) && Sound(b)
    ensures Sound(a + b)
  {
    hide *;
    if a == [] {
      assert a + b == b;
    } else {
      var first, rest := a[0], a[1..];
      AllStandHead(a);
      SoundConcat(rest, b);
      SoundCons(first, rest + b);
      assert a == [first] + rest;
      assert [first] + (rest + b) == ([first] + rest) + b;
    }
  }

  lemma {:induction false} SoundSplit(lines: seq<Line>)
    requires Sound(lines) && lines != []
    ensures AllStand(lines[..|lines| - 1]) && Alone(lines[|lines| - 1])
  {
    hide *;
    SoundHead(lines);
    if |lines| > 1 {
      var rest := lines[1..];
      SoundSplit(rest);
      AllStandCons(lines[0], rest[..|rest| - 1]);
      assert lines[..|lines| - 1] == [lines[0]] + rest[..|rest| - 1];
    } else {
      NoneToStand();
      assert lines[..|lines| - 1] == [];
    }
  }

  lemma NoneToStand()
    ensures AllStand([])
  {
  }

  lemma AllStandCons(l: Line, rest: seq<Line>)
    requires Stands(l) && AllStand(rest)
    ensures AllStand([l] + rest)
  {
    hide Stands;
  }

  // ----- finishing the last line -----

  predicate InQuote(state: ScanState) {
    state.WeakOpen? || state.WeakOpenEscape? || state.StrongOpen? || state.StrongOpenEscape?
  }

  /** The line ends inside a quote, which a newline does not close. */
  predicate LeftOpen(l: Line) {
    l.body == Unsupported(UnterminatedLine) && InQuote(Scan(Complete, l.text))
  }

  /** What a newline makes of a line that lacks it. */
  function Finish(l: Line): Line {
    if EndsWithNewline(l.text) then l
    else Line(l.text + "\n", if l.body == Unsupported(UnterminatedLine) then Classify(TrimEnd(l.text)) else l.body)
  }

  predicate OpenEnd(lines: seq<Line>) {
    lines != [] && LeftOpen(lines[|lines| - 1])
  }

  function FinishLast(lines: seq<Line>): seq<Line> {
    if lines == [] then [] else lines[..|lines| - 1] + [Finish(lines[|lines| - 1])]
  }

  lemma ScanLast(state: ScanState, t: string, c: char)
    ensures Scan(state, t + [c]) == Next(Scan(state, t), c)
  {
    hide Next, Scan;
    ScanAppend(state, t, [c]);
    assert [c] + "" == [c];
    ScanCons(Scan(state, t), c, "");
    ScanNothing(Next(Scan(state, t), c));
  }

  lemma AfterNewline(state: ScanState)
    ensures Next(state, '\n') == if InQuote(state)
            then (if state.WeakOpen? || state.WeakOpenEscape? then WeakOpen else StrongOpen)
                                 else if state == Comment then Comment else Complete
  {
  }

  /** An unterminated value ends in a quote, an escape or a blank; after a newline only in a quote. */
  lemma {:induction false} UnterminatedState(t: string, state: ScanState)
    requires t != "" && LogicalEnd(t, state).Unterminated?
    ensures Scan(state, t) != Complete && Scan(state, t) != Comment
    ensures EndsWithNewline(t) ==> InQuote(Scan(state, t))
    decreases |t|
  {
    hide LogicalEnd, LineEnd, Scan, CommentAt, Next;
    var line := LineEnd(t);
    var st := Scan(state, t[..line]);
    LogicalEndUnfold(t, state);
    LineEndIsInside(t);
    if line < |t| {
      UnterminatedState(t[line..], st);
      ScanAppend(state, t[..line], t[line..]);
      assert t[..line] + t[line..] == t;
    } else {
      assert t[..line] == t;
      if EndsWithNewline(t) {
        assert t == t[..line - 1] + ['\n'];
        ScanLast(state, t[..line - 1], '\n');
        AfterNewline(Scan(state, t[..line - 1]));
      }
    }
  }

  lemma {:induction false} LineEndFinish(t: string)
    requires !EndsWithNewline(t)
    ensures LineEnd(t + "\n") == if LineEnd(t) < |t| then LineEnd(t) else |t| + 1
  {
    if t == "" {
      assert t + "\n" == "\n";
    } else {
      assert (t + "\n")[1..] == t[1..] + "\n";
      if t[0] != '\n' {
        LineEndFinish(t[1..]);
      }
    }
  }

  lemma {:induction false} SkipSpaceOn(t: string, x: string)
    ensures SkipSpace(t) != "" ==> SkipSpace(t + x) == SkipSpace(t) + x
    ensures SkipSpace(t) == "" ==> SkipSpace(t + x) == SkipSpace(x)
  {
    if t == "" {
      assert t + x == x;
    } else if IsSpace(t[0]) {
      assert (t + x)[1..] == t[1..] + x;
      SkipSpaceOn(t[1..], x);
    }
  }

  lemma {:induction false} CommentAtOn(state: ScanState, t: string, x: string)
    requires Scan(state, t) == Comment && state != Comment
    ensures CommentAt(state, t + x) == CommentAt(state, t) <= |t|
    decreases |t|
  {
    assert (t + x)[1..] == t[1..] + x;
    if Next(state, t[0]) != Comment {
      CommentAtOn(Next(state, t[0]), t[1..], x);
    }
  }

  /** A newline ends an unfinished value that is not inside a quote, and is the end of its text. */
  lemma {:induction false} LogicalEndFinish(t: string, state: ScanState)
    requires t != "" && !EndsWithNewline(t) && state != Comment
    requires LogicalEnd(t, state).end == |t| && !InQuote(Scan(state, t))
    ensures var e, final := LogicalEnd(t, state), Scan(state, t);
            && (final == Comment ==> e.Terminated? && LogicalEnd(t + "\n", state) == Terminated(e.valueEnd, |t| + 1))
            && (final != Comment ==>
                  LogicalEnd(t + "\n", state) == Terminated(|t| + 1, |t| + 1) && (e.Terminated? ==> e.valueEnd == |t|))
    decreases |t|
  {
    hide LogicalEnd, LineEnd, Scan, CommentAt, Next;
    var line := LineEnd(t);
    var st := Scan(state, t[..line]);
    LogicalEndUnfold(t, state);
    LogicalEndUnfold(t + "\n", state);
    LineEndIsInside(t);
    LineEndFinish(t);
    if line < |t| {
      assert (t + "\n")[..line] == t[..line] && (t + "\n")[line..] == t[line..] + "\n" && t[..line] + t[line..] == t;
      ScanAppend(state, t[..line], t[line..]);
      LogicalEndFinish(t[line..], st);
    } else {
      assert t[..line] == t && (t + "\n")[..line + 1] == t + "\n" && "\n" == ['\n'];
      ScanLast(state, t, '\n');
      AfterNewline(st);
      if st == Comment {
        CommentAtOn(state, t, "\n");
      }
    }
  }

  lemma TrimNewline(t: string)
    ensures TrimEnd(t + "\n") == TrimEnd(t)
  {
    assert (t + "\n")[..|t|] == t;
  }

  lemma ValueFirst(s: string)
    requires s != "" && !StartsWithHash(SkipSpace(s[..LineEnd(s)])) && LogicalEnd(s, Complete).Terminated?
    ensures var e := LogicalEnd(s, Complete); FirstLine(s) == Line(s[..e.end], Classify(TrimEnd(s[..e.valueEnd])))
  {
  }

  lemma NeverUnterminated(s: string)
    ensures Classify(s) != Unsupported(UnterminatedLine)
  {
  }

  lemma WholeFirst(l: Line)
    requires l.text != "" && FirstLine(l.text) == l && EndsWithNewline(l.text)
             && l.body != Unsupported(UnterminatedLine)
    ensures Stands(l)
  {
    hide FirstLine, Lines;
    LinesUnfold(l.text);
    NoLines();
    assert l.text[|l.text|..] == "";
  }

  lemma FinishRemark(l: Line)
    requires Alone(l) && !EndsWithNewline(l.text) && StartsWithHash(SkipSpace(l.text[..LineEnd(l.text)]))
    ensures Stands(Finish(l))
  {
    hide *;
    var t := l.text;
    var s := t + "\n";
    AloneReads(l);
    RemarkFirst(t);
    LineEndFinish(t);
    LineEndIsInside(t);
    assert t[..LineEnd(t)] == t && s[..LineEnd(s)] == s;
    SkipSpaceOn(t, "\n");
    HashStays(t);
    RemarkFirst(s);
    FinishedText(l);
    WholeFirst(Line(s, Remark));
  }

  lemma HashStays(t: string)
    ensures SkipSpace(t + "\n") == (if SkipSpace(t) != "" then SkipSpace(t) + "\n" else SkipSpace("\n")) ==>
              (StartsWithHash(SkipSpace(t + "\n")) <==> StartsWithHash(SkipSpace(t)))
  {
    assert SkipSpace("\n") == "" by { assert "\n"[1..] == ""; }
  }

  lemma FinishedText(l: Line)
    requires !EndsWithNewline(l.text)
    ensures Finish(l).text == l.text + "\n" && EndsWithNewline(l.text + "\n")
    ensures Finish(l).body == if l.body == Unsupported(UnterminatedLine) then Classify(TrimEnd(l.text)) else l.body
  {
  }

  lemma FirstPhysicalLine(t: string)
    requires t != "" && !EndsWithNewline(t)
    ensures var s := t + "\n";
            StartsWithHash(SkipSpace(s[..LineEnd(s)])) <==> StartsWithHash(SkipSpace(t[..LineEnd(t)]))
  {
    hide LineEnd, SkipSpace, StartsWithHash;
    var s := t + "\n";
    LineEndFinish(t);
    LineEndIsInside(t);
    if LineEnd(t) < |t| {
      assert s[..LineEnd(t)] == t[..LineEnd(t)];
    } else {
      assert s[..|t| + 1] == s && t[..LineEnd(t)] == t;
      SkipSpaceOn(t, "\n");
      HashStays(t);
    }
  }

  lemma FinishValue(l: Line)
    requires Alone(l) && !EndsWithNewline(l.text) && !StartsWithHash(SkipSpace(l.text[..LineEnd(l.text)]))
    requires !InQuote(Scan(Complete, l.text))
    ensures Stands(Finish(l))
  {
    hide *;
    var t := l.text;
    var s := t + "\n";
    var e := LogicalEnd(t, Complete);
    AloneReads(l);
    FirstLineText(t);
    assert |t[..e.end]| == e.end;
    LogicalEndFinish(t, Complete);
    FirstPhysicalLine(t);
    var f := LogicalEnd(s, Complete);
    ValueFirst(s);
    assert s[..f.end] == s;
    if e.Terminated? {
      ValueFirst(t);
      NeverUnterminated(TrimEnd(t[..e.valueEnd]));
      TerminatedInside(t);
    }
    if Scan(Complete, t) == Comment {
      assert s[..f.valueEnd] == t[..e.valueEnd];
    } else {
      assert s[..f.valueEnd] == s && (e.Terminated? ==> t[..e.valueEnd] == t);
      TrimNewline(t);
    }
    FinishedText(l);
    NeverUnterminated(TrimEnd(s[..f.valueEnd]));
    WholeFirst(Finish(l));
  }

  lemma TerminatedInside(t: string)
    ensures LogicalEnd(t, Complete).Terminated? ==>
              LogicalEnd(t, Complete).valueEnd <= LogicalEnd(t, Complete).end <= |t|
  {
  }

  /** A newline finishes any line that does not end inside a quote. */
  lemma FinishStands(l: Line)
    requires Alone(l) && !LeftOpen(l)
    ensures Stands(Finish(l))
  {
    hide Alone, Stands, LogicalEnd, Scan, LineEnd, SkipSpace, StartsWithHash, Classify, TrimEnd, FirstLine, Lines;
    var t := l.text;
    AloneReads(l);
    FirstLineText(t);
    if StartsWithHash(SkipSpace(t[..LineEnd(t)])) {
      if EndsWithNewline(t) {
        WholeFirst(l);
      } else {
        FinishRemark(l);
      }
    } else {
      assert l.body == Unsupported(UnterminatedLine) <==> LogicalEnd(t, Complete).Unterminated?;
      var e := LogicalEnd(t, Complete);
      assert |t[..e.end]| == e.end;
      if e.Unterminated? {
        UnterminatedState(t, Complete);
        FinishValue(l);
      } else if EndsWithNewline(t) {
        WholeFirst(l);
      } else {
        TerminatedNotInQuote(t, Complete);
        FinishValue(l);
      }
    }
  }

  lemma {:induction false} TerminatedNotInQuote(t: string, state: ScanState)
    requires t != "" && LogicalEnd(t, state).Terminated? && LogicalEnd(t, state).end == |t|
    ensures Scan(state, t) == Complete || Scan(state, t) == Comment
    decreases |t|
  {
    hide LogicalEnd, LineEnd, Scan, CommentAt;
    var line := LineEnd(t);
    LogicalEndUnfold(t, state);
    LineEndIsInside(t);
    if line < |t| {
      TerminatedNotInQuote(t[line..], Scan(state, t[..line]));
      ScanAppend(state, t[..line], t[line..]);
      assert t[..line] + t[line..] == t;
    } else {
      assert t[..line] == t;
    }
  }

  lemma StandingIsFinished(l: Line)
    requires Stands(l)
    ensures Finish(l) == l && !LeftOpen(l)
  {
  }

  lemma JoinSnoc(lines: seq<Line>, l: Line)
    ensures Join(lines + [l]) == Join(lines) + l.text
  {
    JoinConcat(lines, [l]);
    JoinOne(l);
  }

  /** The document with its last line finished: every line stands, and at most a newline was added. */
  lemma FinishedStands(lines: seq<Line>)
    requires Sound(lines) && !OpenEnd(lines)
    ensures AllStand(FinishLast(lines))
    ensures var text := Join(lines);
            Join(FinishLast(lines)) == if text == "" || EndsWithNewline(text) then text else text + "\n"
  {
    hide *;
    FinishedParts(lines);
    if lines == [] {
      NothingJoins();
      NoneToStand();
    } else {
      var front, last := lines[..|lines| - 1], lines[|lines| - 1];
      SoundSplit(lines);
      FinishStands(last);
      AloneReads(last);
      assert lines == front + [last];
      JoinSnoc(front, last);
      JoinSnoc(front, Finish(last));
      FinishedEnd(Join(front), last);
      AllStandSnoc(front, Finish(last));
    }
  }

  lemma FinishedParts(lines: seq<Line>)
    ensures lines == [] ==> FinishLast(lines) == []
    ensures lines != [] ==> FinishLast(lines) == lines[..|lines| - 1] + [Finish(lines[|lines| - 1])]
    ensures lines != [] ==> (OpenEnd(lines) <==> LeftOpen(lines[|lines| - 1]))
  {
  }

  lemma AllStandSnoc(front: seq<Line>, l: Line)
    requires AllStand(front) && Stands(l)
    ensures AllStand(front + [l])
  {
    hide Stands;
  }

  lemma FinishedEnd(before: string, l: Line)
    requires l.text != ""
    ensures before + l.text != "" && (EndsWithNewline(before + l.text) <==> EndsWithNewline(l.text))
    ensures before + Finish(l).text == if EndsWithNewline(l.text) then before + l.text else before + l.text + "\n"
  {
    assert (before + l.text)[|before + l.text| - 1] == l.text[|l.text| - 1];
  }
}

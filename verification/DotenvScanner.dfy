/** Finding logical lines in a dotenv document: the state machine that decides where a value ends. */
module DotenvScanner {

  datatype ScanState =
    | WhiteSpace | Escape | Complete | WeakOpen | WeakOpenEscape | StrongOpen | StrongOpenEscape | Comment

  /** JavaScript's `\s`: white space and line terminators. */
  predicate IsSpace(c: char) {
    || '\t' <= c <= '\r' || c == ' ' || c == '\U{00A0}' || c == '\U{1680}' || '\U{2000}' <= c <= '\U{200A}'
    || c == '\U{2028}' || c == '\U{2029}' || c == '\U{202F}' || c == '\U{205F}' || c == '\U{3000}' || c == '\U{FEFF}'
  }

  predicate IsSpaceNotNewline(c: char) {
    IsSpace(c) && c != '\n' && c != '\r'
  }

  function Opened(c: char): ScanState {
    if c == '\\' then Escape
    else if c == '"' then WeakOpen
    else if c == '\'' then StrongOpen
    else Complete
  }

  function Next(state: ScanState, c: char): ScanState {
    match state
    case WhiteSpace => if c == '#' then Comment else Opened(c)
    case Escape => Complete
    case Complete => if IsSpaceNotNewline(c) then WhiteSpace else Opened(c)
    case WeakOpen => if c == '\\' then WeakOpenEscape else if c == '"' then Complete else WeakOpen
    case WeakOpenEscape => WeakOpen
    case StrongOpen => if c == '\\' then StrongOpenEscape else if c == '\'' then Complete else StrongOpen
    case StrongOpenEscape => StrongOpen
    case Comment => Comment
  }

  function Scan(state: ScanState, chunk: string): ScanState
    decreases |chunk|
  {
    if chunk == "" then state else Scan(Next(state, chunk[0]), chunk[1..])
  }

  /** Where in the chunk the comment starts. */
  function CommentAt(state: ScanState, chunk: string): nat
    decreases |chunk|
  {
    if chunk == "" || Next(state, chunk[0]) == Comment then 0 else 1 + CommentAt(Next(state, chunk[0]), chunk[1..])
  }

  /** The index just past the first newline, or the end of the text. */
  function LineEnd(s: string): (n: nat)
    ensures n <= |s| && (s != "" ==> 0 < n)
  {
    if s == "" then 0 else if s[0] == '\n' then 1 else 1 + LineEnd(s[1..])
  }

  datatype Extent = Terminated(valueEnd: nat, end: nat) | Unterminated(end: nat)

  function Shift(k: nat, e: Extent): Extent {
    match e
    case Terminated(v, end) => Terminated(k + v, k + end)
    case Unterminated(end) => Unterminated(k + end)
  }

  /** How far the logical line at the start of `s` reaches, physical line by physical line. */
  function LogicalEnd(s: string, state: ScanState): (e: Extent)
    ensures e.end <= |s| && (e.Terminated? ==> e.valueEnd <= e.end) && (s != "" ==> 0 < e.end)
    decreases |s|
  {
    var line := LineEnd(s);
    if line == 0 then Unterminated(0)
    else
      var st := Scan(state, s[..line]);
      if st == Complete then Terminated(line, line)
      else if st == Comment then CommentInside(state, s[..line]); Terminated(CommentAt(state, s[..line]), line)
      else if line == |s| then Unterminated(line)
      else Shift(line, LogicalEnd(s[line..], st))
  }

  lemma {:induction false} CommentInside(state: ScanState, chunk: string)
    ensures CommentAt(state, chunk) <= |chunk|
    decreases |chunk|
  {
    if chunk != "" && Next(state, chunk[0]) != Comment {
      CommentInside(Next(state, chunk[0]), chunk[1..]);
    }
  }

  // ----- the loops -----

  method EvalEndState(state: ScanState, chunk: string) returns (pos: nat, final: ScanState)
    requires state != Comment
    ensures final == Scan(state, chunk)
    ensures final == Comment ==> pos == CommentAt(state, chunk)
  {
    var cur := state;
    pos := 0;
    for i := 0 to |chunk|
      invariant cur != Comment && Scan(state, chunk) == Scan(cur, chunk[i..])
      invariant CommentAt(state, chunk) == i + CommentAt(cur, chunk[i..])
    {
      pos := i;
      assert chunk[i..][1..] == chunk[i + 1..];
      cur := Next(cur, chunk[i]);
      if cur == Comment {
        CommentAbsorbs(chunk[i + 1..]);
        return pos, Comment;
      }
    }
    return pos, cur;
  }

  lemma {:induction false} CommentAbsorbs(chunk: string)
    ensures Scan(Comment, chunk) == Comment
  {
    if chunk != "" {
      CommentAbsorbs(chunk[1..]);
    }
  }

  method NextPhysicalLineEnd(source: string, from: nat) returns (end: nat)
    requires from <= |source|
    ensures end == from + LineEnd(source[from..])
  {
    end := from;
    while end < |source| && source[end] != '\n'
      invariant from <= end <= |source|
      invariant from + LineEnd(source[from..]) == end + LineEnd(source[end..])
    {
      assert source[end..][1..] == source[end + 1..];
      end := end + 1;
    }
    if end < |source| {
      end := end + 1;
    }
  }

  /** One turn of the splitter's inner loop: what the physical line at `cur` decides. */
  lemma ExtentStep(source: string, cur: nat, state: ScanState)
    requires cur < |source| && state != Comment
    ensures var lineEnd := cur + LineEnd(source[cur..]);
            && cur < lineEnd <= |source|
            && var chunk := source[cur..lineEnd]; var final := Scan(state, chunk);
               Shift(cur, LogicalEnd(source[cur..], state)) ==
               if final == Complete then Terminated(lineEnd, lineEnd)
               else if final == Comment then Terminated(cur + CommentAt(state, chunk), lineEnd)
               else if lineEnd == |source| then Unterminated(lineEnd)
               else Shift(lineEnd, LogicalEnd(source[lineEnd..], final))
  {
    hide LogicalEnd, LineEnd, Scan, CommentAt;
    var rest := source[cur..];
    LogicalEndUnfold(rest, state);
    LineEndIsInside(rest);
    assert source[cur..cur + LineEnd(rest)] == rest[..LineEnd(rest)];
    assert source[cur + LineEnd(rest)..] == rest[LineEnd(rest)..];
  }

  lemma LineEndIsInside(s: string)
    requires s != ""
    ensures 0 < LineEnd(s) <= |s|
  {
  }

  /** The inner loop of the splitter: from `start`, take physical lines until the value is complete. */
  method FindLogicalEnd(source: string, start: nat) returns (extent: Extent)
    requires start < |source|
    ensures extent == Shift(start, LogicalEnd(source[start..], Complete))
  {
    hide LogicalEnd, LineEnd, Scan, CommentAt, Shift;
    var state := Complete;
    var cur := start;
    while true
      invariant start <= cur < |source| && state != Comment
      invariant Shift(start, LogicalEnd(source[start..], Complete)) == Shift(cur, LogicalEnd(source[cur..], state))
      decreases |source| - cur
    {
      ExtentStep(source, cur, state);
      var lineEnd := NextPhysicalLineEnd(source, cur);
      var pos, final := EvalEndState(state, source[cur..lineEnd]);
      if final == Complete {
        return Terminated(lineEnd, lineEnd);
      } else if final == Comment {
        return Terminated(cur + pos, lineEnd);
      }
      state := final;
      cur := lineEnd;
      if cur >= |source| {
        return Unterminated(cur);
      }
    }
  }

  // ----- composition -----

  lemma {:induction false} ScanAppend(state: ScanState, a: string, b: string)
    ensures Scan(state, a + b) == Scan(Scan(state, a), b)
    decreases |a|
  {
    if a == "" {
      assert a + b == b;
    } else {
      ScanAppend(Next(state, a[0]), a[1..], b);
      assert (a + b)[1..] == a[1..] + b;
    }
  }

  /** Reading `u` opens no comment and never completes the value at a newline. */
  ghost predicate Quiet(state: ScanState, u: string)
    decreases |u|
  {
    u == "" || (var next := Next(state, u[0]);
                next != Comment && (u[0] == '\n' ==> next != Complete) && Quiet(next, u[1..]))
  }

  /** A quiet prefix is simply part of the logical line that continues after it. */
  lemma {:induction false} Absorb(state: ScanState, u: string, rest: string)
    requires rest != "" && Quiet(state, u)
    ensures LogicalEnd(u + rest, state) == Shift(|u|, LogicalEnd(rest, Scan(state, u)))
    decreases |u|
  {
    hide LogicalEnd, Next, Scan, Quiet;
    if u == "" {
      assert u + rest == rest;
      ScanNothing(state);
    } else {
      var c, tail := u[0], u[1..];
      QuietStep(state, u);
      Absorb(Next(state, c), tail, rest);
      AbsorbOne(state, c, tail + rest);
      assert u + rest == [c] + (tail + rest) by {
        assert u == [c] + tail;
      }
      assert 1 + |tail| == |u|;
    }
  }

  lemma QuietStep(state: ScanState, u: string)
    requires u != "" && Quiet(state, u)
    ensures var next := Next(state, u[0]);
            next != Comment && (u[0] == '\n' ==> next != Complete) && Quiet(next, u[1..])
              && Scan(state, u) == Scan(next, u[1..])
  {
  }

  lemma FirstLineOfCons(c: char, rest: string)
    requires c != '\n'
    ensures var s := [c] + rest; var n := LineEnd(rest);
            LineEnd(s) == 1 + n && s[..1 + n] == [c] + rest[..n] && s[1 + n..] == rest[n..]
  {
    var s := [c] + rest;
    assert s[1..] == rest;
  }

  lemma ScanCons(state: ScanState, c: char, chunk: string)
    ensures Scan(state, [c] + chunk) == Scan(Next(state, c), chunk)
    ensures CommentAt(state, [c] + chunk) == if Next(state, c) == Comment then 0
            else 1 + CommentAt(Next(state, c), chunk)
  {
    assert ([c] + chunk)[1..] == chunk;
  }

  lemma AbsorbOne(state: ScanState, c: char, rest: string)
    requires rest != "" && Next(state, c) != Comment && (c == '\n' ==> Next(state, c) != Complete)
    ensures LogicalEnd([c] + rest, state) == Shift(1, LogicalEnd(rest, Next(state, c)))
  {
    hide LogicalEnd, Next, Scan, CommentAt;
    var s := [c] + rest;
    LogicalEndUnfold(s, state);
    if c == '\n' {
      assert s[..1] == [c] + "" && s[1..] == rest && LineEnd(s) == 1;
      ScanCons(state, c, "");
      assert Scan(Next(state, c), "") == Next(state, c) by { ScanNothing(Next(state, c)); }
    } else {
      LogicalEndUnfold(rest, Next(state, c));
      FirstLineOfCons(c, rest);
      ScanCons(state, c, rest[..LineEnd(rest)]);
    }
  }

  lemma ScanNothing(state: ScanState)
    ensures Scan(state, "") == state
  {
  }

  lemma {:induction false} QuietAppend(state: ScanState, a: string, b: string)
    requires Quiet(state, a) && Quiet(Scan(state, a), b)
    ensures Quiet(state, a + b)
    decreases |a|
  {
    if a == "" {
      assert a + b == b;
    } else {
      QuietAppend(Next(state, a[0]), a[1..], b);
      assert (a + b)[1..] == a[1..] + b;
    }
  }

  /** More text after a line that ends in its own newline does not move that line's end. */
  lemma {:induction false} LineEndLocal(s: string, b: string)
    requires s != "" && s[LineEnd(s) - 1] == '\n'
    ensures LineEnd(s + b) == LineEnd(s)
  {
    if s[0] != '\n' {
      assert LineEnd(s) == 1 + LineEnd(s[1..]);
      LineEndLocal(s[1..], b);
      assert (s + b)[1..] == s[1..] + b;
    }
  }

  lemma {:induction false} LineEndInterior(s: string)
    requires LineEnd(s) < |s|
    ensures s[LineEnd(s) - 1] == '\n'
  {
    if s[0] != '\n' {
      LineEndInterior(s[1..]);
    }
  }

  lemma {:induction false} TerminatedInterior(s: string, state: ScanState)
    requires LogicalEnd(s, state).Terminated? && LogicalEnd(s, state).end < |s|
    ensures s[LogicalEnd(s, state).end - 1] == '\n'
    decreases |s|
  {
    var line := LineEnd(s);
    var st := Scan(state, s[..line]);
    if st == Complete || st == Comment {
      LineEndInterior(s);
    } else {
      TerminatedInterior(s[line..], st);
    }
  }

  lemma LogicalEndUnfold(s: string, state: ScanState)
    requires s != ""
    ensures var line := LineEnd(s); var st := Scan(state, s[..line]);
            LogicalEnd(s, state) ==
            if st == Complete then Terminated(line, line)
            else if st == Comment then Terminated(CommentAt(state, s[..line]), line)
            else if line == |s| then Unterminated(line)
            else Shift(line, LogicalEnd(s[line..], st))
  {
  }

  lemma LineEndSplit(s: string, b: string)
    requires s != "" && s[LineEnd(s) - 1] == '\n'
    ensures var line := LineEnd(s);
            LineEnd(s + b) == line && (s + b)[..line] == s[..line] && (s + b)[line..] == s[line..] + b
  {
    LineEndLocal(s, b);
  }

  /** A terminated logical line is found in the same place whatever follows it. */
  lemma {:induction false} LogicalEndLocal(s: string, state: ScanState, b: string)
    requires s != "" && LogicalEnd(s, state).Terminated? && s[LogicalEnd(s, state).end - 1] == '\n'
    ensures LogicalEnd(s + b, state) == LogicalEnd(s, state)
    decreases |s|
  {
    hide LogicalEnd, LineEnd, Scan;
    var line := LineEnd(s);
    LogicalEndUnfold(s, state);
    LogicalEndUnfold(s + b, state);
    if line < |s| {
      LineEndInterior(s);
    }
    LineEndSplit(s, b);
    var st := Scan(state, s[..line]);
    if st != Complete && st != Comment {
      LogicalEndLocal(s[line..], st, b);
    }
  }
}

/** Single-range `Range` headers, against section 14.1.2 of RFC 9110. */
module RangeHeader {
  import opened Prelude
  import opened Decimal
  import opened BlobName

  datatype RangeSpec = Satisfiable(start: u64, end: u64) | Unsatisfiable | Ignore

  /** Rust's `char::is_whitespace`. */
  predicate IsWhitespace(c: char) {
    || '\t' <= c <= '\r' || c == ' ' || c == '\U{0085}' || c == '\U{00A0}' || c == '\U{1680}'
    || '\U{2000}' <= c <= '\U{200A}'
    || c == '\U{2028}' || c == '\U{2029}' || c == '\U{202F}' || c == '\U{205F}' || c == '\U{3000}'
  }

  predicate AllWhitespace(s: string) {
    forall i :: 0 <= i < |s| ==> IsWhitespace(s[i])
  }

  function TrimStart(s: string): string {
    if s != "" && IsWhitespace(s[0]) then TrimStart(s[1..]) else s
  }

  function TrimEnd(s: string): string {
    if s != "" && IsWhitespace(s[|s| - 1]) then TrimEnd(s[..|s| - 1]) else s
  }

  function Trim(s: string): string {
    TrimEnd(TrimStart(s))
  }

  function StripPrefix(s: string, prefix: string): Option<string> {
    if prefix <= s then Some(s[|prefix|..]) else None
  }

  function SuffixRange(last: string, total: u64): RangeSpec
    requires total > 0
  {
    match ParseU64(last)
    case None => Ignore
    case Some(suffix) => if suffix == 0 then Unsatisfiable else Satisfiable(SaturatingSub(total, suffix), total - 1)
  }

  function FromStart(start: u64, last: string, total: u64): RangeSpec
    requires total > 0
  {
    if start >= total then Unsatisfiable
    else
      var end := if last == "" then Some(total - 1)
                 else match ParseU64(last) case None => None case Some(end) => Some(Min(end, total - 1));
      if end.None? then Ignore
      else if start > end.value then Unsatisfiable
      else Satisfiable(start, end.value)
  }

  /** The two trimmed sides of the dash in a single `bytes` range. */
  function Sides(header: string): Option<(string, string)> {
    match StripPrefix(Trim(header), "bytes=")
    case None => None
    case Some(rest) => SidesOf(Trim(rest))
  }

  function SidesOf(spec: string): Option<(string, string)> {
    if ',' in spec then None
    else match SplitOnce(spec, '-')
         case None => None
         case Some((first, last)) => Some((Trim(first), Trim(last)))
  }

  function ParseRangeHeader(header: string, total: u64): RangeSpec {
    match Sides(header)
    case None => Ignore
    case Some((first, last)) =>
      if total == 0 then Unsatisfiable
      else if first == "" then SuffixRange(last, total)
      else match ParseU64(first)
           case None => Ignore
           case Some(start) => FromStart(start, last, total)
  }

  // ----- the standard's view -----

  /** The three forms of a byte range. */
  datatype ByteRange = Closed(first: u64, last: u64) | Open(first: u64) | Final(length: u64)

  /** Whether the range selects byte `i` of a representation of `total` bytes. */
  predicate Selects(range: ByteRange, total: u64, i: nat) {
    i < total &&
    match range
    case Closed(first, last) => first <= i <= last
    case Open(first) => first <= i
    case Final(length) => total <= i + length
  }

  /** `first` and `last` are the two sides of the dash, as one of the forms writes them. */
  predicate Writes(range: ByteRange, first: string, last: string) {
    match range
    case Closed(f, l) => ParseU64(first) == Some(f) && ParseU64(last) == Some(l)
    case Open(f) => ParseU64(first) == Some(f) && last == ""
    case Final(length) => first == "" && ParseU64(last) == Some(length)
  }

  /** The header spells the range, with white space allowed around the header and around each number. */
  ghost predicate Spells(header: string, range: ByteRange) {
    exists before, lead, first, mid, gap, last, after ::
      && header == Spelling(before, lead, first, mid, gap, last, after)
      && AllWhitespace(before) && AllWhitespace(lead) && AllWhitespace(mid) && AllWhitespace(gap)
      && AllWhitespace(after)
      && Writes(range, first, last)
  }

  function Spelling(before: string, lead: string, first: string, mid: string, gap: string, last: string,
                    after: string): string
  {
    before + "bytes=" + lead + first + mid + "-" + gap + last + after
  }

  predicate Tight(s: string) {
    s != "" ==> !IsWhitespace(s[0]) && !IsWhitespace(s[|s| - 1])
  }

  lemma {:induction false} TrimStartParts(s: string) returns (before: string)
    ensures s == before + TrimStart(s) && AllWhitespace(before)
    ensures TrimStart(s) != "" ==> !IsWhitespace(TrimStart(s)[0])
  {
    before := "";
    if s != "" && IsWhitespace(s[0]) {
      var rest := TrimStartParts(s[1..]);
      before := [s[0]] + rest;
    }
  }

  lemma {:induction false} TrimEndParts(s: string) returns (after: string)
    ensures s == TrimEnd(s) + after && AllWhitespace(after) && |TrimEnd(s)| <= |s|
    ensures TrimEnd(s) != "" ==> !IsWhitespace(TrimEnd(s)[|TrimEnd(s)| - 1])
  {
    after := "";
    if s != "" && IsWhitespace(s[|s| - 1]) {
      var rest := TrimEndParts(s[..|s| - 1]);
      after := rest + [s[|s| - 1]];
    }
  }

  lemma TrimParts(s: string) returns (before: string, after: string)
    ensures s == before + Trim(s) + after && AllWhitespace(before) && AllWhitespace(after) && Tight(Trim(s))
  {
    var r := TrimStart(s);
    before := TrimStartParts(s);
    after := TrimEndParts(r);
    assert Trim(s) != "" ==> Trim(s)[0] == r[0];
    assert s == before + (Trim(s) + after);
  }

  lemma {:induction false} TrimStartSkips(w: string, s: string)
    requires AllWhitespace(w) && (s != "" ==> !IsWhitespace(s[0]))
    ensures TrimStart(w + s) == s
  {
    if w == "" {
      assert w + s == s;
    } else {
      assert (w + s)[1..] == w[1..] + s;
      TrimStartSkips(w[1..], s);
    }
  }

  lemma {:induction false} TrimStartAll(w: string)
    requires AllWhitespace(w)
    ensures TrimStart(w) == ""
  {
    if w != "" {
      TrimStartAll(w[1..]);
    }
  }

  lemma {:induction false} TrimEndSkips(s: string, w: string)
    requires AllWhitespace(w) && (s != "" ==> !IsWhitespace(s[|s| - 1]))
    ensures TrimEnd(s + w) == s
  {
    if w == "" {
      assert s + w == s;
    } else {
      assert (s + w)[..|s + w| - 1] == s + w[..|w| - 1];
      TrimEndSkips(s, w[..|w| - 1]);
    }
  }

  lemma TrimPadded(before: string, s: string, after: string)
    requires AllWhitespace(before) && Tight(s) && AllWhitespace(after)
    ensures Trim(before + s + after) == s
  {
    assert before + s + after == before + (s + after);
    if s == "" {
      assert before + s + after == before + after && AllWhitespace(before + after);
      TrimStartAll(before + after);
    } else {
      TrimStartSkips(before, s + after);
      TrimEndSkips(s, after);
    }
  }

  lemma NumberIsTight(s: string)
    requires ParseU64(s).Some?
    ensures s != "" && Tight(s) && '-' !in s && ',' !in s
  {
    if s[0] == '+' {
      assert s == [s[0]] + s[1..];
    }
  }

  lemma SidesWithin(before: string, skipped: string, spec: string, trail: string)
    requires AllWhitespace(before) && AllWhitespace(skipped) && AllWhitespace(trail) && Tight(spec) && spec != ""
    ensures Sides(before + ("bytes=" + (skipped + spec)) + trail) == SidesOf(spec)
  {
    hide Trim, SidesOf;
    var inner := "bytes=" + (skipped + spec);
    assert inner[0] == 'b' && inner[|inner| - 1] == spec[|spec| - 1];
    TrimPadded(before, inner, trail);
    assert inner[6..] == skipped + spec + "";
    TrimPadded(skipped, spec, "");
  }

  lemma SidesOfDash(l: string, r: string)
    requires '-' !in l && ',' !in l && ',' !in r
    ensures SidesOf(l + ['-'] + r) == Some((Trim(l), Trim(r)))
  {
    SplitOnceAt(l, '-', r);
  }

  /** Around the dash, blanks on the outside belong to the surroundings when a side is missing. */
  lemma Padded(first: string, mid: string, gap: string, last: string) returns (l: string, r: string)
    requires AllWhitespace(mid) && AllWhitespace(gap) && Tight(first) && Tight(last)
    ensures l == (if first == "" then "" else first + mid) && r == (if last == "" then "" else gap + last)
    ensures Trim(l) == first && Trim(r) == last && Tight(l + ['-'] + r)
  {
    assert Trim("") == "";
    hide TrimStart, TrimEnd, Trim;
    l, r := if first == "" then "" else first + mid, if last == "" then "" else gap + last;
    assert Trim(l) == first by {
      if first != "" {
        assert "" + first + mid == l;
        TrimPadded("", first, mid);
      }
    }
    assert Trim(r) == last by {
      if last != "" {
        assert gap + last + "" == r;
        TrimPadded(gap, last, "");
      }
    }
    var spec := l + ['-'] + r;
    assert spec[0] == if first == "" then '-' else first[0];
    assert spec[|spec| - 1] == if last == "" then '-' else last[|last| - 1];
  }

  lemma LeftOfDash(p: string, lead: string, first: string, mid: string)
    ensures p + lead + first + mid
            == if first == "" then p + (lead + mid) + "" else p + (lead + "") + (first + mid)
  {
    if first == "" {
      assert p + lead + first == p + lead && p + (lead + mid) + "" == p + (lead + mid);
    } else {
      assert lead + "" == lead && p + lead + first + mid == (p + lead) + (first + mid);
    }
  }

  lemma RightOfDash(p: string, gap: string, last: string, after: string)
    ensures p + gap + last + after
            == if last == "" then p + "" + (gap + after) else p + (gap + last) + ("" + after)
  {
    if last == "" {
      assert p + gap + last == p + gap && p + "" == p && p + gap + after == p + (gap + after);
    } else {
      assert "" + after == after && p + gap + last == p + (gap + last);
    }
  }

  lemma AcrossDash(p: string, l: string, r: string)
    ensures p + l + "-" + r == p + (l + ['-'] + r)
  {
    assert p + l + "-" == p + (l + ['-']);
  }

  lemma Nested(before: string, unit: string, skipped: string, spec: string)
    ensures before + unit + skipped + spec == before + (unit + (skipped + spec))
  {
    assert unit + (skipped + spec) == (unit + skipped) + spec;
    assert before + unit + skipped == before + (unit + skipped);
  }

  lemma Rearrange(before: string, lead: string, first: string, mid: string, gap: string, last: string, after: string,
                  l: string, r: string)
    requires l == (if first == "" then "" else first + mid) && r == (if last == "" then "" else gap + last)
    ensures var skipped, trail := lead + (if first == "" then mid else ""), (if last == "" then gap else "") + after;
            Spelling(before, lead, first, mid, gap, last, after) == before + ("bytes=" + (skipped + (l + ['-'] + r)))
              + trail
  {
    var skipped := lead + (if first == "" then mid else "");
    LeftOfDash(before + "bytes=", lead, first, mid);
    RightOfDash(before + "bytes=" + skipped + l + "-", gap, last, after);
    AcrossDash(before + "bytes=" + skipped, l, r);
    Nested(before, "bytes=", skipped, l + ['-'] + r);
  }

  lemma SidesOfSpelling(before: string, lead: string, first: string, mid: string, gap: string, last: string,
                        after: string)
    requires AllWhitespace(before) && AllWhitespace(lead) && AllWhitespace(mid) && AllWhitespace(gap)
             && AllWhitespace(after)
    requires Tight(first) && Tight(last) && '-' !in first && ',' !in first && ',' !in last
    ensures Sides(Spelling(before, lead, first, mid, gap, last, after)) == Some((first, last))
  {
    hide Trim, IsWhitespace, Sides, SidesOf, Tight, Spelling;
    NoCommaInSpace(mid);
    NoCommaInSpace(gap);
    var l, r := Padded(first, mid, gap, last);
    var skipped, trail := lead + (if first == "" then mid else ""), (if last == "" then gap else "") + after;
    Rearrange(before, lead, first, mid, gap, last, after, l, r);
    SidesWithin(before, skipped, l + ['-'] + r, trail);
    SidesOfDash(l, r);
  }

  lemma NoCommaInSpace(w: string)
    requires AllWhitespace(w)
    ensures ',' !in w && '-' !in w
  {
  }

  /** A header that has two sides is a spelling of them. */
  lemma SpellingOfSides(header: string)
    requires Sides(header).Some?
    ensures var (first, last) := Sides(header).value;
            exists before, lead, mid, gap, after ::
              && header == Spelling(before, lead, first, mid, gap, last, after)
              && AllWhitespace(before) && AllWhitespace(lead) && AllWhitespace(mid) && AllWhitespace(gap)
              && AllWhitespace(after)
  {
    hide Trim, IsWhitespace;
    var before, after1 := TrimParts(header);
    var rest := Trim(header)[6..];
    assert Trim(header) == "bytes=" + rest;
    var lead1, after2 := TrimParts(rest);
    var spec := Trim(rest);
    SplitOnceMeaning(spec, '-');
    var (l, r) := SplitOnce(spec, '-').value;
    var lead2, mid := TrimParts(l);
    var gap, after3 := TrimParts(r);
    SpellingAssembles(header, before, lead1, lead2, Trim(l), mid, gap, Trim(r), after3, after2, after1);
  }

  lemma SpellingAssembles(header: string, before: string, lead1: string, lead2: string, first: string, mid: string,
                          gap: string, last: string, after3: string, after2: string, after1: string)
    requires header == before + ("bytes=" + (lead1 + ((lead2 + first + mid) + ['-'] + (gap + last + after3)) + after2))
             + after1
    ensures header == Spelling(before, lead1 + lead2, first, mid, gap, last, after3 + after2 + after1)
  {
  }

  // ----- agreement with the standard -----

  lemma SpelledSides(header: string, range: ByteRange) returns (first: string, last: string)
    requires Spells(header, range)
    ensures Sides(header) == Some((first, last)) && Writes(range, first, last)
  {
    var before, lead, f, mid, gap, l, after :|
      && header == Spelling(before, lead, f, mid, gap, l, after)
      && AllWhitespace(before) && AllWhitespace(lead) && AllWhitespace(mid) && AllWhitespace(gap)
      && AllWhitespace(after)
      && Writes(range, f, l);
    first, last := f, l;
    if first != "" {
      NumberIsTight(first);
    }
    if last != "" {
      NumberIsTight(last);
    }
    SidesOfSpelling(before, lead, first, mid, gap, last, after);
  }

  /** A spelled range is never ignored. What is served is exactly what the range selects, clipped to
      the representation; it is refused exactly when the range selects nothing. */
  lemma SpelledRangeIsClipped(header: string, range: ByteRange, total: u64)
    requires Spells(header, range)
    ensures var spec := ParseRangeHeader(header, total);
            if spec.Satisfiable?
            then
              && spec.start <= spec.end < total
              && forall i: nat :: Selects(range, total, i) <==> spec.start <= i <= spec.end
            else spec.Unsatisfiable? && forall i: nat :: !Selects(range, total, i)
  {
    var first, last := SpelledSides(header, range);
    hide Sides, Spells;
    if first != "" {
      NumberIsTight(first);
    }
    assert last == "" ==> ParseU64(last) == None;
  }

  /** Without a spelled range the header is ignored, with two exceptions that are refused instead: an
      empty representation, and a first number past the end in front of an unreadable second one. */
  lemma UnspelledRangeIsIgnored(header: string, total: u64)
    requires forall range :: !Spells(header, range)
    ensures ParseRangeHeader(header, total) ==
            if Sides(header).Some?
              && (total == 0 || exists start :: ParseU64(Sides(header).value.0) == Some(start) && start >= total)
            then Unsatisfiable else Ignore
  {
    if Sides(header).Some? {
      var (first, last) := Sides(header).value;
      if NamesRange(first, last) {
        var range := RangeNamed(first, last);
        WrittenSidesSpell(header, range);
        assert false;
      }
    }
  }

  predicate NamesRange(first: string, last: string) {
    (first == "" && ParseU64(last).Some?) || (ParseU64(first).Some? && (last == "" || ParseU64(last).Some?))
  }

  lemma RangeNamed(first: string, last: string) returns (range: ByteRange)
    requires NamesRange(first, last)
    ensures Writes(range, first, last)
  {
    range := if first == "" then Final(ParseU64(last).value)
             else if last == "" then Open(ParseU64(first).value)
             else Closed(ParseU64(first).value, ParseU64(last).value);
  }

  lemma WrittenSidesSpell(header: string, range: ByteRange)
    requires Sides(header).Some? && Writes(range, Sides(header).value.0, Sides(header).value.1)
    ensures Spells(header, range)
  {
    SpellingOfSides(header);
  }

  function Reprinted(start: u64, end: u64): string {
    "bytes=" + Print(start) + "-" + Print(end)
  }

  /** Re-printing what was granted, and asking for that, grants the same bytes. */
  lemma ReprintIsFixedPoint(header: string, total: u64)
    requires ParseRangeHeader(header, total).Satisfiable?
    ensures var spec := ParseRangeHeader(header, total);
            spec.start <= spec.end < total && ParseRangeHeader(Reprinted(spec.start, spec.end), total) == spec
  {
    var spec := ParseRangeHeader(header, total);
    var again := Reprinted(spec.start, spec.end);
    var range := Closed(spec.start, spec.end);
    ParsePrint(spec.start);
    ParsePrint(spec.end);
    assert spec.start <= spec.end < total;
    hide ParseRangeHeader;
    assert again == Spelling("", "", Print(spec.start), "", "", Print(spec.end), "");
    assert Spells(again, range);
    SpelledRangeIsClipped(again, range, total);
    var result := ParseRangeHeader(again, total);
    assert Selects(range, total, spec.start) && Selects(range, total, spec.end);
    assert Selects(range, total, result.start) && Selects(range, total, result.end);
  }

  // ----- where code and standard part -----

  /** A range as the standard writes it, with numbers of any size. */
  datatype StandardRange = IntRange(first: nat, last: Option<nat>) | SuffixOf(length: nat)

  /** What the standard has a server do that honours a valid range: send part of the representation,
      send an empty representation whole (which no byte range can express), or refuse. */
  datatype StandardAnswer = Part(start: nat, end: nat) | EmptyWhole | Refuse

  /** The two sides of a single range written strictly: `bytes=`, digits, a dash, digits, one side at
      most left out, and nothing else but white space around the field value. (The unit in another
      letter case, and lists, are left aside here: the code ignores them all, as a server may.) */
  function StrictSides(header: string): Option<(string, string)> {
    match StripPrefix(Trim(header), "bytes=")
    case None => None
    case Some(spec) =>
      match SplitOnce(spec, '-')
      case None => None
      case Some((first, last)) =>
        if AllDigits(first) && AllDigits(last) && (first != "" || last != "") then Some((first, last)) else None
  }

  /** The valid range a header states: strictly written, and not with a last position before the first. */
  function ValidRange(header: string): Option<StandardRange> {
    match StrictSides(header)
    case None => None
    case Some((first, last)) =>
      if first == "" then Some(SuffixOf(Value(last)))
      else if last == "" then Some(IntRange(Value(first), None))
      else if Value(last) < Value(first) then None
      else Some(IntRange(Value(first), Some(Value(last))))
  }

  /** Section 14.1.2 of RFC 9110 for one valid range. */
  function Prescribed(range: StandardRange, total: u64): StandardAnswer {
    match range
    case IntRange(first, last) =>
      if first >= total then Refuse else Part(first, if last.Some? then Min(last.value, total - 1) else total - 1)
    case SuffixOf(length) =>
      if length == 0 then Refuse
      else if total == 0 then EmptyWhole
      else Part(SaturatingSub(total, length), total - 1)
  }

  predicate Gives(spec: RangeSpec, answer: StandardAnswer) {
    match answer
    case Part(start, end) => spec.Satisfiable? && spec.start == start && spec.end == end
    case Refuse => spec.Unsatisfiable?
    case EmptyWhole => false
  }

  /** The code gives a valid range the prescribed answer, and grants nothing else: what is no valid
      range it ignores or refuses, which section 14.2 of RFC 9110 leaves to the server. */
  predicate Conforms(header: string, total: u64) {
    match ValidRange(header)
    case Some(range) => Gives(ParseRangeHeader(header, total), Prescribed(range, total))
    case None => !ParseRangeHeader(header, total).Satisfiable?
  }

  /** As `Conforms`, but a valid range may be ignored as well: section 14.2 lets a server ignore any
      `Range` header. */
  predicate Permitted(header: string, total: u64) {
    Conforms(header, total) || ParseRangeHeader(header, total).Ignore?
  }

  /** The numbers on the two sides select at least one byte. */
  predicate SelectsSomething(first: string, last: string, total: u64)
    requires NamesRange(first, last)
  {
    total > 0 &&
    if first == "" then ParseU64(last).value > 0
    else ParseU64(first).value < total && (last != "" ==> ParseU64(first).value <= ParseU64(last).value)
  }

  predicate HasPlus(s: string) {
    s != "" && s[0] == '+'
  }

  predicate HasBlank(s: string) {
    exists i :: 0 <= i < |s| && IsWhitespace(s[i])
  }

  /** What stands after the unit has a plus sign before a number, or a blank anywhere. */
  predicate IsLax(header: string)
    requires Sides(header).Some?
  {
    HasPlus(Sides(header).value.0) || HasPlus(Sides(header).value.1) || HasBlank(Trim(header)[6..])
  }

  /** A header with a plus sign or a blank that is understood as a non-empty range all the same. */
  predicate LaxGrant(header: string, total: u64) {
    Sides(header).Some? && IsLax(header) &&
    var (first, last) := Sides(header).value;
    NamesRange(first, last) && SelectsSomething(first, last, total)
  }

  /** A final range of an empty representation, which the code refuses. */
  predicate EmptySuffix(header: string, total: u64) {
    total == 0 && StrictSides(header).Some? &&
    var (first, last) := StrictSides(header).value;
    first == "" && Value(last) > 0
  }

  /** A valid range with a number of 2^64 or more that would decide the answer: ignored by the code. */
  predicate HugeNumber(header: string, total: u64) {
    total > 0 && ValidRange(header).Some? &&
    match ValidRange(header).value
    case IntRange(first, last) => first >= U64_LIMIT || (first < total && last.Some? && last.value >= U64_LIMIT)
    case SuffixOf(length) => length >= U64_LIMIT
  }

  lemma StrictSpecIsTight(spec: string, first: string, last: string)
    requires SplitOnce(spec, '-') == Some((first, last)) && AllDigits(first) && AllDigits(last)
    ensures Trim(spec) == spec && ',' !in spec && Trim(first) == first && Trim(last) == last
  {
    SplitOnceMeaning(spec, '-');
    assert spec == first + ['-'] + last;
    TightIsTrimmed(spec);
    TightIsTrimmed(first);
    TightIsTrimmed(last);
  }

  lemma TightIsTrimmed(s: string)
    requires Tight(s)
    ensures Trim(s) == s
  {
    TrimPadded("", s, "");
    assert "" + s + "" == s;
  }

  /** A strictly written header has the same sides for the code. */
  lemma StrictSidesAreSides(header: string)
    requires StrictSides(header).Some?
    ensures Sides(header) == StrictSides(header)
  {
    var spec := StripPrefix(Trim(header), "bytes=").value;
    var (first, last) := SplitOnce(spec, '-').value;
    StrictSpecIsTight(spec, first, last);
  }

  lemma DigitsParse(s: string)
    requires AllDigits(s)
    ensures ParseU64(s) == if s == "" || Value(s) >= U64_LIMIT then None else Some(Value(s))
  {
    if s != "" {
      assert IsDigit(s[0]);
    }
  }

  lemma StrictAnswer(header: string, total: u64)
    requires StrictSides(header).Some?
    ensures var (first, last) := StrictSides(header).value;
            var start, end := ParseDigits(first), ParseDigits(last);
            ParseRangeHeader(header, total) ==
            if total == 0 then Unsatisfiable
            else if first == "" then SuffixRange(last, total)
            else if start.None? then Ignore
            else FromStart(start.value, last, total)
  {
    var (first, last) := StrictSides(header).value;
    StrictSidesAreSides(header);
    hide StrictSides, Sides, Value;
    DigitsParse(first);
  }

  lemma GrantIsInside(header: string, total: u64)
    requires ParseRangeHeader(header, total).Satisfiable?
    ensures ParseRangeHeader(header, total).start <= ParseRangeHeader(header, total).end < total
  {
    hide Sides, ParseU64;
  }

  lemma StrictlyConforms(header: string, total: u64)
    requires StrictSides(header).Some?
    ensures Conforms(header, total) <==> !EmptySuffix(header, total) && !HugeNumber(header, total)
    ensures Permitted(header, total) <==> !EmptySuffix(header, total)
  {
    var (first, last) := StrictSides(header).value;
    StrictAnswer(header, total);
    DigitsParse(first);
    DigitsParse(last);
    hide StrictSides, ParseRangeHeader, ParseU64, Value, AllDigits;
  }

  lemma StrictIsNotLax(header: string)
    requires StrictSides(header).Some?
    ensures Sides(header).Some? && !IsLax(header)
  {
    var spec := Trim(header)[6..];
    StrictSidesAreSides(header);
    hide Trim, Sides;
    SplitOnceMeaning(spec, '-');
    var (first, last) := SplitOnce(spec, '-').value;
    assert spec == first + ['-'] + last;
    forall i | 0 <= i < |spec| ensures !IsWhitespace(spec[i]) {
      assert spec[i] == '-' || spec[i] in first || spec[i] in last;
    }
  }

  lemma UnsignedIsDigits(s: string)
    requires ParseU64(s).Some? && !HasPlus(s)
    ensures s != "" && AllDigits(s)
  {
  }

  lemma NoBlankIsTight(s: string)
    requires !HasBlank(s)
    ensures Tight(s) && Trim(s) == s
  {
    assert Tight(s);
    hide Trim, IsWhitespace;
    TightIsTrimmed(s);
  }

  lemma NoBlankInParts(l: string, r: string)
    requires !HasBlank(l + ['-'] + r)
    ensures !HasBlank(l) && !HasBlank(r)
  {
    hide IsWhitespace;
    var s := l + ['-'] + r;
    forall i | 0 <= i < |l| ensures s[i] == l[i] {
    }
    forall i | 0 <= i < |r| ensures s[|l| + 1 + i] == r[i] {
    }
  }

  /** A header whose sides name a range is strictly written exactly when it has neither a plus sign nor
      a blank. */
  lemma LaxIsNotStrict(header: string)
    requires Sides(header).Some? && NamesRange(Sides(header).value.0, Sides(header).value.1)
    ensures IsLax(header) <==> StrictSides(header).None?
  {
    if StrictSides(header).Some? {
      StrictIsNotLax(header);
    } else if !IsLax(header) {
      var spec := Trim(header)[6..];
      NoBlankIsTight(spec);
      SplitOnceMeaning(spec, '-');
      var (l, r) := SplitOnce(spec, '-').value;
      NoBlankInParts(l, r);
      NoBlankIsTight(l);
      NoBlankIsTight(r);
      hide Trim, IsWhitespace, ParseU64, AllDigits;
      if l != "" {
        UnsignedIsDigits(l);
      } else {
        EmptyIsDigits();
      }
      if r != "" {
        UnsignedIsDigits(r);
      } else {
        EmptyIsDigits();
      }
      assert false;
    }
  }

  lemma EmptyIsDigits()
    ensures AllDigits("") && ParseU64("").None?
  {
  }

  lemma LaxlyConforms(header: string, total: u64)
    requires StrictSides(header).None?
    ensures ParseRangeHeader(header, total).Satisfiable? <==> LaxGrant(header, total)
  {
    if Sides(header).Some? && NamesRange(Sides(header).value.0, Sides(header).value.1) {
      LaxIsNotStrict(header);
    }
    hide StrictSides, Sides, ParseU64, IsLax;
  }

  /** For every header and every representation: the code gives the standard's answer exactly when it
      does not grant a range in spite of a plus sign or a blank, the range is not a final one of an
      empty representation, and no deciding number passes 64 bits. The last case is only an ignored header;
      the other two are all the answers the standard does not permit. */
  lemma ConformsExactly(header: string, total: u64)
    ensures Conforms(header, total)
            <==> !LaxGrant(header, total) && !EmptySuffix(header, total) && !HugeNumber(header, total)
    ensures Permitted(header, total) <==> !LaxGrant(header, total) && !EmptySuffix(header, total)
  {
    if StrictSides(header).Some? {
      StrictlyConforms(header, total);
      StrictIsNotLax(header);
    } else {
      LaxlyConforms(header, total);
      hide ParseRangeHeader, Sides;
    }
    hide StrictSides, ParseRangeHeader, Sides;
  }

  /** Each way of parting does occur: a plus sign and inner blanks that are granted, a final range of
      an empty representation that is refused, and a last position of 2^64 that is not clipped. */
  lemma LenientHeaders()
    ensures ParseRangeHeader("bytes=" + "+1" + "-" + "2", 10) == Satisfiable(1, 2)
    ensures ParseRangeHeader(Spelling("", "", "1", " ", " ", "2", ""), 10) == Satisfiable(1, 2)
    ensures ParseRangeHeader("bytes=" + "" + "-" + "2", 0) == Unsatisfiable
    ensures ParseRangeHeader("bytes=" + "1" + "-" + Print(U64_LIMIT), 10) == Ignore
  {
    hide Sides, ParseU64, Print;
    Numerals();
    SidesWithoutSpace("+1", "2");
    SpacedSides();
    SidesWithoutSpace("", "2");
    HugeIsNoU64();
    SidesWithoutSpace("1", Print(U64_LIMIT));
  }

  predicate Plain(s: string) {
    Tight(s) && '-' !in s && ',' !in s
  }

  lemma SidesWithoutSpace(first: string, last: string)
    requires Plain(first) && Plain(last)
    ensures Sides("bytes=" + first + "-" + last) == Some((first, last))
  {
    hide Sides, Tight;
    SidesOfSpelling("", "", first, "", "", last, "");
    assert Spelling("", "", first, "", "", last, "") == "bytes=" + first + "-" + last;
  }

  lemma DigitsArePlain(s: string)
    requires AllDigits(s)
    ensures Plain(s)
  {
  }

  lemma SpacedSides()
    ensures Sides(Spelling("", "", "1", " ", " ", "2", "")) == Some(("1", "2"))
  {
    DigitsArePlain("1");
    DigitsArePlain("2");
    hide Sides;
    SidesOfSpelling("", "", "1", " ", " ", "2", "");
  }

  lemma HugeIsNoU64()
    ensures Plain(Print(U64_LIMIT)) && ParseU64(Print(U64_LIMIT)) == None
  {
    hide ParseU64, Print, Value;
    ValueOfPrint(U64_LIMIT);
    DigitsParse(Print(U64_LIMIT));
    DigitsArePlain(Print(U64_LIMIT));
  }

  lemma Numerals()
    ensures ParseU64("1") == Some(1) && ParseU64("2") == Some(2) && ParseU64("+1") == Some(1)
  {
    assert "+1"[1..] == "1";
    assert "1"[..0] == "" && "2"[..0] == "";
  }
}

/** Reassembling a completed upload from its chunk files. */
module Reconstruction {
  import opened Prelude
  import opened Sorting
  import opened Tiling
  import opened ChunkSessions

  const BUFFER_SIZE: nat := 64 * 1024

  datatype ReconstructError =
    | GapOrOverlap | LengthOverflow | DoesNotCover
    | CannotOpen | ShorterThanDeclared | LongerThanDeclared | SizeOverflow | HashMismatch

  /** An open chunk file. A read may return fewer bytes than asked for, but only returns none
      at the end of the file. */
  class ChunkFile {
    const content: seq<Byte>
    var position: nat

    constructor (content: seq<Byte>)
      ensures this.content == content && position == 0
    {
      this.content := content;
      position := 0;
    }

    method Read(buffer: array<Byte>, limit: nat) returns (n: nat)
      requires position <= |content| && 0 < limit <= buffer.Length
      modifies this`position, buffer
      ensures n <= limit && position == old(position) + n <= |content|
      ensures n == 0 <==> old(position) == |content|
      ensures buffer[..n] == content[old(position)..position]
    {
      if position == |content| {
        return 0;
      }
      var got: nat :| 1 <= got <= limit && position + got <= |content|;
      forall i | 0 <= i < got {
        buffer[i] := content[position + i];
      }
      n := got;
      position := position + n;
    }
  }

  // ----- what reconstruction computes -----

  /** The first thing wrong with the declared ranges, taken in the given order. */
  function CoverageError(chunks: seq<ChunkInfo>, expected: u64, total: u64): Option<ReconstructError> {
    if chunks == [] then if expected == total then None else Some(DoesNotCover)
    else if chunks[0].offset != expected then Some(GapOrOverlap)
    else
      var next := CheckedAdd(expected, chunks[0].length);
      if next.None? then Some(LengthOverflow) else CoverageError(chunks[1..], next.value, total)
  }

  /** The chunk files one after another, or the first file that disagrees with its record. */
  function Concatenated(chunks: seq<ChunkInfo>, files: map<Path, seq<Byte>>): Result<seq<Byte>, ReconstructError> {
    if chunks == [] then Ok([])
    else if chunks[0].path !in files then Err(CannotOpen)
    else
      var content := files[chunks[0].path];
      if |content| < chunks[0].length then Err(ShorterThanDeclared)
      else if |content| > chunks[0].length then Err(LongerThanDeclared)
      else
        var rest := Concatenated(chunks[1..], files);
        if rest.Err? then rest else Ok(content + rest.value)
  }

  function Assembled(upload: ChunkUpload, files: map<Path, seq<Byte>>, sha256: seq<Byte> -> string, expected: string)
    : Result<seq<Byte>, ReconstructError>
  {
    var chunks := InOffsetOrder(upload.chunks);
    var problem := CoverageError(chunks, 0, upload.uploadLength);
    if problem.Some? then Err(problem.value)
    else
      var body := Concatenated(chunks, files);
      if body.Ok? && (|body.value| != upload.uploadLength || sha256(body.value) != expected) then Err(HashMismatch)
      else body
  }

  // ----- what the errors mean -----

  /** The first `n` chunks follow each other from `start` on without gap or overlap. */
  ghost predicate Follow(chunks: seq<ChunkInfo>, start: nat, n: nat)
    requires n <= |chunks|
  {
    forall j :: 0 <= j < n ==> chunks[j].offset == start + SumLengths(chunks[..j])
  }

  /** The chunk that breaks the sequence: everything before it is in place and its own offset is not. */
  ghost predicate BreaksAt(chunks: seq<ChunkInfo>, start: nat, i: nat) {
    && i < |chunks| && Follow(chunks, start, i) && start + SumLengths(chunks[..i]) < U64_LIMIT
    && chunks[i].offset != start + SumLengths(chunks[..i])
  }

  /** The chunk whose end is the first that no 64-bit integer can hold. */
  ghost predicate OverflowsAt(chunks: seq<ChunkInfo>, start: nat, i: nat) {
    && i < |chunks| && Follow(chunks, start, i + 1)
    && start + SumLengths(chunks[..i]) < U64_LIMIT <= start + SumLengths(chunks[..i + 1])
  }

  lemma ShiftedSum(chunks: seq<ChunkInfo>, i: nat)
    requires i < |chunks|
    ensures SumLengths(chunks[..i + 1]) == chunks[0].length + SumLengths(chunks[1..][..i])
  {
    assert chunks[..i + 1][1..] == chunks[1..][..i];
  }

  lemma ShiftedFollow(chunks: seq<ChunkInfo>, start: nat, n: nat)
    requires n < |chunks|
    ensures Follow(chunks, start, n + 1) <==>
            chunks[0].offset == start && Follow(chunks[1..], start + chunks[0].length, n)
  {
    assert chunks[..0] == [];
    forall j | 0 <= j < n
      ensures chunks[1..][j] == chunks[j + 1]
              && SumLengths(chunks[..j + 1]) == chunks[0].length + SumLengths(chunks[1..][..j])
    {
      ShiftedSum(chunks, j);
    }
    if Follow(chunks, start, n + 1) {
      forall j | 0 <= j < n ensures chunks[1..][j].offset == start + chunks[0].length + SumLengths(chunks[1..][..j]) {
        assert chunks[j + 1].offset == start + SumLengths(chunks[..j + 1]);
      }
    }
    if chunks[0].offset == start && Follow(chunks[1..], start + chunks[0].length, n) {
      forall j | 0 <= j < n + 1 ensures chunks[j].offset == start + SumLengths(chunks[..j]) {
        if j > 0 {
          assert chunks[1..][j - 1] == chunks[j];
        }
      }
    }
  }

  lemma ShiftedErrors(chunks: seq<ChunkInfo>, start: nat, i: nat)
    requires chunks != [] && chunks[0].offset == start && start + chunks[0].length < U64_LIMIT
    ensures BreaksAt(chunks, start, i + 1) <==> BreaksAt(chunks[1..], start + chunks[0].length, i)
    ensures OverflowsAt(chunks, start, i + 1) <==> OverflowsAt(chunks[1..], start + chunks[0].length, i)
    ensures !BreaksAt(chunks, start, 0) && !OverflowsAt(chunks, start, 0)
  {
    assert chunks[..0] == [] && chunks[..1][1..] == [];
    if i + 1 < |chunks| {
      hide Follow, SumLengths;
      ShiftedSum(chunks, i);
      ShiftedSum(chunks, i + 1);
      ShiftedFollow(chunks, start, i);
      ShiftedFollow(chunks, start, i + 1);
    }
  }

  lemma ShiftedCauses(chunks: seq<ChunkInfo>, start: nat)
    requires chunks != [] && chunks[0].offset == start && start + chunks[0].length < U64_LIMIT
    ensures var later, rest := start + chunks[0].length, chunks[1..];
            && ((exists i: nat :: BreaksAt(chunks, start, i)) <==> exists i: nat :: BreaksAt(rest, later, i))
            && ((exists i: nat :: OverflowsAt(chunks, start, i)) <==> exists i: nat :: OverflowsAt(rest, later, i))
  {
    hide BreaksAt, OverflowsAt;
    var later, rest := start + chunks[0].length, chunks[1..];
    ShiftedErrors(chunks, start, 0);
    if i: nat :| BreaksAt(chunks, start, i) {
      ShiftedErrors(chunks, start, if i > 0 then i - 1 else 0);
      assert BreaksAt(rest, later, i - 1);
    }
    if i: nat :| OverflowsAt(chunks, start, i) {
      ShiftedErrors(chunks, start, if i > 0 then i - 1 else 0);
      assert OverflowsAt(rest, later, i - 1);
    }
    if i: nat :| BreaksAt(rest, later, i) {
      ShiftedErrors(chunks, start, i);
      assert BreaksAt(chunks, start, i + 1);
    }
    if i: nat :| OverflowsAt(rest, later, i) {
      ShiftedErrors(chunks, start, i);
      assert OverflowsAt(chunks, start, i + 1);
    }
  }

  /** Each coverage error names its cause: the first chunk out of place, the first end out of range, or
      chunks in place that end before or behind the declared length. */
  lemma {:induction false} CoverageErrorMeans(chunks: seq<ChunkInfo>, start: u64, total: u64)
    ensures CoverageError(chunks, start, total) == Some(GapOrOverlap) <==> exists i: nat :: BreaksAt(chunks, start, i)
    ensures CoverageError(chunks, start, total) == Some(LengthOverflow) <==>
            exists i: nat :: OverflowsAt(chunks, start, i)
    ensures CoverageError(chunks, start, total) == Some(DoesNotCover) <==>
            && Follow(chunks, start, |chunks|) && start + SumLengths(chunks) < U64_LIMIT
            && start + SumLengths(chunks) != total
  {
    if chunks != [] {
      ShiftedFollow(chunks, start, |chunks| - 1);
      if chunks[0].offset != start {
        BreaksAtOnce(chunks, start);
        hide BreaksAt, OverflowsAt, Follow;
      } else if start + chunks[0].length >= U64_LIMIT {
        OverflowsAtOnce(chunks, start);
        NoBreakBehindOverflow(chunks, start);
        hide BreaksAt, OverflowsAt, Follow;
      } else {
        CoverageErrorMeans(chunks[1..], start + chunks[0].length, total);
        ShiftedCauses(chunks, start);
        hide BreaksAt, OverflowsAt, Follow;
      }
    }
  }

  lemma BreaksAtOnce(chunks: seq<ChunkInfo>, start: nat)
    requires chunks != [] && chunks[0].offset != start < U64_LIMIT
    ensures BreaksAt(chunks, start, 0) && forall i: nat :: !OverflowsAt(chunks, start, i)
    ensures !Follow(chunks, start, |chunks|)
  {
    assert chunks[..0] == [];
    assert chunks[0].offset != start + SumLengths(chunks[..0]);
  }

  lemma OverflowsAtOnce(chunks: seq<ChunkInfo>, start: nat)
    requires chunks != [] && chunks[0].offset == start < U64_LIMIT <= start + chunks[0].length
    ensures OverflowsAt(chunks, start, 0)
  {
    assert chunks[..0] == [] && chunks[..1][1..] == [];
  }

  lemma NoBreakBehindOverflow(chunks: seq<ChunkInfo>, start: nat)
    requires chunks != [] && chunks[0].offset == start && start + chunks[0].length >= U64_LIMIT
    ensures forall i: nat :: !BreaksAt(chunks, start, i)
  {
    forall i: nat ensures !BreaksAt(chunks, start, i) {
      if 0 < i < |chunks| {
        ShiftedSum(chunks, i - 1);
      } else if i == 0 {
        assert chunks[..0] == [];
      }
    }
  }

  /** Chunk `i` is the first that its file does not bear out. */
  ghost predicate FirstUnbacked(chunks: seq<ChunkInfo>, files: map<Path, seq<Byte>>, i: nat) {
    && i < |chunks|
    && (forall j :: 0 <= j < i ==> chunks[j].path in files && |files[chunks[j].path]| == chunks[j].length)
    && !(chunks[i].path in files && |files[chunks[i].path]| == chunks[i].length)
  }

  /** The copy succeeds exactly when every file is there with its declared length; otherwise the first
      file that is not decides the error. */
  lemma {:induction false} ConcatenatedMeans(chunks: seq<ChunkInfo>, files: map<Path, seq<Byte>>)
    ensures Concatenated(chunks, files).Ok? <==>
            forall i :: 0 <= i < |chunks| ==> chunks[i].path in files && |files[chunks[i].path]| == chunks[i].length
    ensures forall i: nat :: FirstUnbacked(chunks, files, i) ==>
              Concatenated(chunks, files) ==
              Err(if chunks[i].path !in files then CannotOpen
                  else if |files[chunks[i].path]| < chunks[i].length then ShorterThanDeclared
                  else LongerThanDeclared)
  {
    if chunks != [] && chunks[0].path in files && |files[chunks[0].path]| == chunks[0].length {
      ConcatenatedMeans(chunks[1..], files);
      assert forall i :: 0 < i < |chunks| ==> chunks[i] == chunks[1..][i - 1];
      forall i: nat | FirstUnbacked(chunks, files, i) ensures i > 0 && FirstUnbacked(chunks[1..], files, i - 1) {
        assert forall j :: 0 <= j < i - 1 ==> chunks[1..][j] == chunks[j + 1];
      }
    }
  }

  // ----- the loops -----

  method CheckCoverage(chunks: seq<ChunkInfo>, total: u64) returns (problem: Option<ReconstructError>)
    ensures problem == CoverageError(chunks, 0, total)
  {
    var expectedOffset: u64 := 0;
    for i := 0 to |chunks|
      invariant CoverageError(chunks, 0, total) == CoverageError(chunks[i..], expectedOffset, total)
    {
      assert chunks[i..][1..] == chunks[i + 1..];
      if chunks[i].offset != expectedOffset {
        return Some(GapOrOverlap);
      }
      var next := CheckedAdd(expectedOffset, chunks[i].length);
      if next.None? {
        return Some(LengthOverflow);
      }
      expectedOffset := next.value;
    }
    problem := if expectedOffset == total then None else Some(DoesNotCover);
  }

  lemma {:induction false} ConcatenatedPrefix(chunks: seq<ChunkInfo>, files: map<Path, seq<Byte>>, i: nat,
                                              body: seq<Byte>)
    requires i <= |chunks| && Concatenated(chunks[..i], files) == Ok(body)
    ensures Concatenated(chunks, files) == var rest := Concatenated(chunks[i..], files);
                                           if rest.Err? then rest else Ok(body + rest.value)
  {
    if i == 0 {
      assert chunks[0..] == chunks && body == [];
      assert Concatenated(chunks, files).Ok? ==>
               [] + Concatenated(chunks, files).value == Concatenated(chunks, files).value;
    } else {
      assert chunks[..i][1..] == chunks[1..][..i - 1] && chunks[1..][i - 1..] == chunks[i..];
      var head := files[chunks[0].path];
      var tail := Concatenated(chunks[1..][..i - 1], files).value;
      ConcatenatedPrefix(chunks[1..], files, i - 1, tail);
      var rest := Concatenated(chunks[i..], files);
      assert rest.Ok? ==> head + (tail + rest.value) == (head + tail) + rest.value;
    }
  }

  lemma {:induction false} ConcatenatedLength(chunks: seq<ChunkInfo>, files: map<Path, seq<Byte>>)
    ensures Concatenated(chunks, files).Ok? ==> |Concatenated(chunks, files).value| == SumLengths(chunks)
  {
    if chunks != [] {
      ConcatenatedLength(chunks[1..], files);
    }
  }

  lemma SumOfPrefix(chunks: seq<ChunkInfo>, i: nat)
    requires i < |chunks|
    ensures SumLengths(chunks[..i]) + chunks[i].length <= SumLengths(chunks)
  {
    assert chunks == chunks[..i] + ([chunks[i]] + chunks[i + 1..]);
    SumAppend(chunks[..i], [chunks[i]] + chunks[i + 1..]);
    SumAppend([chunks[i]], chunks[i + 1..]);
    assert [chunks[i]][1..] == [];
  }

  /** What the copy of chunk `i`, after the ones before it, can come to. */
  lemma AtChunk(chunks: seq<ChunkInfo>, files: map<Path, seq<Byte>>, i: nat, target: seq<Byte>)
    requires i < |chunks| && Concatenated(chunks[..i], files) == Ok(target)
    ensures |target| + chunks[i].length <= SumLengths(chunks)
    ensures var path := chunks[i].path;
            && (path !in files ==> Concatenated(chunks, files) == Err(CannotOpen))
            && (path in files && |files[path]| < chunks[i].length ==>
                  Concatenated(chunks, files) == Err(ShorterThanDeclared))
            && (path in files && |files[path]| > chunks[i].length ==>
                  Concatenated(chunks, files) == Err(LongerThanDeclared))
            && (path in files && |files[path]| == chunks[i].length ==>
                  Concatenated(chunks[..i + 1], files) == Ok(target + files[path]))
  {
    var rest := chunks[i..];
    assert rest[0] == chunks[i];
    ConcatenatedPrefix(chunks, files, i, target);
    ConcatenatedLength(chunks[..i], files);
    SumOfPrefix(chunks, i);
    if chunks[i].path in files && |files[chunks[i].path]| == chunks[i].length {
      hide Concatenated, SumLengths;
      ExtendConcatenated(chunks, files, i, target);
    }
  }

  lemma NothingCopied(files: map<Path, seq<Byte>>)
    ensures Concatenated([], files) == Ok([])
  {
  }

  /** The buffered copy. Whatever short reads the file system hands out, the target receives
      exactly the chunk files, in order and whole. */
  method CopyChunks(chunks: seq<ChunkInfo>, files: map<Path, seq<Byte>>)
    returns (r: Result<seq<Byte>, ReconstructError>)
    requires SumLengths(chunks) < U64_LIMIT
    ensures r == Concatenated(chunks, files)
  {
    hide Concatenated, SumLengths;
    var target: seq<Byte> := [];
    var totalWritten: u64 := 0;
    var buffer := new Byte[BUFFER_SIZE];
    var i := 0;
    NothingCopied(files);
    assert chunks[..0] == [];
    while i < |chunks|
      invariant 0 <= i <= |chunks| && buffer.Length == BUFFER_SIZE && fresh(buffer)
      invariant Concatenated(chunks[..i], files) == Ok(target)
      invariant totalWritten == |target|
    {
      var chunk := chunks[i];
      AtChunk(chunks, files, i, target);
      if chunk.path !in files {
        return Err(CannotOpen);
      }
      var source := new ChunkFile(files[chunk.path]);
      ghost var before := target;
      var remaining: u64 := chunk.length;
      while remaining > 0
        invariant fresh(source) && source.position == chunk.length - remaining <= |source.content|
        invariant target == before + source.content[..source.position]
        invariant totalWritten == |target|
      {
        var readLen := if remaining < BUFFER_SIZE then remaining else BUFFER_SIZE;
        var read := source.Read(buffer, readLen);
        if read == 0 {
          return Err(ShorterThanDeclared);
        }
        ReadOn(before, source.content, source.position - read, read);
        target := target + buffer[..read];
        remaining := remaining - read;
        if totalWritten + read >= U64_LIMIT {
          assert false;
          return Err(SizeOverflow);
        }
        totalWritten := totalWritten + read;
      }
      var extra := source.Read(buffer, 1);
      if extra != 0 {
        return Err(LongerThanDeclared);
      }
      assert source.content[..|source.content|] == source.content;
      i := i + 1;
    }
    assert chunks[..i] == chunks;
    return Ok(target);
  }

  lemma ReadOn(before: seq<Byte>, content: seq<Byte>, position: nat, n: nat)
    requires position + n <= |content|
    ensures before + content[..position] + content[position..position + n] == before + content[..position + n]
  {
    assert content[..position] + content[position..position + n] == content[..position + n];
  }

  lemma ExtendConcatenated(chunks: seq<ChunkInfo>, files: map<Path, seq<Byte>>, i: nat, body: seq<Byte>)
    requires i < |chunks| && chunks[i].path in files && |files[chunks[i].path]| == chunks[i].length
    requires Concatenated(chunks[..i], files) == Ok(body)
    ensures Concatenated(chunks[..i + 1], files) == Ok(body + files[chunks[i].path])
  {
    var all := chunks[..i + 1];
    assert all[..i] == chunks[..i] && all[i..] == [chunks[i]] && [chunks[i]][1..] == [];
    ConcatenatedPrefix(all, files, i, body);
    assert files[chunks[i].path] + [] == files[chunks[i].path];
  }

  method Reconstruct(upload: ChunkUpload, files: map<Path, seq<Byte>>, sha256: seq<Byte> -> string, expected: string)
    returns (r: Result<seq<Byte>, ReconstructError>)
    ensures r == Assembled(upload, files, sha256, expected)
  {
    var chunks := InOffsetOrder(upload.chunks);
    var problem := CheckCoverage(chunks, upload.uploadLength);
    if problem.Some? {
      return Err(problem.value);
    }
    CoverageIsTiling(chunks, 0, upload.uploadLength);
    TilesSum(chunks, 0, upload.uploadLength);
    r := CopyChunks(chunks, files);
    if r.Ok? && (|r.value| != upload.uploadLength || sha256(r.value) != expected) {
      r := Err(HashMismatch);
    }
  }

  // ----- what reconstruction promises -----

  /** The running check accepts exactly the tilings. */
  lemma {:induction false} CoverageIsTiling(chunks: seq<ChunkInfo>, lo: u64, total: u64)
    ensures CoverageError(chunks, lo, total).None? <==> Tiles(chunks, lo, total)
  {
    if chunks != [] && chunks[0].offset == lo {
      TilesSum(chunks, lo, total);
      if EndOf(chunks[0]) < U64_LIMIT {
        CoverageIsTiling(chunks[1..], EndOf(chunks[0]), total);
      }
    }
  }

  /** Each listed chunk has a file of exactly the declared length. */
  ghost predicate Backed(chunks: seq<ChunkInfo>, files: map<Path, seq<Byte>>) {
    forall i :: 0 <= i < |chunks| ==> chunks[i].path in files && |files[chunks[i].path]| == chunks[i].length
  }

  /** The first chunk of a tiling, and what concatenation does with it. */
  lemma TilingUnfolds(chunks: seq<ChunkInfo>, files: map<Path, seq<Byte>>, lo: nat, hi: nat)
    requires Tiles(chunks, lo, hi) && Backed(chunks, files) && chunks != []
    ensures var first, rest := chunks[0], chunks[1..];
            && first.offset == lo && first.path in files && |files[first.path]| == first.length
            && Tiles(rest, lo + |files[first.path]|, hi) && Backed(rest, files)
            && (Concatenated(rest, files).Ok? ==>
                  Concatenated(chunks, files) == Ok(files[first.path] + Concatenated(rest, files).value))
  {
    forall i | 0 <= i < |chunks[1..]| ensures chunks[1..][i] == chunks[i + 1] {
    }
  }

  lemma EmptyTiling(files: map<Path, seq<Byte>>, lo: nat, hi: nat)
    requires Tiles([], lo, hi)
    ensures Concatenated([], files) == Ok([]) && hi == lo
  {
  }

  /** The body, which starts at byte `lo` of the upload, holds the chunk's file at its place. */
  ghost predicate Holds(body: seq<Byte>, lo: nat, c: ChunkInfo, files: map<Path, seq<Byte>>) {
    && c.path in files && lo <= c.offset && EndOf(c) <= lo + |body|
    && body[c.offset - lo..EndOf(c) - lo] == files[c.path]
  }

  lemma HoldsHead(tail: seq<Byte>, c: ChunkInfo, files: map<Path, seq<Byte>>)
    requires c.path in files && |files[c.path]| == c.length
    ensures Holds(files[c.path] + tail, c.offset, c, files)
  {
  }

  lemma HoldsTail(head: seq<Byte>, tail: seq<Byte>, lo: nat, c: ChunkInfo, files: map<Path, seq<Byte>>)
    requires Holds(tail, lo + |head|, c, files)
    ensures Holds(head + tail, lo, c, files)
  {
    assert (head + tail)[c.offset - lo..EndOf(c) - lo] == tail[c.offset - lo - |head|..EndOf(c) - lo - |head|];
  }

  lemma {:induction false} TilingPlacesEveryChunk(chunks: seq<ChunkInfo>, files: map<Path, seq<Byte>>, lo: nat, hi: nat)
    returns (body: seq<Byte>)
    requires Tiles(chunks, lo, hi) && Backed(chunks, files)
    ensures Concatenated(chunks, files) == Ok(body) && lo + |body| == hi
    ensures forall c :: c in chunks ==> Holds(body, lo, c, files)
  {
    hide *;
    if chunks == [] {
      EmptyTiling(files, lo, hi);
      body := [];
    } else {
      TilingUnfolds(chunks, files, lo, hi);
      var first, rest := chunks[0], chunks[1..];
      var head := files[first.path];
      var tail := TilingPlacesEveryChunk(rest, files, lo + |head|, hi);
      body := head + tail;
      assert chunks == [first] + rest;
      HoldsHead(tail, first, files);
      forall c | c in chunks ensures Holds(body, lo, c, files) {
        if c in rest {
          HoldsTail(head, tail, lo, c, files);
        }
      }
    }
  }

  lemma SortedStaysBacked(chunks: seq<ChunkInfo>, files: map<Path, seq<Byte>>)
    requires Backed(chunks, files)
    ensures Backed(InOffsetOrder(chunks), files)
    ensures forall c :: c in InOffsetOrder(chunks) <==> c in chunks
  {
    var sorted := InOffsetOrder(chunks);
    SortIsSortedPermutation(chunks, BY_OFFSET);
    SameElements(sorted, chunks);
    forall i | 0 <= i < |sorted| ensures sorted[i].path in files && |files[sorted[i].path]| == sorted[i].length {
      assert sorted[i] in chunks;
    }
  }

  ghost predicate Places(body: seq<Byte>, chunks: seq<ChunkInfo>, files: map<Path, seq<Byte>>) {
    forall c :: c in chunks ==> c.path in files && EndOf(c) <= |body| && body[c.offset..EndOf(c)] == files[c.path]
  }

  lemma TilingConcatenates(chunks: seq<ChunkInfo>, files: map<Path, seq<Byte>>, total: u64) returns (body: seq<Byte>)
    requires Tiles(chunks, 0, total) && Backed(chunks, files)
    ensures Concatenated(chunks, files) == Ok(body) && |body| == total && Places(body, chunks, files)
  {
    hide *;
    body := TilingPlacesEveryChunk(chunks, files, 0, total);
    HoldsIsPlaces(body, chunks, files);
  }

  lemma HoldsIsPlaces(body: seq<Byte>, chunks: seq<ChunkInfo>, files: map<Path, seq<Byte>>)
    requires forall c :: c in chunks ==> Holds(body, 0, c, files)
    ensures Places(body, chunks, files)
  {
  }

  /** A completed, backed upload reconstructs to a body of the declared length that holds every
      chunk's bytes at that chunk's offset. Nothing but a digest mismatch can go wrong. */
  lemma CompletedReconstructs(upload: ChunkUpload, files: map<Path, seq<Byte>>, sha256: seq<Byte> -> string,
                              expected: string)
    returns (body: seq<Byte>)
    requires Completed(upload) && Backed(upload.chunks, files)
    ensures |body| == upload.uploadLength && Places(body, upload.chunks, files)
    ensures Assembled(upload, files, sha256, expected) == if sha256(body) == expected then Ok(body)
            else Err(HashMismatch)
  {
    var chunks := InOffsetOrder(upload.chunks);
    SumDecidesTiling(upload.chunks, upload.uploadLength);
    CoverageIsTiling(chunks, 0, upload.uploadLength);
    SortedStaysBacked(upload.chunks, files);
    body := TilingConcatenates(chunks, files, upload.uploadLength);
  }

  /** Two arrival orders of the same chunks give the same outcome. */
  lemma ReconstructionIgnoresArrivalOrder(a: ChunkUpload, b: ChunkUpload, files: map<Path, seq<Byte>>,
                                          sha256: seq<Byte> -> string, expected: string)
    requires Packed(a.chunks, a.uploadLength) && Packed(b.chunks, b.uploadLength)
    requires multiset(a.chunks) == multiset(b.chunks) && a.uploadLength == b.uploadLength
    ensures Assembled(a, files, sha256, expected) == Assembled(b, files, sha256, expected)
  {
    ArrivalOrderIrrelevant(a.chunks, b.chunks, a.uploadLength);
  }
}

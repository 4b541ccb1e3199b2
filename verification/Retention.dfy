/** Retention: expiry deadlines, the capacity eviction order, and the cleanup sweep over the index. */
module Retention {
  import opened Prelude
  import opened Sorting
  import opened FileModel
  import opened BlobIndex
  import opened BlobCatalogue

  /** The policy; zero disables a limit. */
  datatype Policy = Policy(maxFileAge: u64, maxCacheTtl: u64, maxTotalSize: u64, maxTotalFiles: nat)

  datatype Reason = Expiration | UploadAge | CacheTtl

  /** A snapshot row of the index. */
  type Row = (string, FileMetadata)

  // ----- deadlines -----

  function AgeDeadline(m: FileMetadata, limit: u64): Option<u64> {
    if limit > 0 then Some(SaturatingAdd(m.createdAt, limit)) else None
  }

  /** The earliest claim, with its label; the client's own expiration wins a tie. */
  function CleanupDeadline(m: FileMetadata, maxFileAge: u64, maxCacheTtl: u64): Option<(u64, Reason)> {
    match m.origin
    case Upload =>
      (match (m.expiration, AgeDeadline(m, maxFileAge))
       case (None, None) => None
       case (Some(e), None) => Some((e, Expiration))
       case (None, Some(a)) => Some((a, UploadAge))
       case (Some(e), Some(a)) => if e <= a then Some((e, Expiration)) else Some((a, UploadAge)))
    case UpstreamCache =>
      match AgeDeadline(m, maxCacheTtl)
      case None => None
      case Some(a) => Some((a, CacheTtl))
  }

  function ExpirationReason(m: FileMetadata, p: Policy, now: u64): Option<Reason> {
    match CleanupDeadline(m, p.maxFileAge, p.maxCacheTtl)
    case None => None
    case Some((deadline, reason)) => if now >= deadline then Some(reason) else None
  }

  function SunsetExpiration(m: FileMetadata, maxFileAge: u64): Option<u64> {
    match m.origin
    case Upload => (match CleanupDeadline(m, maxFileAge, 0) case None => None case Some((at, _)) => Some(at))
    case UpstreamCache => None
  }

  /** A retention claim on a blob: an instant from which some rule lets the sweep delete it. */
  predicate Claims(m: FileMetadata, p: Policy, at: u64) {
    match m.origin
    case Upload => m.expiration == Some(at) || (p.maxFileAge > 0 && at == EndOfAge(m, p.maxFileAge))
    case UpstreamCache => p.maxCacheTtl > 0 && at == EndOfAge(m, p.maxCacheTtl)
  }

  /** The age limit counts from creation; a sum past the last representable instant is that instant. */
  function EndOfAge(m: FileMetadata, limit: u64): u64 {
    Min(m.createdAt + limit, 0xFFFF_FFFF_FFFF_FFFF)
  }

  /** The sweep names the claim that comes first; the client's own expiration wins a tie. */
  lemma ReasonIsTheFirstClaim(m: FileMetadata, p: Policy, now: u64)
    ensures ExpirationReason(m, p, now) == Some(Expiration) <==>
            && m.origin == Upload && m.expiration.Some? && m.expiration.value <= now
            && (p.maxFileAge == 0 || m.expiration.value <= EndOfAge(m, p.maxFileAge))
    ensures ExpirationReason(m, p, now) == Some(UploadAge) <==>
            && m.origin == Upload && p.maxFileAge > 0 && EndOfAge(m, p.maxFileAge) <= now
            && (m.expiration.None? || EndOfAge(m, p.maxFileAge) < m.expiration.value)
    ensures ExpirationReason(m, p, now) == Some(CacheTtl) <==>
            m.origin == UpstreamCache && p.maxCacheTtl > 0 && EndOfAge(m, p.maxCacheTtl) <= now
  {
  }

  /** A blob expires at the earliest of its claims, and an upload never before the announced `Sunset`,
      whatever the policy for cached copies. */
  lemma ExpiresAtEarliestClaim(m: FileMetadata, p: Policy, now: u64)
    ensures ExpirationReason(m, p, now).Some? <==> exists at: u64 :: Claims(m, p, at) && at <= now
    ensures m.origin == Upload ==>
              (ExpirationReason(m, p, now).Some?
               <==> SunsetExpiration(m, p.maxFileAge).Some? && now >= SunsetExpiration(m, p.maxFileAge).value)
    ensures m.origin == UpstreamCache ==> SunsetExpiration(m, p.maxFileAge).None?
  {
    if m.expiration.Some? && m.origin == Upload {
      assert Claims(m, p, m.expiration.value);
    }
    var limit := if m.origin == Upload then p.maxFileAge else p.maxCacheTtl;
    if limit > 0 {
      assert Claims(m, p, EndOfAge(m, limit));
    }
  }

  // ----- the eviction order -----

  function OfOrigin(rows: seq<Row>, origin: BlobOrigin): seq<Row> {
    if rows == [] then []
    else (if rows[0].1.origin == origin then [rows[0]] else []) + OfOrigin(rows[1..], origin)
  }

  function Age(): Row -> int {
    (row: Row) => row.1.createdAt
  }

  function CapacityEvictionOrder(rows: seq<Row>): seq<Row> {
    SortBy(OfOrigin(rows, UpstreamCache), Age()) + SortBy(OfOrigin(rows, Upload), Age())
  }

  lemma {:induction false} OriginsPartition(rows: seq<Row>)
    ensures multiset(OfOrigin(rows, UpstreamCache)) + multiset(OfOrigin(rows, Upload)) == multiset(rows)
    ensures forall origin :: forall r :: r in OfOrigin(rows, origin) ==> r.1.origin == origin
  {
    if rows != [] {
      hide OfOrigin;
      OriginsPartition(rows[1..]);
      assert rows == [rows[0]] + rows[1..];
      OfOriginCons(rows, UpstreamCache);
      OfOriginCons(rows, Upload);
    }
  }

  lemma OfOriginCons(rows: seq<Row>, origin: BlobOrigin)
    requires rows != []
    ensures OfOrigin(rows, origin) ==
            (if rows[0].1.origin == origin then [rows[0]] else []) + OfOrigin(rows[1..], origin)
  {
  }

  /** The first row should go no later than the second: cached copies before uploads, then by age. */
  predicate GoesFirst(a: Row, b: Row) {
    (a.1.origin == UpstreamCache && b.1.origin == Upload)
      || (a.1.origin == b.1.origin && a.1.createdAt <= b.1.createdAt)
  }

  lemma {:induction false} SortedPairs(rows: seq<Row>, origin: BlobOrigin, i: nat, j: nat)
    requires SortedBy(rows, Age()) && (forall r :: r in rows ==> r.1.origin == origin) && i <= j < |rows|
    ensures GoesFirst(rows[i], rows[j])
  {
    if i == 0 {
      assert j > 0 ==> rows[j] == rows[1..][j - 1];
      assert j > 0 ==> rows[j] in rows[1..];
      assert j > 0 ==> Age()(rows[0]) <= Age()(rows[j]);
    } else {
      SortedPairs(rows[1..], origin, i - 1, j - 1);
    }
  }

  /** The eviction order lists every row once, all cached copies before all uploads, oldest first. */
  lemma EvictionOrderIsSorted(rows: seq<Row>)
    ensures multiset(CapacityEvictionOrder(rows)) == multiset(rows)
    ensures forall i, j :: 0 <= i < j < |CapacityEvictionOrder(rows)| ==>
              GoesFirst(CapacityEvictionOrder(rows)[i], CapacityEvictionOrder(rows)[j])
  {
    OriginsPartition(rows);
    SortedPart(rows, UpstreamCache);
    SortedPart(rows, Upload);
    hide SortBy, OfOrigin, SortedBy, GoesFirst;
    ConcatInOrder(SortBy(OfOrigin(rows, UpstreamCache), Age()), SortBy(OfOrigin(rows, Upload), Age()));
  }

  lemma SortedPart(rows: seq<Row>, origin: BlobOrigin)
    ensures var part := SortBy(OfOrigin(rows, origin), Age());
            multiset(part) == multiset(OfOrigin(rows, origin)) && SortedBy(part, Age()) && forall r :: r in part ==>
                r.1.origin == origin
  {
    OriginsPartition(rows);
    SortIsSortedPermutation(OfOrigin(rows, origin), Age());
    SameElements(SortBy(OfOrigin(rows, origin), Age()), OfOrigin(rows, origin));
  }

  lemma ConcatInOrder(a: seq<Row>, b: seq<Row>)
    requires SortedBy(a, Age()) && forall r :: r in a ==> r.1.origin == UpstreamCache
    requires SortedBy(b, Age()) && forall r :: r in b ==> r.1.origin == Upload
    ensures forall i, j :: 0 <= i < j < |a + b| ==> GoesFirst((a + b)[i], (a + b)[j])
  {
    hide SortedBy;
    forall i, j | 0 <= i < j < |a + b| ensures GoesFirst((a + b)[i], (a + b)[j]) {
      if j < |a| {
        SortedPairs(a, UpstreamCache, i, j);
      } else if i >= |a| {
        SortedPairs(b, Upload, i - |a|, j - |a|);
      } else {
        assert (a + b)[i] in a && (a + b)[j] in b;
      }
    }
  }

  // ----- capacity -----

  predicate Within(p: Policy, size: nat, files: nat) {
    (p.maxTotalSize == 0 || size <= p.maxTotalSize) && (p.maxTotalFiles == 0 || files <= p.maxTotalFiles)
  }

  /** How many candidates, in order, the sweep goes through before the limits are met. */
  function Tried(p: Policy, order: seq<Row>, size: nat, files: nat, deletable: string -> bool): (n: nat)
    ensures n <= |order|
  {
    if order == [] || Within(p, size, files) then 0
    else if deletable(order[0].0)
      then 1 + Tried(p, order[1..], SaturatingSub(size, order[0].1.size), SaturatingSub(files, 1), deletable)
    else 1 + Tried(p, order[1..], size, files, deletable)
  }

  function SizeOf(rows: seq<Row>): nat {
    if rows == [] then 0 else rows[0].1.size + SizeOf(rows[1..])
  }

  /** The limits hold once the first `k` rows are gone. */
  predicate Suffices(p: Policy, order: seq<Row>, k: nat)
    requires k <= |order|
  {
    && (p.maxTotalSize > 0 ==> SizeOf(order[k..]) <= p.maxTotalSize)
    && (p.maxTotalFiles > 0 ==> |order| - k <= p.maxTotalFiles)
  }

  lemma SufficesShift(p: Policy, order: seq<Row>, k: nat)
    requires 0 < k <= |order|
    ensures Suffices(p, order, k) <==> Suffices(p, order[1..], k - 1)
  {
    assert order[k..] == order[1..][k - 1..];
  }

  /** When deletions succeed, the victims are the shortest prefix that suffices. */
  lemma {:induction false} ShortestSufficientPrefix(p: Policy, order: seq<Row>, deletable: string -> bool)
    requires forall r :: r in order ==> deletable(r.0)
    ensures var k := Tried(p, order, SizeOf(order), |order|, deletable);
            Suffices(p, order, k) && forall j :: 0 <= j < k ==> !Suffices(p, order, j)
  {
    assert order[0..] == order;
    if order != [] && !Suffices(p, order, 0) {
      ShortestSufficientPrefix(p, order[1..], deletable);
      var k := Tried(p, order, SizeOf(order), |order|, deletable);
      assert k == 1 + Tried(p, order[1..], SizeOf(order[1..]), |order[1..]|, deletable);
      hide Tried, Suffices;
      SufficesShift(p, order, k);
      forall j | 0 < j < k ensures !Suffices(p, order, j) {
        SufficesShift(p, order, j);
      }
    }
  }

  // ----- snapshots -----

  ghost predicate Enumerates(rows: seq<Row>, blobs: map<string, FileMetadata>) {
    && (forall i, j :: 0 <= i < j < |rows| ==> rows[i].0 != rows[j].0)
    && (forall r :: r in rows ==> r.0 in blobs && blobs[r.0] == r.1)
    && (forall k :: k in blobs ==> (k, blobs[k]) in rows)
  }

  /** Every entry, in whatever order the map yields them. */
  method Snapshot(blobs: map<string, FileMetadata>) returns (rows: seq<Row>)
    ensures Enumerates(rows, blobs)
  {
    rows := [];
    var left := blobs.Keys;
    while left != {}
      invariant left <= blobs.Keys && Enumerates(rows, blobs - left)
      decreases left
    {
      var key :| key in left;
      EnumerateOneMore(rows, blobs, left, key);
      rows := rows + [(key, blobs[key])];
      left := left - {key};
    }
    assert blobs - left == blobs;
  }

  lemma EnumerateOneMore(rows: seq<Row>, blobs: map<string, FileMetadata>, left: set<string>, key: string)
    requires key in left && left <= blobs.Keys && Enumerates(rows, blobs - left)
    ensures Enumerates(rows + [(key, blobs[key])], blobs - (left - {key}))
  {
    var more := rows + [(key, blobs[key])];
    forall i, j | 0 <= i < j < |more| ensures more[i].0 != more[j].0 {
      assert more[i] in rows;
    }
    forall k | k in blobs - (left - {key}) ensures (k, blobs[k]) in more {
      assert k == key || k in blobs - left;
      assert (key, blobs[key]) in more;
    }
  }

  lemma {:induction false} EnumeratedTotals(rows: seq<Row>, blobs: map<string, FileMetadata>)
    requires Enumerates(rows, blobs)
    ensures SizeOf(rows) == SumSizes(blobs) && |rows| == |blobs|
  {
    if rows == [] {
      assert blobs.Keys == {};
    } else {
      var key := rows[0].0;
      TailEnumerates(rows, blobs);
      SumWithout(blobs, key);
      CountWithout(blobs, key);
      hide Enumerates;
      EnumeratedTotals(rows[1..], blobs - {key});
    }
  }

  lemma TailEnumerates(rows: seq<Row>, blobs: map<string, FileMetadata>)
    requires rows != [] && Enumerates(rows, blobs)
    ensures rows[0].0 in blobs && blobs[rows[0].0] == rows[0].1 && Enumerates(rows[1..], blobs - {rows[0].0})
  {
    var rest, key := rows[1..], rows[0].0;
    assert rows[0] in rows;
    forall i | 0 <= i < |rest| ensures rest[i] == rows[i + 1] && rest[i].0 != key {
    }
    forall k | k in blobs - {key} ensures (k, blobs[k]) in rest {
      var i :| 0 <= i < |rows| && rows[i] == (k, blobs[k]);
      assert rest[i - 1] == rows[i];
    }
  }

  // ----- the sweep -----

  predicate Expires(m: FileMetadata, p: Policy, now: u64) {
    ExpirationReason(m, p, now).Some?
  }

  /** What the expiry phase leaves. */
  function Unexpired(blobs: map<string, FileMetadata>, p: Policy, now: u64,
                     deletable: string -> bool): map<string, FileMetadata>
  {
    map k | k in blobs && !(Expires(blobs[k], p, now) && deletable(k)) :: blobs[k]
  }

  /** The rows a phase sets out to delete and succeeds with. */
  function ExpiryChoice(p: Policy, now: u64, deletable: string -> bool): Row -> bool {
    (r: Row) => Expires(r.1, p, now) && deletable(r.0)
  }

  function CapacityChoice(deletable: string -> bool): Row -> bool {
    (r: Row) => deletable(r.0)
  }

  function Deleted(rows: seq<Row>, choice: Row -> bool): set<string> {
    set r | r in rows && choice(r) :: r.0
  }

  /** A removal of exactly the selected entry; it may fail, and then changes nothing. */
  method DeleteCleanupCandidate(index: Catalogue, sha256: string, metadata: FileMetadata, deletable: string -> bool)
    returns (ok: bool)
    requires Valid(index.State()) && sha256 in index.blobs && index.blobs[sha256] == metadata
    modifies index
    ensures Valid(index.State()) && ok == deletable(sha256)
    ensures index.blobs == if ok then old(index.blobs) - {sha256} else old(index.blobs)
  {
    ok := deletable(sha256);
    if ok {
      ghost var before := index.State();
      var matches := index.RemoveIfLocationMatches(sha256, metadata.location);
      RemoveKeepsValid(before, sha256);
      hide Valid;
      ok := matches;
    }
  }

  method ExpireEntries(index: Catalogue, p: Policy, now: u64, deletable: string -> bool)
    requires Valid(index.State())
    modifies index
    ensures Valid(index.State()) && index.blobs == Unexpired(old(index.blobs), p, now, deletable)
  {
    hide Valid, Expires;
    ghost var before := index.blobs;
    ghost var choice := ExpiryChoice(p, now, deletable);
    var rows := Snapshot(index.blobs);
    assert Deleted(rows[..0], choice) == {} && before - {} == before;
    for i := 0 to |rows|
      invariant Valid(index.State()) && index.blobs == before - Deleted(rows[..i], choice)
    {
      var (sha256, metadata) := rows[i];
      NextRow(rows, before, i, choice);
      hide Enumerates, Deleted;
      if Expires(metadata, p, now) {
        var _ := DeleteCleanupCandidate(index, sha256, metadata, deletable);
      }
    }
    assert rows[..|rows|] == rows;
    AllRowsChosen(rows, before, p, now, deletable);
  }

  lemma AllRowsChosen(rows: seq<Row>, blobs: map<string, FileMetadata>, p: Policy, now: u64, deletable: string -> bool)
    requires Enumerates(rows, blobs)
    ensures blobs - Deleted(rows, ExpiryChoice(p, now, deletable)) == Unexpired(blobs, p, now, deletable)
  {
    hide Expires;
    var choice := ExpiryChoice(p, now, deletable);
    forall k | k in blobs ensures k in Deleted(rows, choice) <==> Expires(blobs[k], p, now) && deletable(k) {
      assert (k, blobs[k]) in rows;
    }
  }

  lemma NextRow(rows: seq<Row>, blobs: map<string, FileMetadata>, i: nat, choice: Row -> bool)
    requires Enumerates(rows, blobs) && i < |rows|
    ensures var (key, metadata) := rows[i];
            && key in blobs && blobs[key] == metadata && key !in Deleted(rows[..i], choice)
            && blobs - Deleted(rows[..i + 1], choice) ==
               if choice(rows[i]) then blobs - Deleted(rows[..i], choice) - {key}
                 else blobs - Deleted(rows[..i], choice)
  {
    assert rows[i] in rows;
    assert rows[..i + 1] == rows[..i] + [rows[i]];
    assert Deleted(rows[..i + 1], choice) == if choice(rows[i]) then Deleted(rows[..i], choice) + {rows[i].0}
           else Deleted(rows[..i], choice);
  }

  /** The saturating sum of a snapshot. */
  function FoldSize(sum: u64, rows: seq<Row>): u64
    decreases |rows|
  {
    if rows == [] then sum else FoldSize(SaturatingAdd(sum, rows[0].1.size), rows[1..])
  }

  lemma {:induction false} FoldIsSize(sum: u64, rows: seq<Row>)
    ensures sum + SizeOf(rows) < U64_LIMIT ==> FoldSize(sum, rows) == sum + SizeOf(rows)
    decreases |rows|
  {
    if rows != [] {
      FoldIsSize(SaturatingAdd(sum, rows[0].1.size), rows[1..]);
    }
  }

  lemma SumFits(e: Entries)
    requires Valid(e)
    ensures SumSizes(e.blobs) < U64_LIMIT
  {
  }

  lemma {:induction false} DistinctOnce(rows: seq<Row>, r: Row)
    requires forall i, j :: 0 <= i < j < |rows| ==> rows[i].0 != rows[j].0
    ensures multiset(rows)[r] <= 1
  {
    if rows != [] {
      DistinctOnce(rows[1..], r);
      assert rows == [rows[0]] + rows[1..];
      if r == rows[0] {
        assert r !in rows[1..] by {
          assert forall j :: 0 <= j < |rows[1..]| ==> rows[1..][j] == rows[j + 1];
        }
        assert r !in multiset(rows[1..]);
      }
    }
  }

  lemma TwiceIsTwo(rows: seq<Row>, i: nat, j: nat)
    requires i < j < |rows| && rows[i] == rows[j]
    ensures multiset(rows)[rows[i]] >= 2
  {
    assert rows == rows[..j] + [rows[j]] + rows[j + 1..];
    assert rows[..j][i] in multiset(rows[..j]);
  }

  lemma ReorderedIsDistinct(order: seq<Row>, rows: seq<Row>, i: nat, j: nat)
    requires multiset(order) == multiset(rows) && i < j < |order|
    requires forall a, b :: 0 <= a < b < |rows| ==> rows[a].0 != rows[b].0
    ensures order[i].0 != order[j].0
  {
    SameElements(order, rows);
    if order[i] == order[j] {
      TwiceIsTwo(order, i, j);
    }
    DistinctOnce(rows, order[i]);
    assert order[i] in rows && order[j] in rows;
  }

  lemma DistinctRows(rows: seq<Row>, blobs: map<string, FileMetadata>)
    requires Enumerates(rows, blobs)
    ensures forall i, j :: 0 <= i < j < |rows| ==> rows[i].0 != rows[j].0
  {
  }

  lemma SameRowsEnumerate(order: seq<Row>, rows: seq<Row>, blobs: map<string, FileMetadata>)
    requires Enumerates(rows, blobs) && (forall r :: r in order <==> r in rows)
    requires forall i, j :: 0 <= i < j < |order| ==> order[i].0 != order[j].0
    ensures Enumerates(order, blobs)
  {
  }

  /** Reordering a snapshot, the eviction order still lists each entry once. */
  lemma OrderEnumerates(rows: seq<Row>, blobs: map<string, FileMetadata>)
    requires Enumerates(rows, blobs)
    ensures Enumerates(CapacityEvictionOrder(rows), blobs) && |CapacityEvictionOrder(rows)| == |rows|
  {
    hide Enumerates, CapacityEvictionOrder, GoesFirst;
    var order := CapacityEvictionOrder(rows);
    EvictionOrderIsSorted(rows);
    SameElements(order, rows);
    forall r: Row ensures r in order <==> r in rows {
      assert r in multiset(order) <==> r in multiset(rows);
    }
    DistinctRows(rows, blobs);
    forall i, j | 0 <= i < j < |order| ensures order[i].0 != order[j].0 {
      ReorderedIsDistinct(order, rows, i, j);
    }
    SameRowsEnumerate(order, rows, blobs);
    assert |multiset(order)| == |multiset(rows)|;
  }

  lemma TriedUnfolds(p: Policy, order: seq<Row>, size: nat, files: nat, deletable: string -> bool)
    requires order != [] && !Within(p, size, files)
    ensures Tried(p, order, size, files, deletable) ==
            if deletable(order[0].0)
              then 1 + Tried(p, order[1..], SaturatingSub(size, order[0].1.size), SaturatingSub(files, 1), deletable)
            else 1 + Tried(p, order[1..], size, files, deletable)
  {
  }

  lemma TriedStops(p: Policy, order: seq<Row>, size: nat, files: nat, deletable: string -> bool)
    requires order == [] || Within(p, size, files)
    ensures Tried(p, order, size, files, deletable) == 0
  {
  }

  lemma CountWithout(blobs: map<string, FileMetadata>, key: string)
    requires key in blobs
    ensures |blobs - {key}| == |blobs| - 1
  {
    assert (blobs - {key}).Keys == blobs.Keys - {key};
  }

  /** What is left when the first `i` candidates have been gone through. */
  function LeftAfter(before: map<string, FileMetadata>, order: seq<Row>, i: nat,
                     deletable: string -> bool): map<string, FileMetadata>
    requires i <= |order|
  {
    before - Deleted(order[..i], CapacityChoice(deletable))
  }

  /** The running totals are those of what is left, and the count of candidates is on its way. */
  ghost predicate OnTheWay(p: Policy, before: map<string, FileMetadata>, order: seq<Row>, i: nat, size: nat, files: nat,
                           deletable: string -> bool, total: nat)
  {
    && i <= |order|
    && var left := LeftAfter(before, order, i, deletable);
       size == SumSizes(left) && files == |left| && total == i + Tried(p, order[i..], size, files, deletable)
  }

  lemma WayBegins(p: Policy, before: map<string, FileMetadata>, order: seq<Row>, deletable: string -> bool)
    ensures OnTheWay(p, before, order, 0, SumSizes(before), |before|, deletable,
                     Tried(p, order, SumSizes(before), |before|, deletable))
    ensures LeftAfter(before, order, 0, deletable) == before
  {
    assert order[0..] == order && Deleted(order[..0], CapacityChoice(deletable)) == {};
    assert before - {} == before;
  }

  lemma WayEnds(p: Policy, before: map<string, FileMetadata>, order: seq<Row>, i: nat, size: nat, files: nat,
                deletable: string -> bool, total: nat)
    requires OnTheWay(p, before, order, i, size, files, deletable, total)
    requires i == |order| || Within(p, size, files)
    ensures total == i
  {
    TriedStops(p, order[i..], size, files, deletable);
  }

  /** The entry of the next candidate is still there, and what its deletion leaves. */
  lemma NextCandidate(before: map<string, FileMetadata>, order: seq<Row>, i: nat, deletable: string -> bool)
    requires Enumerates(order, before) && i < |order|
    ensures var (key, metadata) := order[i]; var left := LeftAfter(before, order, i, deletable);
            && key in left && left[key] == metadata
            && LeftAfter(before, order, i + 1, deletable) == if deletable(key) then left - {key} else left
  {
    NextRow(order, before, i, CapacityChoice(deletable));
    hide Enumerates, Deleted;
  }

  lemma LessOne(blobs: map<string, FileMetadata>, key: string)
    requires key in blobs
    ensures SumSizes(blobs - {key}) == SaturatingSub(SumSizes(blobs), blobs[key].size)
    ensures |blobs - {key}| == SaturatingSub(|blobs|, 1)
  {
    SumWithout(blobs, key);
    CountWithout(blobs, key);
    hide SumSizes;
  }

  lemma CandidateStep(p: Policy, before: map<string, FileMetadata>, order: seq<Row>, i: nat, size: nat, files: nat,
                      deletable: string -> bool, total: nat)
    requires Enumerates(order, before) && i < |order| && !Within(p, size, files)
    requires OnTheWay(p, before, order, i, size, files, deletable, total)
    ensures var (key, metadata) := order[i];
            if deletable(key)
            then OnTheWay(p, before, order, i + 1, SaturatingSub(size, metadata.size), SaturatingSub(files, 1),
                          deletable, total)
            else OnTheWay(p, before, order, i + 1, size, files, deletable, total)
  {
    hide Enumerates, Within, Tried, SumSizes, LeftAfter, SaturatingSub;
    NextCandidate(before, order, i, deletable);
    TriedUnfolds(p, order[i..], size, files, deletable);
    assert order[i..][1..] == order[i + 1..] && order[i..][0] == order[i];
    if deletable(order[i].0) {
      LessOne(LeftAfter(before, order, i, deletable), order[i].0);
    }
  }

  /** Try to delete candidate `i`. */
  method TryCandidate(index: Catalogue, order: seq<Row>, i: nat, ghost before: map<string, FileMetadata>,
                      deletable: string -> bool)
    returns (ok: bool)
    requires i < |order| && Enumerates(order, before)
    requires Valid(index.State()) && index.blobs == LeftAfter(before, order, i, deletable)
    modifies index
    ensures ok == deletable(order[i].0)
    ensures Valid(index.State()) && index.blobs == LeftAfter(before, order, i + 1, deletable)
  {
    hide *;
    NextCandidate(before, order, i, deletable);
    ok := DeleteCleanupCandidate(index, order[i].0, order[i].1, deletable);
  }

  /** Go through the candidates until the running totals meet the limits. */
  method EvictInOrder(index: Catalogue, p: Policy, order: seq<Row>, size: u64, files: nat, deletable: string -> bool)
    returns (ghost tried: nat)
    requires Valid(index.State()) && Enumerates(order, index.blobs) && size == SumSizes(index.blobs)
             && files == |index.blobs|
    modifies index
    ensures Valid(index.State()) && tried == Tried(p, order, size, files, deletable)
    ensures tried <= |order| && index.blobs == LeftAfter(old(index.blobs), order, tried, deletable)
    ensures Within(p, SumSizes(index.blobs), |index.blobs|) || tried == |order|
  {
    hide *;
    ghost var before := index.blobs;
    ghost var total := Tried(p, order, size, files, deletable);
    var totalSize, totalFiles := size, files;
    WayBegins(p, before, order, deletable);
    for i := 0 to |order|
      invariant Valid(index.State()) && index.blobs == LeftAfter(before, order, i, deletable)
      invariant OnTheWay(p, before, order, i, totalSize, totalFiles, deletable, total)
    {
      if Within(p, totalSize, totalFiles) {
        WayEnds(p, before, order, i, totalSize, totalFiles, deletable, total);
        TotalsAreTrue(p, before, order, i, totalSize, totalFiles, deletable, total);
        tried := i;
        return;
      }
      CandidateStep(p, before, order, i, totalSize, totalFiles, deletable, total);
      var ok := TryCandidate(index, order, i, before, deletable);
      if ok {
        totalSize := SaturatingSub(totalSize, order[i].1.size);
        totalFiles := SaturatingSub(totalFiles, 1);
      }
    }
    WayEnds(p, before, order, |order|, totalSize, totalFiles, deletable, total);
    tried := |order|;
  }

  lemma TotalsAreTrue(p: Policy, before: map<string, FileMetadata>, order: seq<Row>, i: nat, size: nat, files: nat,
                      deletable: string -> bool, total: nat)
    requires OnTheWay(p, before, order, i, size, files, deletable, total)
    ensures size == SumSizes(LeftAfter(before, order, i, deletable))
            && files == |LeftAfter(before, order, i, deletable)|
  {
  }

  /** The capacity phase. `tried` candidates of the eviction order are gone through, the fewest for
      which the running totals meet the limits; those totals are the true ones throughout. */
  method EvictForCapacity(index: Catalogue, p: Policy, deletable: string -> bool)
    returns (ghost rows: seq<Row>, ghost tried: nat)
    requires Valid(index.State())
    modifies index
    ensures Valid(index.State()) && Enumerates(rows, old(index.blobs))
    ensures tried == Tried(p, CapacityEvictionOrder(rows), SumSizes(old(index.blobs)), |old(index.blobs)|, deletable)
    ensures index.blobs == old(index.blobs) - Deleted(CapacityEvictionOrder(rows)[..tried], CapacityChoice(deletable))
    ensures Within(p, SumSizes(index.blobs), |index.blobs|) || tried == |CapacityEvictionOrder(rows)|
  {
    SumFits(index.State());
    hide Valid, CapacityEvictionOrder, SumSizes, Within, Tried, FoldSize, SizeOf, Enumerates, Deleted;
    var remaining := Snapshot(index.blobs);
    rows := remaining;
    var order := CapacityEvictionOrder(remaining);
    OrderEnumerates(remaining, index.blobs);
    EnumeratedTotals(remaining, index.blobs);
    FoldIsSize(0, remaining);
    tried := EvictInOrder(index, p, order, FoldSize(0, remaining), |remaining|, deletable);
  }

  /** The whole sweep. No entry past its deadline is left unless its deletion failed, and when the
      capacity deletions succeed both limits hold and no shorter prefix of the eviction order would
      have sufficed. Whatever fails, what is gone was past its deadline or a capacity victim; an entry
      whose deletion failed as expired may still go as a victim. */
  method EnforceStorageLimits(index: Catalogue, p: Policy, now: u64, expiryOk: string -> bool,
                              capacityOk: string -> bool)
    returns (ghost rows: seq<Row>, ghost tried: nat)
    requires Valid(index.State())
    modifies index
    ensures Valid(index.State()) && Enumerates(rows, Unexpired(old(index.blobs), p, now, expiryOk))
    ensures tried <= |CapacityEvictionOrder(rows)|
    ensures index.blobs == Unexpired(old(index.blobs), p, now, expiryOk) - Deleted(CapacityEvictionOrder(rows)[..tried],
            CapacityChoice(capacityOk))
    ensures forall k :: k in index.blobs && expiryOk(k) ==> !Expires(index.blobs[k], p, now)
    ensures Within(p, SumSizes(index.blobs), |index.blobs|) || tried == |CapacityEvictionOrder(rows)|
    ensures (forall k :: capacityOk(k)) ==>
              && (p.maxTotalSize > 0 ==> SumSizes(index.blobs) <= p.maxTotalSize)
              && (p.maxTotalFiles > 0 ==> |index.blobs| <= p.maxTotalFiles)
              && Suffices(p, CapacityEvictionOrder(rows), tried)
              && forall j :: 0 <= j < tried ==> !Suffices(p, CapacityEvictionOrder(rows), j)
  {
    ExpireEntries(index, p, now, expiryOk);
    ghost var unexpired := index.blobs;
    assert forall k :: k in unexpired && expiryOk(k) ==> !Expires(unexpired[k], p, now);
    rows, tried := EvictForCapacity(index, p, capacityOk);
    if forall k :: capacityOk(k) {
      CapacityMet(rows, unexpired, p, tried, capacityOk);
    }
  }

  lemma CapacityMet(rows: seq<Row>, blobs: map<string, FileMetadata>, p: Policy, tried: nat, deletable: string -> bool)
    requires Enumerates(rows, blobs) && forall k :: deletable(k)
    requires tried == Tried(p, CapacityEvictionOrder(rows), SumSizes(blobs), |blobs|, deletable)
    ensures var order := CapacityEvictionOrder(rows);
            var left := blobs - Deleted(order[..tried], CapacityChoice(deletable));
            && Within(p, SumSizes(left), |left|) && Suffices(p, order, tried) && forall j :: 0 <= j < tried ==>
              !Suffices(p, order, j)
  {
    var order := CapacityEvictionOrder(rows);
    OrderEnumerates(rows, blobs);
    EnumeratedTotals(order, blobs);
    ShortestSufficientPrefix(p, order, deletable);
    RestEnumerates(order, blobs, tried, CapacityChoice(deletable));
    EnumeratedTotals(order[tried..], blobs - Deleted(order[..tried], CapacityChoice(deletable)));
  }

  /** After deleting a prefix of a listing, the rest of it lists what is left. */
  lemma RestEnumerates(order: seq<Row>, blobs: map<string, FileMetadata>, k: nat, choice: Row -> bool)
    requires Enumerates(order, blobs) && k <= |order| && forall r :: choice(r)
    ensures Enumerates(order[k..], blobs - Deleted(order[..k], choice))
  {
    var gone := Deleted(order[..k], choice);
    forall r | r in order[k..] ensures r.0 !in gone && r in order {
    }
    forall key | key in blobs && key !in gone ensures (key, blobs[key]) in order[k..] {
      assert (key, blobs[key]) in order;
      assert order == order[..k] + order[k..];
      assert (key, blobs[key]) in order[..k] ==> key in gone;
    }
  }

  /** Capacity never takes an upload while a cached copy is left, nor a younger blob before an older
      one of its kind. */
  lemma VictimsGoInOrder(rows: seq<Row>, k: nat, victim: Row, survivor: Row)
    requires k <= |CapacityEvictionOrder(rows)|
    requires victim in CapacityEvictionOrder(rows)[..k] && survivor in CapacityEvictionOrder(rows)[k..]
    ensures GoesFirst(victim, survivor)
  {
    var order := CapacityEvictionOrder(rows);
    EvictionOrderIsSorted(rows);
    hide CapacityEvictionOrder, GoesFirst;
    var i :| 0 <= i < k && order[..k][i] == victim;
    var j :| 0 <= j < |order| - k && order[k..][j] == survivor;
    assert order[i] == victim && order[k + j] == survivor;
  }
}

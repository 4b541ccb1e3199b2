/** Byte ranges of a resumable upload, and when a set of them tiles the whole upload. */
module Tiling {
  import opened Prelude
  import opened Sorting

  type Path = string

  datatype ChunkInfo = ChunkInfo(offset: u64, length: u64, path: Path)

  function EndOf(c: ChunkInfo): nat { c.offset + c.length }

  function SumLengths(chunks: seq<ChunkInfo>): nat {
    if chunks == [] then 0 else chunks[0].length + SumLengths(chunks[1..])
  }

  ghost predicate Apart(c: ChunkInfo, d: ChunkInfo) {
    EndOf(c) <= d.offset || EndOf(d) <= c.offset
  }

  /** What an admitted chunk satisfies on its own: it is not empty and ends inside the upload. */
  ghost predicate Fits(c: ChunkInfo, total: nat) {
    0 < c.length && EndOf(c) <= total
  }

  /** Non-empty, inside `[0, total)` and pairwise non-overlapping. */
  ghost predicate Packed(chunks: seq<ChunkInfo>, total: nat) {
    && (forall i :: 0 <= i < |chunks| ==> Fits(chunks[i], total))
    && (forall i, j :: 0 <= i < j < |chunks| ==> Apart(chunks[i], chunks[j]))
  }

  const BY_OFFSET: ChunkInfo -> int := (c: ChunkInfo) => c.offset

  function InOffsetOrder(chunks: seq<ChunkInfo>): seq<ChunkInfo> {
    SortBy(chunks, BY_OFFSET)
  }

  /** Laid end to end in the given order, the chunks run from `lo` exactly to `hi`. */
  predicate Tiles(chunks: seq<ChunkInfo>, lo: nat, hi: nat) {
    if chunks == [] then lo == hi
    else chunks[0].offset == lo && Tiles(chunks[1..], EndOf(chunks[0]), hi)
  }

  lemma {:induction false} SumAppend(a: seq<ChunkInfo>, b: seq<ChunkInfo>)
    ensures SumLengths(a + b) == SumLengths(a) + SumLengths(b)
  {
    if a == [] {
      assert a + b == b;
    } else {
      SumAppend(a[1..], b);
      assert (a + b)[1..] == a[1..] + b;
    }
  }

  lemma {:induction false} SumOfInsert(c: ChunkInfo, chunks: seq<ChunkInfo>)
    ensures SumLengths(InsertBy(c, chunks, BY_OFFSET)) == c.length + SumLengths(chunks)
  {
    var r := InsertBy(c, chunks, BY_OFFSET);
    if chunks == [] || BY_OFFSET(c) <= BY_OFFSET(chunks[0]) {
      assert r[1..] == chunks;
    } else {
      SumOfInsert(c, chunks[1..]);
      assert r[1..] == InsertBy(c, chunks[1..], BY_OFFSET);
    }
  }

  lemma {:induction false} SumOfSorted(chunks: seq<ChunkInfo>)
    ensures SumLengths(InOffsetOrder(chunks)) == SumLengths(chunks)
  {
    if chunks != [] {
      SumOfSorted(chunks[1..]);
      SumOfInsert(chunks[0], InOffsetOrder(chunks[1..]));
    }
  }

  /** Packed chunks have distinct offsets, so sorting leaves them strictly increasing and apart. */
  ghost predicate Ascending(chunks: seq<ChunkInfo>, lo: nat, hi: nat) {
    if chunks == [] then lo <= hi
    else lo <= chunks[0].offset && 0 < chunks[0].length && Ascending(chunks[1..], EndOf(chunks[0]), hi)
  }

  lemma {:induction false} InsertAscending(c: ChunkInfo, chunks: seq<ChunkInfo>, lo: nat, hi: nat)
    requires Ascending(chunks, lo, hi) && lo <= c.offset && Fits(c, hi)
    requires forall d :: d in chunks ==> Apart(c, d)
    ensures Ascending(InsertBy(c, chunks, BY_OFFSET), lo, hi)
  {
    var r := InsertBy(c, chunks, BY_OFFSET);
    if chunks == [] {
      assert r[1..] == [];
    } else if c.offset <= chunks[0].offset {
      assert chunks[0] in chunks;
      assert r[1..] == chunks;
    } else {
      assert chunks[0] in chunks;
      InsertAscending(c, chunks[1..], EndOf(chunks[0]), hi);
      assert r[1..] == InsertBy(c, chunks[1..], BY_OFFSET);
    }
  }

  lemma {:induction false} PackedSortsAscending(chunks: seq<ChunkInfo>, total: nat)
    requires Packed(chunks, total)
    ensures Ascending(InOffsetOrder(chunks), 0, total)
  {
    if chunks != [] {
      var rest := chunks[1..];
      PackedSortsAscending(rest, total);
      SortIsSortedPermutation(rest, BY_OFFSET);
      SameElements(InOffsetOrder(rest), rest);
      forall d | d in InOffsetOrder(rest) ensures Apart(chunks[0], d) {
        assert d in rest;
      }
      InsertAscending(chunks[0], InOffsetOrder(rest), 0, total);
    }
  }

  lemma {:induction false} AscendingSum(chunks: seq<ChunkInfo>, lo: nat, hi: nat)
    requires Ascending(chunks, lo, hi)
    ensures lo + SumLengths(chunks) <= hi
    ensures lo + SumLengths(chunks) == hi <==> Tiles(chunks, lo, hi)
  {
    if chunks != [] {
      AscendingSum(chunks[1..], EndOf(chunks[0]), hi);
      TilesSum(chunks, lo, hi);
    }
  }

  lemma {:induction false} TilesSum(chunks: seq<ChunkInfo>, lo: nat, hi: nat)
    ensures Tiles(chunks, lo, hi) ==> lo + SumLengths(chunks) == hi
  {
    if chunks != [] {
      TilesSum(chunks[1..], EndOf(chunks[0]), hi);
    }
  }

  /** The packing theorem. Packed chunks never sum to more than the upload, and they sum to
      exactly its length just when, taken in offset order, they tile it without gap or overlap. */
  lemma SumDecidesTiling(chunks: seq<ChunkInfo>, total: nat)
    requires Packed(chunks, total)
    ensures SumLengths(chunks) <= total
    ensures SumLengths(chunks) == total <==> Tiles(InOffsetOrder(chunks), 0, total)
  {
    PackedSortsAscending(chunks, total);
    AscendingSum(InOffsetOrder(chunks), 0, total);
    SumOfSorted(chunks);
  }

  lemma {:induction false} TilesCover(chunks: seq<ChunkInfo>, lo: nat, hi: nat, p: nat) returns (c: ChunkInfo)
    requires Tiles(chunks, lo, hi) && lo <= p < hi
    ensures c in chunks && c.offset <= p < EndOf(c)
  {
    if p < EndOf(chunks[0]) {
      c := chunks[0];
    } else {
      c := TilesCover(chunks[1..], EndOf(chunks[0]), hi, p);
    }
  }

  ghost predicate Covers(c: ChunkInfo, p: nat) {
    c.offset <= p < EndOf(c)
  }

  /** Every byte position of a completed upload lies in exactly one received chunk. */
  lemma CompleteCoversEveryByteOnce(chunks: seq<ChunkInfo>, total: nat, p: nat)
    requires Packed(chunks, total) && SumLengths(chunks) == total && p < total
    ensures exists i :: 0 <= i < |chunks| && Covers(chunks[i], p)
    ensures forall i, j :: 0 <= i < j < |chunks| ==> !(Covers(chunks[i], p) && Covers(chunks[j], p))
  {
    SumDecidesTiling(chunks, total);
    var c := TilesCover(InOffsetOrder(chunks), 0, total, p);
    SortIsSortedPermutation(chunks, BY_OFFSET);
    SameElements(InOffsetOrder(chunks), chunks);
    assert c in chunks && Covers(c, p);
    forall i, j | 0 <= i < j < |chunks| ensures !(Covers(chunks[i], p) && Covers(chunks[j], p)) {
      assert Apart(chunks[i], chunks[j]);
    }
  }

  lemma {:induction false} AscendingIsStrict(chunks: seq<ChunkInfo>, lo: nat, hi: nat)
    requires Ascending(chunks, lo, hi)
    ensures StrictlySortedBy(chunks, BY_OFFSET)
    ensures forall c :: c in chunks ==> lo <= c.offset
  {
    if chunks != [] {
      AscendingIsStrict(chunks[1..], EndOf(chunks[0]), hi);
      SplitFirst(chunks);
    }
  }

  /** The offset order of packed chunks does not depend on the order they arrived in. */
  lemma ArrivalOrderIrrelevant(a: seq<ChunkInfo>, b: seq<ChunkInfo>, total: nat)
    requires Packed(a, total) && Packed(b, total)
    requires multiset(a) == multiset(b)
    ensures InOffsetOrder(a) == InOffsetOrder(b)
  {
    PackedSortsAscending(a, total);
    PackedSortsAscending(b, total);
    AscendingIsStrict(InOffsetOrder(a), 0, total);
    AscendingIsStrict(InOffsetOrder(b), 0, total);
    SortIsSortedPermutation(a, BY_OFFSET);
    SortIsSortedPermutation(b, BY_OFFSET);
    StrictlySortedUnique(InOffsetOrder(a), InOffsetOrder(b), BY_OFFSET);
  }
}

/** The shared index object: mutations under its write lock, and reads of one consistent state. */
module BlobCatalogue {
  import opened Prelude
  import opened FileModel
  import opened BlobIndex
  import opened BlobPages

  datatype IndexStats = IndexStats(count: nat, totalBytes: u64, generation: u64)

  predicate IsHexDigit(c: char) {
    '0' <= c <= '9' || 'a' <= c <= 'f' || 'A' <= c <= 'F'
  }

  predicate IsHashKey(key: string) {
    |key| >= 64 && forall i :: 0 <= i < 64 ==> IsHexDigit(key[i])
  }

  /** `keys` are the 64-character prefixes of `from`, which lists the well-formed keys once each. Keys
      that agree on the prefix but not behind it make it appear more than once. */
  ghost predicate Prefixes(keys: seq<string>, from: seq<string>, blobs: map<string, FileMetadata>) {
    && |keys| == |from|
    && (forall k :: k in from <==> k in blobs && StartsLikeHash(k))
    && (forall i, j :: 0 <= i < j < |from| ==> from[i] != from[j])
    && (forall i :: 0 <= i < |from| ==> from[i] in blobs && StartsLikeHash(from[i]) && keys[i] == from[i][..64])
  }

  /** At least 64 characters, the first 64 of them hexadecimal digits in either case. */
  ghost predicate StartsLikeHash(key: string) {
    |key| >= 64 && forall i :: 0 <= i < 64 ==> key[i] in "0123456789abcdefABCDEF"
  }

  lemma HashKeysStartLikeHashes(key: string)
    ensures IsHashKey(key) <==> StartsLikeHash(key)
  {
    forall c: char ensures IsHexDigit(c) <==> c in "0123456789abcdefABCDEF" {
    }
  }

  /** The list of hashes that a filter is built from, in some order. */
  ghost predicate IsHashKeyList(keys: seq<string>, blobs: map<string, FileMetadata>) {
    exists from :: Prefixes(keys, from, blobs)
  }

  class Catalogue {
    var blobs: map<string, FileMetadata>
    var totalBytes: u64
    var order: seq<OrderKey>
    var generation: u64

    function State(): Entries
      reads this
    {
      Entries(blobs, totalBytes, order, generation)
    }

    constructor ()
      ensures State() == NO_ENTRIES
    {
      blobs, totalBytes, order, generation := map[], 0, [], 0;
    }

    method Insert(key: string, metadata: FileMetadata) returns (previous: Option<FileMetadata>)
      modifies this
      ensures State() == InsertStep(old(State()), key, metadata)
      ensures blobs == old(blobs)[key := metadata] && generation == (old(generation) + 1) % 0x1_0000_0000_0000_0000
      ensures previous == if key in old(blobs) then Some(old(blobs)[key]) else None
      ensures old(Valid(State())) ==> (Valid(State()) <==> old(totalBytes) + metadata.size < U64_LIMIT)
    {
      ghost var before := State();
      totalBytes := Added(totalBytes, metadata.size);
      previous := if key in blobs then Some(blobs[key]) else None;
      blobs := blobs[key := metadata];
      if previous.Some? {
        totalBytes := SaturatingSub(totalBytes, previous.value.size);
        order := OrderRemove(KeyOf(key, previous.value), order);
      }
      order := OrderInsert(KeyOf(key, metadata), order);
      generation := Increment(generation);
      if Valid(before) {
        InsertKeepsValid(before, key, metadata);
      }
    }

    method Remove(key: string) returns (removed: Option<FileMetadata>)
      modifies this
      ensures State() == RemoveStep(old(State()), key)
      ensures blobs == old(blobs) - {key}
      ensures generation == if key in old(blobs) then (old(generation) + 1) % 0x1_0000_0000_0000_0000
                            else old(generation)
      ensures removed == if key in old(blobs) then Some(old(blobs)[key]) else None
      ensures old(Valid(State())) ==> Valid(State())
    {
      ghost var before := State();
      removed := if key in blobs then Some(blobs[key]) else None;
      blobs := blobs - {key};
      if removed.Some? {
        totalBytes := SaturatingSub(totalBytes, removed.value.size);
        order := OrderRemove(KeyOf(key, removed.value), order);
        generation := Increment(generation);
      }
      if Valid(before) {
        RemoveKeepsValid(before, key);
      }
      assert key !in before.blobs ==> blobs == before.blobs;
    }

    method Publish(key: string, metadata: FileMetadata) returns (result: PublishResult)
      modifies this
      ensures (State(), result) == PublishStep(old(State()), key, metadata)
      ensures metadata.origin == UpstreamCache && key in old(blobs) ==>
                result == Retained(old(blobs)[key]) && State() == old(State())
      ensures metadata.origin == Upload || key !in old(blobs) ==>
                && result == Published(if key in old(blobs) then Some(old(blobs)[key]) else None)
                && blobs == old(blobs)[key := metadata]
    {
      if metadata.origin == UpstreamCache && key in blobs {
        return Retained(blobs[key]);
      }
      var displaced := Insert(key, metadata);
      return Published(displaced);
    }

    method RemoveIfLocationMatches(key: string, location: FileLocation) returns (matches: bool)
      modifies this
      ensures State() == RemoveIfLocationMatchesStep(old(State()), key, location)
      ensures matches <==> key in old(blobs) && old(blobs)[key].location == location
      ensures blobs == if matches then old(blobs) - {key} else old(blobs)
    {
      matches := key in blobs && blobs[key].location == location;
      if matches {
        var _ := Remove(key);
      }
    }

    /** Replace the entire contents, e.g. after a scan of the file system. */
    method Replace(contents: map<string, FileMetadata>)
      modifies this
      ensures State() == ReplaceStep(old(State()), contents)
      ensures blobs == contents && generation == (old(generation) + 1) % 0x1_0000_0000_0000_0000
      ensures SumSizes(contents) < U64_LIMIT ==> Valid(State())
    {
      var total, newOrder := Rebuild(contents);
      OrderOfLists(contents);
      OrderIsDetermined(newOrder, OrderOf(contents));
      blobs, totalBytes, order := contents, total, newOrder;
      generation := Increment(generation);
    }

    method Stats() returns (stats: IndexStats)
      ensures stats.count == |blobs| && stats.generation == generation
      ensures Valid(State()) ==> stats.totalBytes == SumSizes(blobs)
    {
      stats := IndexStats(|blobs|, totalBytes, generation);
    }

    /** One page of the listing, by a scan of the order that skips up to the cursor. */
    method Page(since: u64, until: u64, author: Option<string>, cursor: Option<string>, limit: nat)
      returns (page: seq<(string, FileMetadata)>)
      requires Valid(State())
      ensures KeysOf(page) == PageOf(Select(order, blobs, Query(since, until, author)), cursor, limit)
      ensures forall p :: p in page ==> p.0 in blobs && p.1 == blobs[p.0]
      ensures IsPage(KeysOf(page), blobs, since, until, author, cursor, limit)
    {
      page := ScanPage(State(), Query(since, until, author), cursor, limit);
      PageIsDescribed(State(), since, until, author, cursor, limit);
    }

    /** The well-formed keys and the generation, read together. */
    method HashKeys() returns (keys: seq<string>, at: u64)
      ensures IsHashKeyList(keys, blobs) && at == generation
    {
      keys := CollectHashKeys(blobs);
      at := generation;
    }
  }

  /** The prefixes of the well-formed keys, in whatever order the map yields them. */
  method CollectHashKeys(blobs: map<string, FileMetadata>) returns (keys: seq<string>)
    ensures IsHashKeyList(keys, blobs)
  {
    keys := [];
    ghost var from := [];
    var left := blobs.Keys;
    while left != {}
      invariant left <= blobs.Keys && Prefixes(keys, from, blobs - left)
      decreases left
    {
      var key :| key in left;
      HashKeysStartLikeHashes(key);
      if IsHashKey(key) {
        keys, from := keys + [key[..64]], from + [key];
      }
      left := left - {key};
    }
    assert blobs - left == blobs;
  }

  /** The total and the order of a new map, entry by entry. */
  method Rebuild(contents: map<string, FileMetadata>) returns (total: u64, order: seq<OrderKey>)
    ensures total == SumSizes(contents) % U64_LIMIT && Ordered(order) && Lists(order, contents)
  {
    total, order := 0, [];
    var left := contents.Keys;
    ghost var sum: nat := 0;
    assert Only(contents, left) == contents;
    while left != {}
      invariant left <= contents.Keys
      invariant total == sum % U64_LIMIT && sum + SumSizes(Only(contents, left)) == SumSizes(contents)
      invariant Ordered(order) && Lists(order, contents - left)
      decreases left
    {
      hide SumSizes, Ordered, OrderInsert, Lists, Added, Only;
      var key :| key in left;
      CountOneMore(contents, left, key);
      WrappedSum(sum, contents[key].size);
      InsertKeepsOrder(KeyOf(key, contents[key]), order);
      ListOneMore(order, contents, left, key);
      total := Added(total, contents[key].size);
      order := OrderInsert(KeyOf(key, contents[key]), order);
      sum := sum + contents[key].size;
      left := left - {key};
    }
    assert contents - left == contents;
  }

  ghost function Only(contents: map<string, FileMetadata>, keys: set<string>): map<string, FileMetadata> {
    map k | k in contents && k in keys :: contents[k]
  }

  lemma CountOneMore(contents: map<string, FileMetadata>, left: set<string>, key: string)
    requires key in left && left <= contents.Keys
    ensures SumSizes(Only(contents, left)) == contents[key].size + SumSizes(Only(contents, left - {key}))
  {
    SumWithout(Only(contents, left), key);
    assert Only(contents, left) - {key} == Only(contents, left - {key});
  }

  lemma WrappedSum(sum: nat, size: u64)
    ensures Added(sum % U64_LIMIT, size) == (sum + size) % U64_LIMIT
  {
  }

  predicate IsInResult(e: Entries, q: Query, cursor: Option<string>) {
    cursor.Some? && cursor.value in e.blobs && Matches(q, e.blobs[cursor.value])
  }

  /** What the scan knows before it looks at `order`, a remainder of the whole order: the cursor is
      still ahead, or the page so far is the start of what follows it. */
  ghost predicate Progress(e: Entries, q: Query, cursor: Option<string>, order: seq<OrderKey>, afterCursor: bool,
                           page: seq<string>)
  {
    var keys, ahead := Select(e.order, e.blobs, q), Select(order, e.blobs, q);
    if afterCursor then Rest(keys, cursor) == page + ahead
    else cursor.Some? && cursor.value in ahead && page == [] && After(ahead, cursor.value) == Rest(keys, cursor)
  }

  lemma ScanStarts(e: Entries, q: Query, cursor: Option<string>)
    requires Valid(e)
    ensures Progress(e, q, cursor, e.order, !IsInResult(e, q, cursor), [])
  {
    SelectionIsTheCatalogue(e, q);
    hide Select;
    assert [] + Select(e.order, e.blobs, q) == Select(e.order, e.blobs, q);
  }

  lemma ScanSkips(e: Entries, q: Query, cursor: Option<string>, order: seq<OrderKey>)
    requires order != [] && Progress(e, q, cursor, order, false, [])
    ensures Progress(e, q, cursor, order[1..], order[0].1 == cursor.value, [])
  {
    hide Matches, Rest;
    if order[0].1 == cursor.value {
      CursorIsSelected(order, e.blobs, q, cursor.value);
      FilteredHeadIsCursor(order, e.blobs, q);
      hide Select, After;
      assert [] + Select(order[1..], e.blobs, q) == Select(order[1..], e.blobs, q);
    } else {
      SelectAfter(order, e.blobs, q, cursor.value);
    }
  }

  lemma CursorIsSelected(order: seq<OrderKey>, blobs: map<string, FileMetadata>, q: Query, cursor: string)
    requires order != [] && cursor in Select(order, blobs, q)
    ensures cursor in blobs && Matches(q, blobs[cursor])
  {
    SelectMembers(order, blobs, q);
  }

  lemma ScanTakes(e: Entries, q: Query, cursor: Option<string>, order: seq<OrderKey>, page: seq<string>)
    requires order != [] && Progress(e, q, cursor, order, true, page)
    ensures var taken := order[0].1 in e.blobs && Matches(q, e.blobs[order[0].1]);
            Progress(e, q, cursor, order[1..], true, if taken then page + [order[0].1] else page)
  {
    SelectHead(order, e.blobs, q);
    hide Select, Matches, Rest, After;
    var later := Select(order[1..], e.blobs, q);
    assert page + ([order[0].1] + later) == (page + [order[0].1]) + later;
  }

  lemma ScanEnds(e: Entries, q: Query, cursor: Option<string>, afterCursor: bool, page: seq<string>, limit: nat)
    requires Progress(e, q, cursor, [], afterCursor, page) && (limit > 0 ==> |page| < limit)
    ensures PageOf(Select(e.order, e.blobs, q), cursor, limit) == page
  {
    assert Select([], e.blobs, q) == [];
    assert page + [] == page;
  }

  /** One page of the listing, by a scan of the order that skips up to the cursor. */
  method ScanPage(e: Entries, q: Query, cursor: Option<string>, limit: nat) returns (page: seq<(string, FileMetadata)>)
    requires Valid(e)
    ensures KeysOf(page) == PageOf(Select(e.order, e.blobs, q), cursor, limit)
    ensures forall p :: p in page ==> p.0 in e.blobs && p.1 == e.blobs[p.0]
  {
    ScanStarts(e, q, cursor);
    var afterCursor := !IsInResult(e, q, cursor);
    page := [];
    assert e.order[0..] == e.order && KeysOf(page) == [];
    hide Select, Valid, PageOf, Progress, Rest, KeysOf;
    for i := 0 to |e.order|
      invariant Progress(e, q, cursor, e.order[i..], afterCursor, KeysOf(page))
      invariant !afterCursor ==> cursor.Some? && page == []
      invariant limit > 0 ==> |page| < limit
      invariant forall p :: p in page ==> p.0 in e.blobs && p.1 == e.blobs[p.0]
    {
      var sha256 := e.order[i].1;
      assert e.order[i..][0] == e.order[i] && e.order[i..][1..] == e.order[i + 1..];
      if !afterCursor {
        NoKeys();
        ScanSkips(e, q, cursor, e.order[i..]);
        afterCursor := cursor.value == sha256;
        continue;
      }
      ScanTakes(e, q, cursor, e.order[i..], KeysOf(page));
      if sha256 !in e.blobs || !Matches(q, e.blobs[sha256]) {
        continue;
      }
      KeysOfPush(page, (sha256, e.blobs[sha256]));
      page := page + [(sha256, e.blobs[sha256])];
      if |page| == limit {
        ScanStops(e, q, cursor, e.order[i + 1..], KeysOf(page));
        return;
      }
    }
    assert e.order[|e.order|..] == [];
    ScanEnds(e, q, cursor, afterCursor, KeysOf(page), limit);
  }

  lemma ScanStops(e: Entries, q: Query, cursor: Option<string>, order: seq<OrderKey>, page: seq<string>)
    requires Progress(e, q, cursor, order, true, page) && page != []
    ensures PageOf(Select(e.order, e.blobs, q), cursor, |page|) == page
  {
    hide Select;
    PageIsFull(Select(e.order, e.blobs, q), cursor, page, Select(order, e.blobs, q));
  }

  lemma NoKeys()
    ensures KeysOf([]) == []
  {
  }

  function KeysOf(page: seq<(string, FileMetadata)>): (keys: seq<string>)
    ensures |keys| == |page|
  {
    seq(|page|, i requires 0 <= i < |page| => page[i].0)
  }

  lemma KeysOfPush(page: seq<(string, FileMetadata)>, p: (string, FileMetadata))
    ensures KeysOf(page + [p]) == KeysOf(page) + [p.0]
  {
  }

  lemma ListOneMore(order: seq<OrderKey>, contents: map<string, FileMetadata>, left: set<string>, key: string)
    requires key in left && left <= contents.Keys && Lists(order, contents - left)
    ensures Lists(OrderInsert(KeyOf(key, contents[key]), order), contents - (left - {key}))
  {
    InsertMembers(KeyOf(key, contents[key]), order);
  }
}

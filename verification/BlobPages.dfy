/** Listing the catalogue in pages, each page resumed after the last key of the one before. */
module BlobPages {
  import opened Prelude
  import opened FileModel
  import opened BlobIndex

  datatype Query = Query(since: u64, until: u64, author: Option<string>)

  predicate Matches(q: Query, metadata: FileMetadata) {
    q.since <= metadata.createdAt <= q.until && (q.author.Some? ==> metadata.pubkey == q.author)
  }

  /** The keys of the matching entries, in listing order. */
  function Select(order: seq<OrderKey>, blobs: map<string, FileMetadata>, q: Query): seq<string> {
    if order == [] then []
    else
      var later := Select(order[1..], blobs, q);
      (if order[0].1 in blobs && Matches(q, blobs[order[0].1]) then [order[0].1] else []) + later
  }

  /** What follows the first occurrence of `cursor`. */
  function After(keys: seq<string>, cursor: string): seq<string> {
    if keys == [] then [] else if keys[0] == cursor then keys[1..] else After(keys[1..], cursor)
  }

  function Rest(keys: seq<string>, cursor: Option<string>): seq<string> {
    if cursor.Some? && cursor.value in keys then After(keys, cursor.value) else keys
  }

  function PageOf(keys: seq<string>, cursor: Option<string>, limit: nat): seq<string> {
    var rest := Rest(keys, cursor);
    if limit == 0 || |rest| <= limit then rest else rest[..limit]
  }

  // ----- the selection -----

  ghost predicate Distinct<T>(s: seq<T>) {
    forall i, j :: 0 <= i < j < |s| ==> s[i] != s[j]
  }

  ghost predicate NewestFirst(keys: seq<string>, blobs: map<string, FileMetadata>) {
    && (forall k :: k in keys ==> k in blobs)
    && (forall i, j :: 0 <= i < j < |keys| ==> Before(KeyOf(keys[i], blobs[keys[i]]), KeyOf(keys[j], blobs[keys[j]])))
  }

  lemma {:induction false} SelectMembers(order: seq<OrderKey>, blobs: map<string, FileMetadata>, q: Query)
    ensures forall k ::
              k in Select(order, blobs, q) <==> k in blobs && Matches(q, blobs[k]) && exists t :: (t, k) in order
  {
    if order != [] {
      SelectMembers(order[1..], blobs, q);
      forall k ensures k in Select(order, blobs, q)
        <==> k in blobs && Matches(q, blobs[k]) && exists t :: (t, k) in order {
        if t :| (t, k) in order {
          assert (t, k) == order[0] || (t, k) in order[1..];
        }
        if k == order[0].1 {
          assert (order[0].0, k) in order;
        }
      }
    }
  }

  lemma {:induction false} SelectIsSorted(order: seq<OrderKey>, blobs: map<string, FileMetadata>, q: Query)
    requires Ordered(order) && forall p :: p in order ==> p.1 in blobs && blobs[p.1].createdAt == p.0
    ensures NewestFirst(Select(order, blobs, q), blobs)
  {
    if order != [] {
      hide Before, Matches;
      var tail := Select(order[1..], blobs, q);
      SelectIsSorted(order[1..], blobs, q);
      SelectMembers(order[1..], blobs, q);
      var keys := Select(order, blobs, q);
      if keys != tail {
        assert keys == [order[0].1] + tail;
        forall j | 0 < j < |keys| ensures Before(KeyOf(keys[0], blobs[keys[0]]), KeyOf(keys[j], blobs[keys[j]])) {
          assert keys[j] in tail;
          var t :| (t, keys[j]) in order[1..];
          assert Before(order[0], (t, keys[j]));
        }
      } else {
        assert keys == tail;
      }
    }
  }

  /** The selection of a consistent catalogue: exactly the matching entries, each once, newest first
      and among equally old ones by descending hash. */
  lemma SelectionIsTheCatalogue(e: Entries, q: Query)
    requires Valid(e)
    ensures var keys := Select(e.order, e.blobs, q);
            && (forall k :: k in keys <==> k in e.blobs && Matches(q, e.blobs[k]))
            && NewestFirst(keys, e.blobs) && Distinct(keys)
  {
    var keys := Select(e.order, e.blobs, q);
    SelectMembers(e.order, e.blobs, q);
    SelectIsSorted(e.order, e.blobs, q);
    forall k | k in e.blobs ensures exists t :: (t, k) in e.order {
      assert (e.blobs[k].createdAt, k) in e.order;
    }
    forall i, j | 0 <= i < j < |keys| ensures keys[i] != keys[j] {
      BeforeIsStrict(KeyOf(keys[i], e.blobs[keys[i]]), KeyOf(keys[j], e.blobs[keys[j]]));
      BeforeIsStrict(KeyOf(keys[i], e.blobs[keys[i]]), KeyOf(keys[i], e.blobs[keys[i]]));
    }
  }

  // ----- what a page is -----

  /** `a` comes after `b` in the dictionary: at their first difference `a` has the greater character, or
      `a` goes on where `b` ends. */
  ghost predicate GreaterString(a: string, b: string) {
    exists n: nat :: n <= |a| && n <= |b| && a[..n] == b[..n] && n < |a| && (n == |b| || a[n] > b[n])
  }

  /** `j` is listed before `k`: it is newer, or as old with the greater hash. */
  ghost predicate Precedes(j: string, k: string, blobs: map<string, FileMetadata>) {
    j in blobs && k in blobs
    && (blobs[j].createdAt > blobs[k].createdAt
        || (blobs[j].createdAt == blobs[k].createdAt && GreaterString(j, k)))
  }

  ghost predicate InWindow(k: string, blobs: map<string, FileMetadata>, since: nat, until: nat,
                           author: Option<string>)
  {
    && k in blobs && since <= blobs[k].createdAt && blobs[k].createdAt <= until
    && (author.Some? ==> blobs[k].pubkey == author)
  }

  /** An entry the page may hold: inside the window, and after the cursor if the cursor is itself inside
      the window; any other cursor is ignored. */
  ghost predicate Wanted(k: string, blobs: map<string, FileMetadata>, since: nat, until: nat, author: Option<string>,
                         cursor: Option<string>)
  {
    && InWindow(k, blobs, since, until, author)
    && (cursor.Some? && InWindow(cursor.value, blobs, since, until, author) ==> Precedes(cursor.value, k, blobs))
  }

  /** The page holds wanted entries, newest first, and leaves one out only when it is full and the entry
      comes after its last. */
  ghost predicate IsPage(page: seq<string>, blobs: map<string, FileMetadata>, since: nat, until: nat,
                         author: Option<string>, cursor: Option<string>, limit: nat)
  {
    && (limit > 0 ==> |page| <= limit)
    && (forall i, j :: 0 <= i < j < |page| ==> Precedes(page[i], page[j], blobs))
    && (forall k :: k in page ==> Wanted(k, blobs, since, until, author, cursor))
    && (forall k :: Wanted(k, blobs, since, until, author, cursor) && k !in page ==>
          0 < limit == |page| && Precedes(page[limit - 1], k, blobs))
  }

  lemma {:induction false} StringLessIsGreater(a: string, b: string)
    ensures StringLess(b, a) <==> GreaterString(a, b)
  {
    if a != "" && b != "" {
      StringLessIsGreater(a[1..], b[1..]);
      if a[0] == b[0] && GreaterString(a[1..], b[1..]) {
        var n: nat :| n <= |a[1..]| && n <= |b[1..]| && a[1..][..n] == b[1..][..n] && n < |a[1..]|
                      && (n == |b[1..]| || a[1..][n] > b[1..][n]);
        assert a[..n + 1] == [a[0]] + a[1..][..n] && b[..n + 1] == [b[0]] + b[1..][..n];
      }
      assert a[..0] == b[..0];
      if GreaterString(a, b) {
        var n: nat :| n <= |a| && n <= |b| && a[..n] == b[..n] && n < |a| && (n == |b| || a[n] > b[n]);
        if n > 0 {
          assert a[0] == a[..n][0] == b[..n][0] == b[0];
          assert a[1..][..n - 1] == a[..n][1..] && b[1..][..n - 1] == b[..n][1..];
        }
      }
    } else if a != "" {
      assert a[..0] == b[..0];
    }
  }

  /** The sorting key of the index is this order. */
  lemma BeforeIsPrecedes(j: string, k: string, blobs: map<string, FileMetadata>)
    requires j in blobs && k in blobs
    ensures Before(KeyOf(j, blobs[j]), KeyOf(k, blobs[k])) <==> Precedes(j, k, blobs)
  {
    StringLessIsGreater(j, k);
  }

  lemma SortedPrecedes(keys: seq<string>, blobs: map<string, FileMetadata>)
    requires NewestFirst(keys, blobs)
    ensures forall i, j :: 0 <= i < j < |keys| ==> Precedes(keys[i], keys[j], blobs)
    ensures forall i, j :: 0 <= i <= j < |keys| ==> !Precedes(keys[j], keys[i], blobs)
  {
    forall i, j | 0 <= i <= j < |keys|
      ensures (i < j ==> Precedes(keys[i], keys[j], blobs)) && !Precedes(keys[j], keys[i], blobs)
    {
      BeforeIsPrecedes(keys[i], keys[j], blobs);
      BeforeIsPrecedes(keys[j], keys[i], blobs);
      BeforeIsStrict(KeyOf(keys[i], blobs[keys[i]]), KeyOf(keys[j], blobs[keys[j]]));
      hide Before, Precedes;
    }
  }

  /** What is left after the cursor is what the cursor precedes. */
  lemma RestIsWanted(keys: seq<string>, blobs: map<string, FileMetadata>, since: nat, until: nat,
                     author: Option<string>, cursor: Option<string>, k: string)
    requires NewestFirst(keys, blobs)
    requires forall x :: x in keys <==> InWindow(x, blobs, since, until, author)
    ensures k in Rest(keys, cursor) <==> Wanted(k, blobs, since, until, author, cursor)
  {
    hide NewestFirst, InWindow, Precedes, After;
    if cursor.Some? && cursor.value in keys {
      AfterIsPreceded(keys, blobs, cursor.value, k);
    }
  }

  lemma AfterIsPreceded(keys: seq<string>, blobs: map<string, FileMetadata>, cursor: string, k: string)
    requires NewestFirst(keys, blobs) && cursor in keys
    ensures k in After(keys, cursor) <==> k in keys && Precedes(cursor, k, blobs)
  {
    SortedPrecedes(keys, blobs);
    AfterSplits(keys, cursor);
    hide *;
    var before :| keys == before + [cursor] + After(keys, cursor);
    SplitAtCursor(keys, before, cursor, After(keys, cursor), blobs, k);
  }

  lemma SplitAtCursor(keys: seq<string>, before: seq<string>, cursor: string, rest: seq<string>,
                      blobs: map<string, FileMetadata>, k: string)
    requires keys == before + [cursor] + rest
    requires forall i, j :: 0 <= i < j < |keys| ==> Precedes(keys[i], keys[j], blobs)
    requires forall i, j :: 0 <= i <= j < |keys| ==> !Precedes(keys[j], keys[i], blobs)
    ensures k in rest <==> k in keys && Precedes(cursor, k, blobs)
  {
    hide Precedes;
    var n := |before|;
    assert keys[n] == cursor;
    forall i | n < i < |keys| ensures keys[i] in rest {
      assert keys[i] == rest[i - n - 1];
    }
    if k in rest {
      var i :| 0 <= i < |rest| && rest[i] == k;
      assert keys[n + 1 + i] == k;
    } else if k in keys {
      var i :| 0 <= i < |keys| && keys[i] == k;
    }
  }

  lemma RestInOrder(keys: seq<string>, blobs: map<string, FileMetadata>, cursor: Option<string>)
    requires NewestFirst(keys, blobs)
    ensures var rest := Rest(keys, cursor);
            forall i, j :: 0 <= i < j < |rest| ==> Precedes(rest[i], rest[j], blobs)
  {
    SortedPrecedes(keys, blobs);
    hide *;
    var skipped := RestIsSuffix(keys, cursor);
    var rest := Rest(keys, cursor);
    forall i, j | 0 <= i < j < |rest| ensures Precedes(rest[i], rest[j], blobs) {
      assert rest[i] == keys[|skipped| + i] && rest[j] == keys[|skipped| + j];
    }
  }

  /** Every page is a page of the described kind, for every window, author, cursor and limit. */
  lemma PageIsDescribed(e: Entries, since: u64, until: u64, author: Option<string>, cursor: Option<string>, limit: nat)
    requires Valid(e)
    ensures IsPage(PageOf(Select(e.order, e.blobs, Query(since, until, author)), cursor, limit), e.blobs,
                   since, until, author, cursor, limit)
  {
    var keys := Select(e.order, e.blobs, Query(since, until, author));
    SelectionIsTheCatalogue(e, Query(since, until, author));
    var rest := Rest(keys, cursor);
    assert forall k :: k in keys <==> InWindow(k, e.blobs, since, until, author);
    RestInOrder(keys, e.blobs, cursor);
    hide *;
    forall k ensures k in rest <==> Wanted(k, e.blobs, since, until, author, cursor) {
      RestIsWanted(keys, e.blobs, since, until, author, cursor, k);
    }
    CutIsPage(rest, e.blobs, since, until, author, cursor, limit);
    PageIsCut(keys, cursor, limit);
  }

  lemma PageIsCut(keys: seq<string>, cursor: Option<string>, limit: nat)
    ensures PageOf(keys, cursor, limit) ==
            if limit == 0 || |Rest(keys, cursor)| <= limit then Rest(keys, cursor) else Rest(keys, cursor)[..limit]
  {
  }

  /** A page is the wanted entries in order, cut at the limit. */
  lemma CutIsPage(rest: seq<string>, blobs: map<string, FileMetadata>, since: nat, until: nat, author: Option<string>,
                  cursor: Option<string>, limit: nat)
    requires forall k :: k in rest <==> Wanted(k, blobs, since, until, author, cursor)
    requires forall i, j :: 0 <= i < j < |rest| ==> Precedes(rest[i], rest[j], blobs)
    ensures IsPage(if limit == 0 || |rest| <= limit then rest else rest[..limit], blobs, since, until, author, cursor,
                   limit)
  {
    hide Precedes, Wanted;
    var page := if limit == 0 || |rest| <= limit then rest else rest[..limit];
    forall i | 0 <= i < |rest|
      ensures rest[i] in page || (0 < limit == |page| && Precedes(page[limit - 1], rest[i], blobs))
    {
      if i < |page| {
        assert page[i] == rest[i];
      } else {
        assert page[limit - 1] == rest[limit - 1];
      }
    }
    forall i, j | 0 <= i < j < |page| ensures Precedes(page[i], page[j], blobs) {
      assert page[i] == rest[i] && page[j] == rest[j];
    }
    assert forall k :: k in page ==> k in rest;
  }

  // ----- following the pages -----

  lemma {:induction false} AfterSplits(keys: seq<string>, cursor: string)
    requires cursor in keys
    ensures exists before :: keys == before + [cursor] + After(keys, cursor)
  {
    if keys[0] == cursor {
      assert keys == [] + [cursor] + keys[1..];
    } else {
      AfterSplits(keys[1..], cursor);
      var before :| keys[1..] == before + [cursor] + After(keys[1..], cursor);
      assert keys == ([keys[0]] + before) + [cursor] + After(keys, cursor);
    }
  }

  lemma {:induction false} AfterOf(before: seq<string>, cursor: string, rest: seq<string>)
    requires cursor !in before
    ensures After(before + [cursor] + rest, cursor) == rest
  {
    var keys := before + [cursor] + rest;
    if before == [] {
      assert keys == [cursor] + rest;
    } else {
      assert keys[1..] == before[1..] + [cursor] + rest;
      AfterOf(before[1..], cursor, rest);
    }
  }

  lemma RestIsSuffix(keys: seq<string>, cursor: Option<string>) returns (skipped: seq<string>)
    ensures keys == skipped + Rest(keys, cursor)
  {
    skipped := [];
    if cursor.Some? && cursor.value in keys {
      AfterSplits(keys, cursor.value);
      var before :| keys == before + [cursor.value] + After(keys, cursor.value);
      skipped := before + [cursor.value];
    }
  }

  lemma ResumeAfter(before: seq<string>, last: string, later: seq<string>)
    requires Distinct(before + [last] + later)
    ensures Rest(before + [last] + later, Some(last)) == later
  {
    var keys := before + [last] + later;
    assert keys[|before|] == last;
    forall i | 0 <= i < |before| ensures before[i] != last {
      assert keys[i] == before[i];
    }
    AfterOf(before, last, later);
  }

  /** Resuming after the last key of a page continues exactly where the page stopped. */
  lemma NextPageContinues(keys: seq<string>, cursor: Option<string>, limit: nat)
    requires Distinct(keys) && limit > 0 && PageOf(keys, cursor, limit) != []
    ensures var page := PageOf(keys, cursor, limit);
            Rest(keys, cursor) == page + Rest(keys, Some(page[|page| - 1]))
  {
    hide After, Distinct;
    var rest, page := Rest(keys, cursor), PageOf(keys, cursor, limit);
    var skipped := RestIsSuffix(keys, cursor);
    hide Rest;
    var last, front, later := page[|page| - 1], page[..|page| - 1], rest[|page|..];
    assert rest == front + [last] + later;
    assert keys == (skipped + front) + [last] + later;
    ResumeAfter(skipped + front, last, later);
  }

  /** The pages a client sees when it follows cursors over an unchanging catalogue. */
  ghost function Walk(keys: seq<string>, cursor: Option<string>, limit: nat): seq<seq<string>>
    requires Distinct(keys) && limit > 0
    decreases |Rest(keys, cursor)|
  {
    var page := PageOf(keys, cursor, limit);
    if page == [] then []
    else
      NextPageContinues(keys, cursor, limit);
      [page] + Walk(keys, Some(page[|page| - 1]), limit)
  }

  lemma WalkUnfolds(keys: seq<string>, cursor: Option<string>, limit: nat)
    requires Distinct(keys) && limit > 0
    ensures var page := PageOf(keys, cursor, limit);
            && |page| <= limit
            && (page == [] ==> Walk(keys, cursor, limit) == [] && Rest(keys, cursor) == [])
            && (page != [] ==>
                  var next := Some(page[|page| - 1]);
                  && Walk(keys, cursor, limit) == [page] + Walk(keys, next, limit)
                  && Rest(keys, cursor) == page + Rest(keys, next))
  {
    if PageOf(keys, cursor, limit) != [] {
      NextPageContinues(keys, cursor, limit);
      hide PageOf, Rest, Distinct;
    }
  }

  lemma {:induction false} WalkContinues(keys: seq<string>, cursor: Option<string>, limit: nat)
    requires Distinct(keys) && limit > 0
    ensures Flatten(Walk(keys, cursor, limit)) == Rest(keys, cursor)
    ensures forall page :: page in Walk(keys, cursor, limit) ==> 0 < |page| <= limit
    decreases |Rest(keys, cursor)|
  {
    hide *;
    var page := PageOf(keys, cursor, limit);
    WalkUnfolds(keys, cursor, limit);
    if page == [] {
      FlattenNothing<string>();
    } else {
      var next := Some(page[|page| - 1]);
      WalkContinues(keys, next, limit);
      FlattenCons(page, Walk(keys, next, limit));
    }
  }

  /** Following the pages terminates and yields the whole selection, in order and without repeats. */
  lemma PagesEnumerateCatalogue(e: Entries, q: Query, limit: nat)
    requires Valid(e) && limit > 0
    ensures var keys := Select(e.order, e.blobs, q);
            Distinct(keys) && Flatten(Walk(keys, None, limit)) == keys
  {
    SelectionIsTheCatalogue(e, q);
    WalkContinues(Select(e.order, e.blobs, q), None, limit);
  }

  /** A cursor outside the result restarts from the top, so a client whose cursor was deleted sees
      entries again rather than missing some. */
  lemma StaleCursorRestarts(keys: seq<string>, cursor: string, limit: nat)
    ensures cursor !in keys ==> PageOf(keys, Some(cursor), limit) == PageOf(keys, None, limit)
    ensures limit == 0 ==> PageOf(keys, None, limit) == keys
  {
  }

  // ----- the listing loop -----

  lemma SelectAfter(order: seq<OrderKey>, blobs: map<string, FileMetadata>, q: Query, cursor: string)
    requires order != [] && cursor in Select(order, blobs, q) && order[0].1 != cursor
    ensures cursor in Select(order[1..], blobs, q)
            && After(Select(order, blobs, q), cursor) == After(Select(order[1..], blobs, q), cursor)
  {
    var tail := Select(order[1..], blobs, q);
    if Select(order, blobs, q) != tail {
      assert Select(order, blobs, q) == [order[0].1] + tail;
    } else {
      assert [] + tail == tail;
    }
  }

  lemma SelectHead(order: seq<OrderKey>, blobs: map<string, FileMetadata>, q: Query)
    requires order != []
    ensures Select(order, blobs, q) ==
            if order[0].1 in blobs && Matches(q, blobs[order[0].1]) then [order[0].1] + Select(order[1..], blobs, q)
            else Select(order[1..], blobs, q)
  {
  }

  lemma FilteredHeadIsCursor(order: seq<OrderKey>, blobs: map<string, FileMetadata>, q: Query)
    requires order != [] && order[0].1 in blobs && Matches(q, blobs[order[0].1])
    ensures After(Select(order, blobs, q), order[0].1) == Select(order[1..], blobs, q)
  {
    SelectHead(order, blobs, q);
    assert ([order[0].1] + Select(order[1..], blobs, q))[1..] == Select(order[1..], blobs, q);
  }

  lemma PageIsFull(keys: seq<string>, cursor: Option<string>, page: seq<string>, later: seq<string>)
    requires Rest(keys, cursor) == page + later && page != []
    ensures PageOf(keys, cursor, |page|) == page
  {
    assert (page + later)[..|page|] == page;
    assert later == [] ==> page + later == page;
  }
}

/** The in-memory catalogue of stored blobs: a map, the total of its sizes, its newest-first order,
    and a generation that counts mutations. */
module BlobIndex {
  import opened Prelude
  import opened FileModel

  /** A key of the ordering: newest first, and among equally old blobs the greater hash first. */
  type OrderKey = (u64, string)

  datatype Entries = Entries(blobs: map<string, FileMetadata>, totalBytes: u64, order: seq<OrderKey>, generation: u64)

  datatype PublishResult = Published(displaced: Option<FileMetadata>) | Retained(existing: FileMetadata)

  const NO_ENTRIES := Entries(map[], 0, [], 0)

  // ----- the ordering -----

  predicate StringLess(a: string, b: string) {
    b != "" && (a == "" || a[0] < b[0] || (a[0] == b[0] && StringLess(a[1..], b[1..])))
  }

  predicate Before(a: OrderKey, b: OrderKey) {
    a.0 > b.0 || (a.0 == b.0 && StringLess(b.1, a.1))
  }

  function KeyOf(key: string, metadata: FileMetadata): OrderKey {
    (metadata.createdAt, key)
  }

  /** Insertion into, and removal from, a sorted set. */
  function OrderInsert(x: OrderKey, order: seq<OrderKey>): seq<OrderKey> {
    if order == [] then [x]
    else if x == order[0] then order
    else if Before(x, order[0]) then [x] + order
    else [order[0]] + OrderInsert(x, order[1..])
  }

  function OrderRemove(x: OrderKey, order: seq<OrderKey>): seq<OrderKey> {
    if order == [] then []
    else if x == order[0] then order[1..]
    else [order[0]] + OrderRemove(x, order[1..])
  }

  ghost predicate Ordered(order: seq<OrderKey>) {
    order == [] || ((forall y :: y in order[1..] ==> Before(order[0], y)) && Ordered(order[1..]))
  }

  // ----- mutations -----

  function Added(total: u64, size: u64): u64 {
    (total + size) % U64_LIMIT
  }

  function Increment(generation: u64): u64 {
    (generation + 1) % U64_LIMIT
  }

  function InsertStep(e: Entries, key: string, metadata: FileMetadata): Entries {
    var total := Added(e.totalBytes, metadata.size);
    if key in e.blobs then
      Entries(e.blobs[key := metadata], SaturatingSub(total, e.blobs[key].size),
              OrderInsert(KeyOf(key, metadata), OrderRemove(KeyOf(key, e.blobs[key]), e.order)),
              Increment(e.generation))
    else
      Entries(e.blobs[key := metadata], total, OrderInsert(KeyOf(key, metadata), e.order), Increment(e.generation))
  }

  function RemoveStep(e: Entries, key: string): Entries {
    if key in e.blobs then
      Entries(e.blobs - {key}, SaturatingSub(e.totalBytes, e.blobs[key].size),
              OrderRemove(KeyOf(key, e.blobs[key]), e.order), Increment(e.generation))
    else e
  }

  function PublishStep(e: Entries, key: string, metadata: FileMetadata): (Entries, PublishResult) {
    if metadata.origin == UpstreamCache && key in e.blobs then (e, Retained(e.blobs[key]))
    else (InsertStep(e, key, metadata), Published(if key in e.blobs then Some(e.blobs[key]) else None))
  }

  function RemoveIfLocationMatchesStep(e: Entries, key: string, location: FileLocation): Entries {
    if key in e.blobs && e.blobs[key].location == location then RemoveStep(e, key) else e
  }

  // ----- the invariant -----

  ghost function SumSizes(m: map<string, FileMetadata>): nat {
    if m == map[] then 0 else var k :| k in m; m[k].size + SumSizes(m - {k})
  }

  /** The order lists exactly the entries of the map, once each. */
  ghost predicate Lists(order: seq<OrderKey>, m: map<string, FileMetadata>) {
    forall p :: p in order <==> p.1 in m && m[p.1].createdAt == p.0
  }

  ghost predicate Valid(e: Entries) {
    e.totalBytes == SumSizes(e.blobs) && Ordered(e.order) && Lists(e.order, e.blobs)
  }

  /** Whichever key is taken out first, the sum is the same. */
  lemma {:induction false} SumWithout(m: map<string, FileMetadata>, key: string)
    requires key in m
    ensures SumSizes(m) == m[key].size + SumSizes(m - {key})
  {
    var k :| k in m && SumSizes(m) == m[k].size + SumSizes(m - {k});
    if k != key {
      SumWithout(m - {k}, key);
      SumWithout(m - {key}, k);
      assert m - {k} - {key} == m - {key} - {k};
    }
  }

  lemma SumWith(m: map<string, FileMetadata>, key: string, metadata: FileMetadata)
    ensures SumSizes(m[key := metadata]) == metadata.size + SumSizes(m) - (if key in m then m[key].size else 0)
  {
    SumWithout(m[key := metadata], key);
    assert m[key := metadata] - {key} == m - {key};
    if key in m {
      SumWithout(m, key);
    } else {
      assert m - {key} == m;
    }
  }

  lemma {:induction false} StringLessTotal(a: string, b: string)
    ensures !(StringLess(a, b) && StringLess(b, a)) && (a != b ==> StringLess(a, b) || StringLess(b, a))
            && !StringLess(a, a)
  {
    if a != "" && b != "" {
      StringLessTotal(a[1..], b[1..]);
      StringLessTotal(a[1..], a[1..]);
      assert a == [a[0]] + a[1..] && b == [b[0]] + b[1..];
    } else if a != "" {
      StringLessTotal(a[1..], a[1..]);
    }
  }

  lemma {:induction false} StringLessTransitive(a: string, b: string, c: string)
    requires StringLess(a, b) && StringLess(b, c)
    ensures StringLess(a, c)
  {
    if a != "" && a[0] == b[0] == c[0] {
      StringLessTransitive(a[1..], b[1..], c[1..]);
    }
  }

  lemma BeforeIsStrict(a: OrderKey, b: OrderKey)
    ensures !Before(a, a) && !(Before(a, b) && Before(b, a)) && (a != b ==> Before(a, b) || Before(b, a))
  {
    StringLessTotal(a.1, b.1);
    StringLessTotal(a.1, a.1);
  }

  lemma BeforeTransitive(a: OrderKey, b: OrderKey, c: OrderKey)
    requires Before(a, b) && Before(b, c)
    ensures Before(a, c)
  {
    if a.0 == b.0 == c.0 {
      StringLessTransitive(c.1, b.1, a.1);
    }
  }

  lemma {:induction false} InsertMembers(x: OrderKey, order: seq<OrderKey>)
    ensures forall y :: y in OrderInsert(x, order) <==> y == x || y in order
  {
    if order != [] {
      InsertMembers(x, order[1..]);
      assert order == [order[0]] + order[1..];
    }
  }

  lemma {:induction false} InsertKeepsOrder(x: OrderKey, order: seq<OrderKey>)
    requires Ordered(order)
    ensures Ordered(OrderInsert(x, order))
  {
    hide Before;
    var after := OrderInsert(x, order);
    if order == [] || x == order[0] {
    } else if Before(x, order[0]) {
      assert after[1..] == order;
      forall y | y in order ensures Before(x, y) {
        if y != order[0] {
          assert y in order[1..];
          BeforeTransitive(x, order[0], y);
        }
      }
    } else {
      BeforeIsStrict(x, order[0]);
      InsertKeepsOrder(x, order[1..]);
      InsertMembers(x, order[1..]);
      assert after[1..] == OrderInsert(x, order[1..]);
    }
  }

  lemma {:induction false} RemoveFromOrder(x: OrderKey, order: seq<OrderKey>)
    requires Ordered(order)
    ensures Ordered(OrderRemove(x, order))
    ensures forall y :: y in OrderRemove(x, order) <==> y != x && y in order
  {
    hide Before;
    if order != [] {
      assert order == [order[0]] + order[1..];
      BeforeIsStrict(x, x);
      if x != order[0] {
        RemoveFromOrder(x, order[1..]);
        assert OrderRemove(x, order)[1..] == OrderRemove(x, order[1..]);
      }
    }
  }

  /** Insertion keeps the catalogue consistent exactly when the old total and the new size together fit
      in 64 bits: the size is added before that of a replaced entry is taken off. */
  lemma InsertKeepsValid(e: Entries, key: string, metadata: FileMetadata)
    requires Valid(e)
    ensures Valid(InsertStep(e, key, metadata)) <==> e.totalBytes + metadata.size < U64_LIMIT
  {
    hide OrderInsert, OrderRemove, Ordered, SumSizes;
    SumWith(e.blobs, key, metadata);
    if key in e.blobs {
      var without := OrderRemove(KeyOf(key, e.blobs[key]), e.order);
      RemoveFromOrder(KeyOf(key, e.blobs[key]), e.order);
      InsertMembers(KeyOf(key, metadata), without);
      InsertKeepsOrder(KeyOf(key, metadata), without);
    } else {
      InsertMembers(KeyOf(key, metadata), e.order);
      InsertKeepsOrder(KeyOf(key, metadata), e.order);
    }
  }

  lemma RemoveKeepsValid(e: Entries, key: string)
    requires Valid(e)
    ensures Valid(RemoveStep(e, key))
  {
    if key in e.blobs {
      hide OrderRemove, Ordered, SumSizes;
      SumWithout(e.blobs, key);
      RemoveFromOrder(KeyOf(key, e.blobs[key]), e.order);
    }
  }

  lemma HeadIsMember<T>(s: seq<T>)
    ensures s != [] ==> s[0] in s
  {
  }

  /** The order of a consistent catalogue is determined by its map. */
  lemma {:induction false} OrderIsDetermined(a: seq<OrderKey>, b: seq<OrderKey>)
    requires Ordered(a) && Ordered(b) && forall p :: p in a <==> p in b
    ensures a == b
  {
    HeadIsMember(a);
    HeadIsMember(b);
    if a != [] && b != [] {
      assert a == [a[0]] + a[1..] && b == [b[0]] + b[1..];
      BeforeIsStrict(a[0], b[0]);
      assert a[0] == b[0] by { assert a[0] in b && b[0] in a; }
      BeforeIsStrict(a[0], a[0]);
      forall y ensures y in a[1..] <==> y in b[1..] {
        assert y in a <==> y == a[0] || y in a[1..];
        assert y in b <==> y == b[0] || y in b[1..];
      }
      OrderIsDetermined(a[1..], b[1..]);
    }
  }

  // ----- runs -----

  datatype Mutation =
    | Insert(key: string, metadata: FileMetadata)
    | Publish(key: string, metadata: FileMetadata)
    | Remove(key: string)
    | RemoveMatching(key: string, location: FileLocation)
    | Replace(contents: map<string, FileMetadata>)

  ghost function Apply(e: Entries, m: Mutation): Entries {
    match m
    case Insert(key, metadata) => InsertStep(e, key, metadata)
    case Publish(key, metadata) => PublishStep(e, key, metadata).0
    case Remove(key) => RemoveStep(e, key)
    case RemoveMatching(key, location) => RemoveIfLocationMatchesStep(e, key, location)
    case Replace(contents) => ReplaceStep(e, contents)
  }

  /** The order of all entries of a map. */
  ghost function OrderOf(m: map<string, FileMetadata>): seq<OrderKey> {
    if m == map[] then [] else var k :| k in m; OrderInsert(KeyOf(k, m[k]), OrderOf(m - {k}))
  }

  ghost function ReplaceStep(e: Entries, m: map<string, FileMetadata>): Entries {
    Entries(m, SumSizes(m) % U64_LIMIT, OrderOf(m), Increment(e.generation))
  }

  lemma {:induction false} OrderOfLists(m: map<string, FileMetadata>)
    ensures Ordered(OrderOf(m)) && Lists(OrderOf(m), m)
  {
    if m != map[] {
      var k :| k in m && OrderOf(m) == OrderInsert(KeyOf(k, m[k]), OrderOf(m - {k}));
      OrderOfLists(m - {k});
      InsertKeepsOrder(KeyOf(k, m[k]), OrderOf(m - {k}));
      InsertMembers(KeyOf(k, m[k]), OrderOf(m - {k}));
    }
  }

  ghost function Reach(mutations: seq<Mutation>): Entries {
    if mutations == [] then NO_ENTRIES else Apply(Reach(mutations[..|mutations| - 1]), mutations[|mutations| - 1])
  }

  /** The sum of sizes that a mutation computes on the way fits in 64 bits. */
  ghost predicate Fits(e: Entries, m: Mutation) {
    match m
    case Insert(_, metadata) => e.totalBytes + metadata.size < U64_LIMIT
    case Publish(key, metadata) => PublishStep(e, key, metadata).1.Retained? || e.totalBytes + metadata.size < U64_LIMIT
    case Replace(contents) => SumSizes(contents) < U64_LIMIT
    case _ => true
  }

  ghost predicate SumsFit(mutations: seq<Mutation>) {
    forall i :: 0 <= i < |mutations| ==> Fits(Reach(mutations[..i]), mutations[i])
  }

  /** A mutation keeps a consistent catalogue consistent exactly when its sums fit. */
  lemma MutationKeepsValid(e: Entries, m: Mutation)
    requires Valid(e)
    ensures Valid(Apply(e, m)) <==> Fits(e, m)
  {
    hide InsertStep, RemoveStep, SumSizes, Ordered, Lists;
    match m {
      case Insert(key, metadata) => InsertKeepsValid(e, key, metadata);
      case Publish(key, metadata) => InsertKeepsValid(e, key, metadata);
      case Remove(key) => RemoveKeepsValid(e, key);
      case RemoveMatching(key, _) => RemoveKeepsValid(e, key);
      case Replace(contents) => OrderOfLists(contents);
    }
  }

  lemma NothingIsValid()
    ensures Valid(Reach([]))
  {
  }

  /** The total is the sum of the sizes and the order lists exactly the map, at every moment of the run. */
  ghost predicate ValidThroughout(mutations: seq<Mutation>) {
    forall i :: 0 <= i <= |mutations| ==> Valid(Reach(mutations[..i]))
  }

  lemma LastMutation(mutations: seq<Mutation>)
    requires mutations != []
    ensures var before, m := mutations[..|mutations| - 1], mutations[|mutations| - 1];
            && (SumsFit(mutations) <==> SumsFit(before) && Fits(Reach(before), m))
            && (ValidThroughout(mutations) <==> ValidThroughout(before) && Valid(Reach(mutations)))
            && (ValidThroughout(before) ==> Valid(Reach(before)))
  {
    hide Valid, Fits, Reach;
    var n := |mutations| - 1;
    var before := mutations[..n];
    assert forall i :: 0 <= i <= n ==> before[..i] == mutations[..i];
    assert before[..n] == before && mutations[..n + 1] == mutations;
    assert forall i :: 0 <= i < n ==> before[i] == mutations[i];
  }

  /** The catalogue is consistent throughout a run exactly when no sum computed on the way overflows. */
  lemma {:induction false} EveryRunIsValid(mutations: seq<Mutation>)
    ensures ValidThroughout(mutations) <==> SumsFit(mutations)
    ensures SumsFit(mutations) ==> Valid(Reach(mutations))
    decreases |mutations|
  {
    if mutations == [] {
      NothingIsValid();
      assert forall i :: 0 <= i <= |mutations| ==> mutations[..i] == [];
    } else {
      hide Valid, Fits, Apply, SumsFit, ValidThroughout;
      var before := mutations[..|mutations| - 1];
      LastMutation(mutations);
      EveryRunIsValid(before);
      if SumsFit(before) {
        MutationKeepsValid(Reach(before), mutations[|mutations| - 1]);
      }
    }
  }

  /** A mutation either leaves the catalogue as it was, or moves the generation on by one. */
  lemma GenerationCounts(e: Entries, m: Mutation)
    ensures Apply(e, m) == e || Apply(e, m).generation == Increment(e.generation)
  {
  }

  lemma ReachExtends(before: seq<Mutation>, m: Mutation)
    ensures Reach(before + [m]) == Apply(Reach(before), m)
  {
    assert (before + [m])[..|before + [m]| - 1] == before;
  }

  lemma {:induction false} GenerationGrows(mutations: seq<Mutation>, i: nat)
    requires i <= |mutations| < U64_LIMIT
    ensures Reach(mutations[..i]).generation <= Reach(mutations).generation <= |mutations|
    ensures Reach(mutations[..i]).generation == Reach(mutations).generation ==>
              Reach(mutations[..i]) == Reach(mutations)
    decreases |mutations|
  {
    hide Reach, Apply;
    if mutations == [] {
      assert Reach([]) == NO_ENTRIES by { NothingYet(); }
      assert mutations[..i] == mutations;
    } else {
      var before, m := mutations[..|mutations| - 1], mutations[|mutations| - 1];
      assert mutations == before + [m];
      ReachExtends(before, m);
      GenerationCounts(Reach(before), m);
      GenerationGrows(before, Min(i, |before|));
      if i < |mutations| {
        assert before[..i] == mutations[..i];
      } else {
        assert mutations[..i] == mutations;
      }
    }
  }

  lemma NothingYet()
    ensures Reach([]) == NO_ENTRIES
  {
  }

  /** Equal generations at two moments of a run mean equal catalogues, for the first 2^64 mutations. */
  lemma EqualGenerationsEqualCatalogues(mutations: seq<Mutation>, i: nat, j: nat)
    requires i <= |mutations| && j <= |mutations| < U64_LIMIT
    requires Reach(mutations[..i]).generation == Reach(mutations[..j]).generation
    ensures Reach(mutations[..i]) == Reach(mutations[..j])
  {
    var low, high := Min(i, j), if i <= j then j else i;
    assert mutations[..high][..low] == mutations[..low];
    GenerationGrows(mutations[..high], low);
  }

  /** Where additions wrap (a build without overflow checks), replacing a blob while old and new size
      together pass 64 bits loses the total: it is zero, although the true sum fits. */
  lemma TransientOverflowLosesTotal(key: string, replaced: FileMetadata, replacement: FileMetadata)
    requires replaced.size + replacement.size >= U64_LIMIT
    ensures var mutations := [Insert(key, replaced), Insert(key, replacement)];
            && Reach(mutations).totalBytes == 0 && SumSizes(Reach(mutations).blobs) == replacement.size > 0
            && !SumsFit(mutations)
  {
    var first, second := Insert(key, replaced), Insert(key, replacement);
    assert [first, second] == [] + [first] + [second];
    NothingYet();
    ReachExtends([], first);
    ReachExtends([] + [first], second);
    var only := map[key := replacement];
    assert Reach([first, second]).blobs == only;
    SumWithout(only, key);
    assert only - {key} == map[];
    assert [first, second][..1] == [] + [first] && !Fits(Reach([first, second][..1]), second);
  }
}

/** The filter endpoint: a rendered filter cached per index generation, with other requests mutating
    the index and refilling the cache at every await. */
module FilterCache {
  import opened Prelude
  import opened FileModel
  import opened BlobIndex
  import opened BlobCatalogue

  datatype CachedFilter = CachedFilter(generation: u64, fpRate: real, body: string)

  datatype FilterError = BadRate | RenderFailed

  const DEFAULT_RATE := 0.01

  predicate IsAllowedRate(rate: real) {
    rate == 0.001 || rate == 0.01 || rate == 0.1
  }

  /** The part of the cache key that comes from the request: only bloom filters depend on the rate. */
  function RateKey(isBloom: bool, rate: real): real {
    if isBloom then rate else DEFAULT_RATE
  }

  predicate IsHit(cache: Option<CachedFilter>, generation: u64, rateKey: real) {
    cache.Some? && cache.value.generation == generation && cache.value.fpRate == rateKey
  }

  /** Building and serializing a filter: an opaque function of the keys, the rate and the clock that
      may fail. */
  type Renderer = (seq<string>, real, nat) -> Option<string>

  /** The body was rendered, at some time and from the hashes in some order, from this state of the index. */
  ghost predicate RenderedFrom(render: Renderer, e: Entries, rate: real, body: string) {
    exists keys, time :: IsHashKeyList(keys, e.blobs) && render(keys, rate, time) == Some(body)
  }

  /** The cached filter belongs to the moment `at` of the run. */
  ghost predicate BelongsTo(render: Renderer, cached: CachedFilter, mutations: seq<Mutation>, at: nat) {
    && at <= |mutations|
    && cached.generation == Reach(mutations[..at]).generation
    && RenderedFrom(render, Reach(mutations[..at]), cached.fpRate, cached.body)
  }

  /** A cached filter whose generation is that of moment `now` was rendered from that moment's index. */
  lemma HitIsCurrent(render: Renderer, cached: CachedFilter, mutations: seq<Mutation>, now: nat)
    requires now <= |mutations| < U64_LIMIT && cached.generation == Reach(mutations[..now]).generation
    requires exists at :: BelongsTo(render, cached, mutations, at)
    ensures BelongsTo(render, cached, mutations, now)
  {
    hide Reach;
    var at :| BelongsTo(render, cached, mutations, at);
    EqualGenerationsEqualCatalogues(mutations, at, now);
  }

  /** What a request that nobody disturbs does to the cache: serve a hit, or render, store under the
      requested rate, and serve. The flag says whether it rendered. */
  function ServeStep(cache: Option<CachedFilter>, isBloom: bool, generation: u64, rate: real, body: string)
    : (Option<CachedFilter>, bool)
  {
    if IsHit(cache, generation, RateKey(isBloom, rate)) then (cache, false)
    else (Some(CachedFilter(generation, rate, body)), true)
  }

  /** How many of `n` requests for the same rate render, while the index does not change. Whatever the
      renderings are (they carry a time stamp), `bodies` holds them. */
  function Renderings(cache: Option<CachedFilter>, isBloom: bool, generation: u64, rate: real, bodies: seq<string>): nat
    decreases |bodies|
  {
    if bodies == [] then 0
    else
      var (after, rendered) := ServeStep(cache, isBloom, generation, rate, bodies[0]);
      (if rendered then 1 else 0) + Renderings(after, isBloom, generation, rate, bodies[1..])
  }

  /** Over any number of equal requests with no mutation in between, a bloom filter, or any filter at
      the default rate, is rendered at most once; any other one is rendered for every request unless
      the cache already held the default: it is stored under the requested rate but looked up under
      the default one. */
  lemma {:induction false} RepeatedRequests(cache: Option<CachedFilter>, isBloom: bool, generation: u64, rate: real,
                                            bodies: seq<string>)
    ensures Renderings(cache, isBloom, generation, rate, bodies) ==
            if IsHit(cache, generation, RateKey(isBloom, rate)) then 0
            else if isBloom || rate == DEFAULT_RATE then Min(1, |bodies|)
            else |bodies|
    decreases |bodies|
  {
    if bodies != [] {
      RepeatedRequests(ServeStep(cache, isBloom, generation, rate, bodies[0]).0, isBloom, generation, rate,
                       bodies[1..]);
    }
  }

  class FilterService {
    const isBloom: bool
    const render: Renderer
    var entries: Entries
    var cache: Option<CachedFilter>
    ghost var mutations: seq<Mutation>

    ghost predicate Valid()
      reads this
    {
      && entries == Reach(mutations)
      && (cache.Some? ==> exists at :: BelongsTo(render, cache.value, mutations, at))
    }

    constructor (isBloom: bool, render: Renderer)
      ensures Valid() && this.isBloom == isBloom && this.render == render && mutations == []
    {
      this.isBloom, this.render := isBloom, render;
      entries, cache, mutations := NO_ENTRIES, None, [];
    }

    /** An await: the index may be mutated, and another request may refill the cache. */
    method Await()
      requires Valid()
      modifies this
      ensures Valid() && old(mutations) <= mutations
    {
    }

    /** An await while this request holds the cache's write lock. */
    method AwaitHoldingCache()
      requires Valid()
      modifies this`entries, this`mutations
      ensures Valid() && old(mutations) <= mutations
    {
    }

    /** The served filter belongs to moment `at`, at the requested rate or, where the rate does not
        matter, at the default one. */
    ghost predicate Serves(rate: real, body: string, at: nat)
      reads this
    {
      && at <= |mutations|
      && (|| RenderedFrom(render, Reach(mutations[..at]), rate, body)
          || (!isBloom && RenderedFrom(render, Reach(mutations[..at]), DEFAULT_RATE, body)))
    }

    /** The cache holds this body for the generation of moment `at`. */
    ghost predicate Remembers(body: string, at: nat)
      reads this
    {
      at <= |mutations| && cache.Some? && cache.value.body == body
        && cache.value.generation == Reach(mutations[..at]).generation
    }

    /** The keys of moment `at` could not be rendered. */
    ghost predicate Unrenderable(rate: real, now: nat, at: nat)
      reads this
    {
      && at <= |mutations|
      && exists keys :: IsHashKeyList(keys, Reach(mutations[..at]).blobs) && render(keys, rate, now).None?
    }

    /** A look at the cache that finds an entry for the generation read at moment `at`. */
    method TryCache(generation: u64, rateKey: real, ghost at: nat) returns (body: Option<string>)
      requires Valid() && at <= |mutations| && generation == Reach(mutations[..at]).generation
      ensures body.Some? <==>
              cache.Some? && cache.value.generation == generation && cache.value.fpRate == rateKey
      ensures body.Some? ==> Remembers(body.value, at)
      ensures body.Some? && |mutations| < U64_LIMIT ==>
                RenderedFrom(render, Reach(mutations[..at]), rateKey, body.value)
    {
      hide Reach, RenderedFrom;
      body := None;
      if IsHit(cache, generation, rateKey) {
        if |mutations| < U64_LIMIT {
          HitIsCurrent(render, cache.value, mutations, at);
        }
        body := Some(cache.value.body);
      }
    }

    /** Render the current index and store the result; the cache's lock is held throughout. */
    method Refill(rate: real, now: nat) returns (body: Option<string>, ghost at: nat)
      requires Valid()
      modifies this
      ensures Valid() && old(mutations) <= mutations && |old(mutations)| <= at <= |mutations|
      ensures body.None? ==> Unrenderable(rate, now, at) && cache == old(cache)
      ensures body.Some? ==> Remembers(body.value, at) && RenderedFrom(render, Reach(mutations[..at]), rate, body.value)
      ensures body.Some? ==> cache.value.fpRate == rate
    {
      hide Reach;
      AwaitHoldingCache();
      var from := entries.generation;
      var keys := CollectHashKeys(entries.blobs);
      at := |mutations|;
      ghost var seen := mutations;
      assert seen[..at] == seen;
      AwaitHoldingCache();
      assert mutations[..at] == seen;
      body := render(keys, rate, now);
      if body.Some? {
        cache := Some(CachedFilter(from, rate, body.value));
        assert BelongsTo(render, cache.value, mutations, at);
      }
    }

    /** The filter that is served was rendered from a state the index had between the start of the
        request and its response, at a rate the request may be answered with, and the cache holds it for
        that state. A rate that is not offered is refused, and nothing else fails but the rendering of
        such a state. */
    method GetFilter(fp: Option<real>, now: nat) returns (r: Result<string, FilterError>, ghost at: nat)
      requires Valid()
      modifies this
      ensures Valid() && old(mutations) <= mutations
      ensures r == Err(BadRate) <==> fp.Some? && fp.value != 0.001 && fp.value != 0.01 && fp.value != 0.1
      ensures r != Err(BadRate) ==> |old(mutations)| <= at <= |mutations|
      ensures r == Err(RenderFailed) ==> Unrenderable(RateOf(fp), now, at)
      ensures r.Ok? ==> Remembers(r.value, at)
      ensures r.Ok? && |mutations| < U64_LIMIT ==> Serves(RateOf(fp), r.value, at)
    {
      AllowedRates(fp);
      hide *;
      at := |mutations|;
      if fp.Some? && !IsAllowedRate(fp.value) {
        return Err(BadRate), at;
      }
      var rate := RateOf(fp);
      var rateKey := RateKey(isBloom, rate);
      ghost var start := mutations;
      assert start[..at] == start;
      var generation := ReadGeneration();
      Await();
      assert mutations[..at] == start;
      var body := TryCache(generation, rateKey, at);
      if body.Some? {
        ServedAtKey(rate, body.value, at);
        return Ok(body.value), at;
      }
      Await();
      assert mutations[..at] == start;
      body := TryCache(generation, rateKey, at);
      if body.Some? {
        ServedAtKey(rate, body.value, at);
        return Ok(body.value), at;
      }
      body, at := Refill(rate, now);
      if body.None? {
        return Err(RenderFailed), at;
      }
      ServedAtRate(rate, body.value, at);
      return Ok(body.value), at;
    }

    lemma AllowedRates(fp: Option<real>)
      ensures fp.Some? ==> (IsAllowedRate(fp.value) <==> fp.value == 0.001 || fp.value == 0.01 || fp.value == 0.1)
    {
    }

    method ReadGeneration() returns (generation: u64)
      requires Valid()
      ensures generation == Reach(mutations).generation
    {
      generation := entries.generation;
    }

    lemma ServedAtKey(rate: real, body: string, at: nat)
      ensures at <= |mutations| && RenderedFrom(render, Reach(mutations[..at]), RateKey(isBloom, rate), body) ==>
                Serves(rate, body, at)
    {
      hide RenderedFrom, Reach;
    }

    lemma ServedAtRate(rate: real, body: string, at: nat)
      ensures at <= |mutations| && RenderedFrom(render, Reach(mutations[..at]), rate, body) ==> Serves(rate, body, at)
    {
      hide RenderedFrom, Reach;
    }
  }

  /** The rate a request is rendered at. */
  function RateOf(fp: Option<real>): real {
    if fp.Some? then fp.value else DEFAULT_RATE
  }
}

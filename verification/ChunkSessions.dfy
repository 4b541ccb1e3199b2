/** The resumable-upload session registry: capacity reservations, stored sessions, and the
    transition that decides an upload is complete. */
module ChunkSessions {
  import opened Prelude
  import opened Tiling

  type Pubkey = string

  type pos = n: nat | 0 < n witness 1

  datatype ChunkUploadKey = ChunkUploadKey(pubkey: Pubkey, sha256: string)

  datatype ChunkUpload = ChunkUpload(
    sha256: string, owner: Pubkey, uploadType: string, uploadLength: u64,
    chunks: seq<ChunkInfo>, createdAt: nat, expiration: Option<u64>)

  datatype SessionParams = SessionParams(
    sha256: string, owner: Pubkey, uploadType: string, uploadLength: u64, expiration: Option<u64>)

  datatype SessionLimits = SessionLimits(maxSessions: nat, maxSessionsPerPubkey: nat)

  datatype Reservation = Granted | GlobalLimit | PerPubkeyLimit

  datatype Commit = Incomplete | Complete(upload: ChunkUpload) | Overlap | ParamMismatch

  datatype SessionState = SessionState(
    uploads: map<ChunkUploadKey, ChunkUpload>,
    pending: map<ChunkUploadKey, pos>)

  // ----- what the transitions compute -----

  /** Keys that count toward the capacity limits: stored, reserved, or both. */
  function ActiveKeys(s: SessionState): set<ChunkUploadKey> {
    s.uploads.Keys + s.pending.Keys
  }

  function KeysOf(keys: set<ChunkUploadKey>, pubkey: Pubkey): set<ChunkUploadKey> {
    set k | k in keys && k.pubkey == pubkey
  }

  function ActiveKeysOf(s: SessionState, pubkey: Pubkey): set<ChunkUploadKey> {
    KeysOf(ActiveKeys(s), pubkey)
  }

  function PendingOnly(s: SessionState): set<ChunkUploadKey> {
    s.pending.Keys - s.uploads.Keys
  }

  function Tickets(s: SessionState, key: ChunkUploadKey): nat {
    if key in s.pending then s.pending[key] else 0
  }

  function ReserveStep(s: SessionState, limits: SessionLimits, key: ChunkUploadKey): (SessionState, Reservation) {
    if key in ActiveKeys(s) then (s.(pending := s.pending[key := Tickets(s, key) + 1]), Granted)
    else if |ActiveKeys(s)| >= limits.maxSessions then (s, GlobalLimit)
    else if |ActiveKeysOf(s, key.pubkey)| >= limits.maxSessionsPerPubkey then (s, PerPubkeyLimit)
    else (s.(pending := s.pending[key := 1]), Granted)
  }

  function ConsumeStep(s: SessionState, key: ChunkUploadKey): SessionState {
    if key !in s.pending then s
    else if s.pending[key] == 1 then s.(pending := s.pending - {key})
    else s.(pending := s.pending[key := s.pending[key] - 1])
  }

  predicate Overlaps(chunk: ChunkInfo, existing: ChunkInfo) {
    && chunk.offset < SaturatingAdd(existing.offset, existing.length)
    && existing.offset < SaturatingAdd(chunk.offset, chunk.length)
  }

  predicate OverlapsAny(chunk: ChunkInfo, chunks: seq<ChunkInfo>) {
    exists i :: 0 <= i < |chunks| && Overlaps(chunk, chunks[i])
  }

  /** The checked left fold over the stored lengths. */
  function CheckedTotal(chunks: seq<ChunkInfo>, total: u64): Option<u64> {
    if chunks == [] then Some(total)
    else
      var next := CheckedAdd(total, chunks[0].length);
      if next.None? then None else CheckedTotal(chunks[1..], next.value)
  }

  function CheckedTotalWith(chunks: seq<ChunkInfo>, chunk: ChunkInfo): Option<u64> {
    var total := CheckedTotal(chunks, 0);
    if total.None? then None else CheckedAdd(total.value, chunk.length)
  }

  function FreshUpload(params: SessionParams, now: nat): ChunkUpload {
    ChunkUpload(params.sha256, params.owner, params.uploadType, params.uploadLength, [], now, params.expiration)
  }

  function CommitStep(s: SessionState, key: ChunkUploadKey, params: SessionParams, chunk: ChunkInfo, now: nat)
    : (SessionState, Commit)
  {
    if key !in s.pending then (s, ParamMismatch)
    else
      var s1 := ConsumeStep(s, key);
      var upload := if key in s1.uploads then s1.uploads[key] else FreshUpload(params, now);
      var s2 := s1.(uploads := s1.uploads[key := upload]);
      if upload.uploadType != params.uploadType || upload.uploadLength != params.uploadLength then (s2, ParamMismatch)
      else if OverlapsAny(chunk, upload.chunks) then (s2, Overlap)
      else
        var total := CheckedTotalWith(upload.chunks, chunk);
        if total.None? then (s2, ParamMismatch)
        else
          var extended := upload.(chunks := upload.chunks + [chunk]);
          if total.value == upload.uploadLength
          then (s1.(uploads := s1.uploads - {key}), Complete(extended))
          else (s1.(uploads := s1.uploads[key := extended]), Incomplete)
  }

  function RestoreStep(s: SessionState, key: ChunkUploadKey, upload: ChunkUpload): (SessionState, bool) {
    if key in ActiveKeys(s) then (s, false) else (s.(uploads := s.uploads[key := upload]), true)
  }

  lemma UnionSize(a: set<ChunkUploadKey>, b: set<ChunkUploadKey>)
    ensures |a + b| == |a| + |b - a|
  {
    assert a + b == a + (b - a);
  }

  lemma KeysOfUnion(a: set<ChunkUploadKey>, b: set<ChunkUploadKey>, pubkey: Pubkey)
    ensures |KeysOf(a + b, pubkey)| == |KeysOf(a, pubkey)| + |KeysOf(b - a, pubkey)|
  {
    UnionSize(KeysOf(a, pubkey), KeysOf(b, pubkey));
    assert KeysOf(b, pubkey) - KeysOf(a, pubkey) == KeysOf(b - a, pubkey);
    assert KeysOf(a + b, pubkey) == KeysOf(a, pubkey) + KeysOf(b, pubkey);
  }

  /** Counting stored and not-yet-stored keys separately counts the active keys. */
  lemma CountsAddUp(s: SessionState, pubkey: Pubkey)
    ensures |ActiveKeys(s)| == |s.uploads.Keys| + |PendingOnly(s)|
    ensures |ActiveKeysOf(s, pubkey)| == |KeysOf(s.uploads.Keys, pubkey)| + |KeysOf(PendingOnly(s), pubkey)|
  {
    UnionSize(s.uploads.Keys, s.pending.Keys);
    KeysOfUnion(s.uploads.Keys, s.pending.Keys, pubkey);
  }

  /** Which limit, if any, refuses a key: an active key never meets one; a new key meets the global
      limit first and then its owner's, each only once that many keys are active already. */
  ghost predicate ReservationIs(r: Reservation, uploads: map<ChunkUploadKey, ChunkUpload>,
                                pending: map<ChunkUploadKey, pos>, limits: SessionLimits, key: ChunkUploadKey)
  {
    var active := uploads.Keys + pending.Keys;
    var own := set k | k in active && k.pubkey == key.pubkey;
    && (r == Granted <==>
        key in active || (|active| < limits.maxSessions && |own| < limits.maxSessionsPerPubkey))
    && (r == GlobalLimit <==> key !in active && |active| >= limits.maxSessions)
    && (r == PerPubkeyLimit <==>
        key !in active && |active| < limits.maxSessions && |own| >= limits.maxSessionsPerPubkey)
  }

  lemma ReservationMeets(r: Reservation, s: SessionState, limits: SessionLimits, key: ChunkUploadKey)
    requires r == if key in ActiveKeys(s) then Granted
                  else if |ActiveKeys(s)| >= limits.maxSessions then GlobalLimit
                  else if |ActiveKeysOf(s, key.pubkey)| >= limits.maxSessionsPerPubkey then PerPubkeyLimit
                  else Granted
    ensures ReservationIs(r, s.uploads, s.pending, limits, key)
  {
    var active := s.uploads.Keys + s.pending.Keys;
    hide KeysOf;
    OwnKeys(active, key.pubkey, set k | k in active && k.pubkey == key.pubkey);
  }

  lemma OwnKeys(active: set<ChunkUploadKey>, pubkey: Pubkey, own: set<ChunkUploadKey>)
    requires own == set k | k in active && k.pubkey == pubkey
    ensures KeysOf(active, pubkey) == own
  {
  }

  lemma ReserveAnswer(s: SessionState, limits: SessionLimits, key: ChunkUploadKey)
    ensures ReservationIs(ReserveStep(s, limits, key).1, s.uploads, s.pending, limits, key)
  {
    hide ReservationIs, ActiveKeysOf;
    ReservationMeets(ReserveStep(s, limits, key).1, s, limits, key);
  }

  /** A reservation is refused for its own limit and only then; a refusal changes nothing, and a grant
      adds one ticket of its key. */
  lemma ReserveIsExact(s: SessionState, limits: SessionLimits, key: ChunkUploadKey)
    ensures var (s', r) := ReserveStep(s, limits, key);
            && ReservationIs(r, s.uploads, s.pending, limits, key)
            && (r != Granted ==> s' == s)
            && s'.uploads == s.uploads
            && (r == Granted ==>
                  s'.pending == s.pending[key := (if key in s.pending then s.pending[key] else 0) + 1])
  {
    hide ReservationIs, ActiveKeysOf;
    ReserveAnswer(s, limits, key);
  }

  /** Giving a ticket back touches no session and no other key's tickets. */
  lemma ConsumeIsExact(s: SessionState, key: ChunkUploadKey)
    ensures var s' := ConsumeStep(s, key);
            && s'.uploads == s.uploads
            && (key in s'.pending <==> key in s.pending && s.pending[key] > 1)
            && (key in s'.pending ==> s'.pending[key] == s.pending[key] - 1)
            && forall k :: k != key ==> (k in s'.pending <==> k in s.pending)
                                        && (k in s.pending ==> s'.pending[k] == s.pending[k])
  {
  }

  /** Sessions old enough to be evicted and not protected by an in-flight body. The age is
      measured from the session's creation. */
  function Stale(s: SessionState, age: nat, now: nat): set<ChunkUploadKey> {
    set k | k in s.uploads && k !in s.pending && SaturatingSub(now, s.uploads[k].createdAt) >= age
  }

  function EvictStep(s: SessionState, age: nat, now: nat): SessionState {
    s.(uploads := s.uploads - Stale(s, age, now))
  }

  /** A session leaves exactly when no request holds a ticket of its key and it was created at least
      `age` ago; whoever stays is unchanged, and no ticket is touched. */
  lemma EvictionIsExact(s: SessionState, age: nat, now: nat)
    ensures var s' := EvictStep(s, age, now);
            && s'.pending == s.pending && s'.uploads.Keys <= s.uploads.Keys
            && forall k :: k in s.uploads ==>
                 && (k in s'.uploads <==> k in s.pending || (0 < age && now < s.uploads[k].createdAt + age))
                 && (k in s'.uploads ==> s'.uploads[k] == s.uploads[k])
  {
  }

  /** `order` lists `keys` without repetition. */
  ghost predicate Enumerates(order: seq<ChunkUploadKey>, keys: set<ChunkUploadKey>) {
    && (forall k :: k in order <==> k in keys)
    && (forall i, j :: 0 <= i < j < |order| ==> order[i] != order[j])
  }

  // ----- the registry -----

  class ChunkSessions {
    var uploads: map<ChunkUploadKey, ChunkUpload>
    var pending: map<ChunkUploadKey, pos>
    const limits: SessionLimits

    ghost function State(): SessionState
      reads this
    {
      SessionState(uploads, pending)
    }

    constructor (limits: SessionLimits)
      ensures State() == SessionState(map[], map[]) && this.limits == limits
    {
      uploads, pending := map[], map[];
      this.limits := limits;
    }

    method Reserve(key: ChunkUploadKey) returns (r: Reservation)
      modifies this
      ensures (State(), r) == ReserveStep(old(State()), limits, key)
      ensures ReservationIs(r, old(uploads), old(pending), limits, key)
      ensures uploads == old(uploads)
      ensures pending == if r != Granted then old(pending)
                         else old(pending)[key := (if key in old(pending) then old(pending)[key] else 0) + 1]
    {
      hide ReservationIs;
      ReserveIsExact(State(), limits, key);
      if key in uploads || key in pending {
        pending := pending[key := (if key in pending then pending[key] else 0) + 1];
        return Granted;
      }
      var pendingWithoutUpload := pending.Keys - uploads.Keys;
      CountsAddUp(State(), key.pubkey);
      if |uploads.Keys| + |pendingWithoutUpload| >= limits.maxSessions {
        return GlobalLimit;
      }
      if |KeysOf(uploads.Keys, key.pubkey)|
        + |KeysOf(pendingWithoutUpload, key.pubkey)| >= limits.maxSessionsPerPubkey {
        return PerPubkeyLimit;
      }
      pending := pending[key := 1];
      return Granted;
    }

    method ConsumeReservation(key: ChunkUploadKey) returns (held: bool)
      modifies this
      ensures State() == ConsumeStep(old(State()), key)
      ensures held <==> key in old(pending)
      ensures uploads == old(uploads)
      ensures key in pending <==> key in old(pending) && old(pending)[key] > 1
      ensures key in pending ==> pending[key] == old(pending)[key] - 1
      ensures forall k :: k != key ==> (k in pending <==> k in old(pending))
                                       && (k in pending ==> pending[k] == old(pending)[k])
    {
      if key !in pending {
        return false;
      }
      if pending[key] == 1 {
        pending := pending - {key};
      } else {
        pending := pending[key := pending[key] - 1];
      }
      return true;
    }

    method Release(key: ChunkUploadKey)
      modifies this
      ensures State() == ConsumeStep(old(State()), key)
      ensures uploads == old(uploads)
      ensures key in pending <==> key in old(pending) && old(pending)[key] > 1
      ensures key in pending ==> pending[key] == old(pending)[key] - 1
      ensures forall k :: k != key ==> (k in pending <==> k in old(pending))
                                       && (k in pending ==> pending[k] == old(pending)[k])
    {
      var _ := ConsumeReservation(key);
    }

    method Append(key: ChunkUploadKey, params: SessionParams, chunk: ChunkInfo, now: nat) returns (r: Commit)
      modifies this
      ensures (State(), r) == CommitStep(old(State()), key, params, chunk, now)
      ensures key !in old(pending) ==> r == ParamMismatch
      ensures key in old(pending) && key !in old(uploads) ==> r.Incomplete? || r.Complete?
      ensures key in old(pending) && key in old(uploads) ==>
                var u := old(uploads)[key];
                (r == ParamMismatch <== u.uploadType != params.uploadType || u.uploadLength != params.uploadLength)
      ensures r.Incomplete? ==> key in uploads
      ensures r.Complete? ==> key !in uploads
      ensures r.Incomplete? || r.Complete? ==>
                var u := if r.Complete? then r.upload else uploads[key];
                u == if key in old(uploads) then old(uploads)[key].(chunks := old(uploads)[key].chunks + [chunk])
                     else ChunkUpload(params.sha256, params.owner, params.uploadType, params.uploadLength, [chunk],
                                      now, params.expiration)
    {
      var held := ConsumeReservation(key);
      if !held {
        return ParamMismatch;
      }
      if key !in uploads {
        uploads := uploads[key := FreshUpload(params, now)];
      }
      var upload := uploads[key];
      assert uploads == ConsumeStep(old(State()), key).uploads[key := upload];
      if upload.uploadType != params.uploadType || upload.uploadLength != params.uploadLength {
        return ParamMismatch;
      }
      if OverlapsAny(chunk, upload.chunks) {
        return Overlap;
      }
      var newTotal := CheckedTotalWith(upload.chunks, chunk);
      if newTotal.None? {
        return ParamMismatch;
      }
      upload := upload.(chunks := upload.chunks + [chunk]);
      uploads := uploads[key := upload];
      assert uploads == ConsumeStep(old(State()), key).uploads[key := upload];
      if newTotal.value == upload.uploadLength {
        uploads := uploads - {key};
        assert uploads == ConsumeStep(old(State()), key).uploads - {key};
        return Complete(upload);
      }
      return Incomplete;
    }

    method Restore(key: ChunkUploadKey, upload: ChunkUpload) returns (restored: bool)
      modifies this
      ensures (State(), restored) == RestoreStep(old(State()), key, upload)
      ensures restored <==> key !in old(uploads) && key !in old(pending)
      ensures pending == old(pending)
      ensures uploads == if restored then old(uploads)[key := upload] else old(uploads)
    {
      if key in uploads || key in pending {
        return false;
      }
      uploads := uploads[key := upload];
      return true;
    }

    /** Drops the stale sessions and hands them back, in the map's own unspecified order. */
    method EvictOlderThan(age: nat, now: nat) returns (evicted: seq<ChunkUpload>, ghost order: seq<ChunkUploadKey>)
      modifies this
      ensures State() == EvictStep(old(State()), age, now)
      ensures pending == old(pending) && uploads.Keys <= old(uploads).Keys
      ensures forall k :: k in old(uploads) ==>
                && (k in uploads <==> k in old(pending) || (0 < age && now < old(uploads)[k].createdAt + age))
                && (k in uploads ==> uploads[k] == old(uploads)[k])
      ensures Enumerates(order, Stale(old(State()), age, now))
      ensures |evicted| == |order| && forall i :: 0 <= i < |order| ==>
                order[i] in old(uploads) && evicted[i] == old(uploads)[order[i]]
    {
      evicted, order := [], [];
      ghost var was := State();
      EvictionIsExact(was, age, now);
      var visit := uploads.Keys;
      while visit != {}
        invariant visit <= was.uploads.Keys && pending == was.pending
        invariant Enumerates(order, Stale(was, age, now) - visit)
        invariant |evicted| == |order| && forall i :: 0 <= i < |order| ==>
                    order[i] in was.uploads && evicted[i] == was.uploads[order[i]]
        invariant uploads == was.uploads - (Stale(was, age, now) - visit)
        decreases visit
      {
        var key :| key in visit;
        var upload := uploads[key];
        if !(key in pending || SaturatingSub(now, upload.createdAt) < age) {
          evicted := evicted + [upload];
          order := order + [key];
          uploads := uploads - {key};
        }
        visit := visit - {key};
      }
    }
  }

  // ----- what the transitions promise -----

  /** A stored session: its chunks are packed and still fall short of the declared length. */
  ghost predicate Stored(u: ChunkUpload) {
    Packed(u.chunks, u.uploadLength) && SumLengths(u.chunks) < u.uploadLength
  }

  ghost predicate AllStored(s: SessionState) {
    forall k :: k in s.uploads ==> Stored(s.uploads[k])
  }

  /** A completed upload: packed, covering, and one chunk away from a session that may be stored. */
  ghost predicate Completed(u: ChunkUpload) {
    && Packed(u.chunks, u.uploadLength)
    && SumLengths(u.chunks) == u.uploadLength
    && u.chunks != []
    && Stored(WithoutLast(u))
  }

  function WithoutLast(u: ChunkUpload): ChunkUpload {
    if u.chunks == [] then u else u.(chunks := u.chunks[..|u.chunks| - 1])
  }

  lemma {:induction false} CheckedTotalIsSum(chunks: seq<ChunkInfo>, total: u64)
    requires total + SumLengths(chunks) < U64_LIMIT
    ensures CheckedTotal(chunks, total) == Some(total + SumLengths(chunks))
  {
    if chunks != [] {
      CheckedTotalIsSum(chunks[1..], total + chunks[0].length);
    }
  }

  /** For chunks that fit, the saturating comparison is exactly "these ranges intersect". */
  lemma OverlapIsIntersection(c: ChunkInfo, d: ChunkInfo, total: u64)
    requires Fits(c, total) && Fits(d, total)
    ensures Overlaps(c, d) <==> !Apart(c, d)
    ensures Overlaps(c, d) <==> exists p: nat :: Covers(c, p) && Covers(d, p)
  {
    if !Apart(c, d) {
      var p := if c.offset <= d.offset then d.offset else c.offset;
      assert Covers(c, p) && Covers(d, p);
    }
  }

  lemma PackedExtends(chunks: seq<ChunkInfo>, chunk: ChunkInfo, total: u64)
    requires Packed(chunks, total) && Fits(chunk, total)
    requires !OverlapsAny(chunk, chunks)
    ensures Packed(chunks + [chunk], total)
    ensures SumLengths(chunks + [chunk]) == SumLengths(chunks) + chunk.length <= total
  {
    var all := chunks + [chunk];
    forall i, j | 0 <= i < j < |all| ensures Apart(all[i], all[j]) {
      if j == |chunks| {
        OverlapIsIntersection(chunk, chunks[i], total);
      }
    }
    SumAppend(chunks, [chunk]);
    SumDecidesTiling(all, total);
  }

  /** The session a commit appends to: the stored one, or a fresh one with the request's parameters. */
  function Target(s: SessionState, key: ChunkUploadKey, params: SessionParams, now: nat): ChunkUpload {
    if key in s.uploads then s.uploads[key] else FreshUpload(params, now)
  }

  ghost predicate Agrees(u: ChunkUpload, params: SessionParams) {
    u.uploadType == params.uploadType && u.uploadLength == params.uploadLength
  }

  /** Some byte of the upload is already held by a stored chunk. */
  ghost predicate SharesAByte(chunk: ChunkInfo, chunks: seq<ChunkInfo>) {
    exists i, p: nat :: 0 <= i < |chunks| && Covers(chunk, p) && Covers(chunks[i], p)
  }

  lemma SharesAByteOf(chunk: ChunkInfo, chunks: seq<ChunkInfo>)
    ensures SharesAByte(chunk, chunks) <==> exists c, p: nat :: c in chunks && Covers(chunk, p) && Covers(c, p)
  {
    if SharesAByte(chunk, chunks) {
      var i, p: nat :| 0 <= i < |chunks| && Covers(chunk, p) && Covers(chunks[i], p);
      assert chunks[i] in chunks;
    }
  }

  lemma OverlapTestIsExact(chunk: ChunkInfo, chunks: seq<ChunkInfo>, total: u64)
    requires Packed(chunks, total) && Fits(chunk, total)
    ensures OverlapsAny(chunk, chunks) <==> SharesAByte(chunk, chunks)
  {
    forall i | 0 <= i < |chunks|
      ensures Overlaps(chunk, chunks[i]) <==> exists p: nat :: Covers(chunk, p) && Covers(chunks[i], p)
    {
      OverlapIsIntersection(chunk, chunks[i], total);
    }
  }

  /** A ticket holder's commit of an admitted chunk is refused only for a disagreement with the
      stored parameters (never for a missing ticket or an overflowing total) or for a byte the
      session really holds already; a refusal stores nothing. */
  lemma CommitRefusals(s: SessionState, key: ChunkUploadKey, params: SessionParams, chunk: ChunkInfo, now: nat)
    requires AllStored(s) && key in s.pending && Fits(chunk, params.uploadLength)
    ensures var (s', r) := CommitStep(s, key, params, chunk, now); var u := Target(s, key, params, now);
            var agrees := u.uploadType == params.uploadType && u.uploadLength == params.uploadLength;
            && (r.ParamMismatch? <==> !agrees)
            && (r.Overlap? <==> agrees && exists c, p: nat :: c in u.chunks && Covers(chunk, p) && Covers(c, p))
            && (r.Overlap? || r.ParamMismatch? ==> s' == ConsumeStep(s, key))
  {
    var upload := Target(s, key, params, now);
    SharesAByteOf(chunk, upload.chunks);
    assert Stored(upload);
    if key in s.uploads {
      assert s.uploads[key := upload] == s.uploads;
    }
    if Agrees(upload, params) {
      OverlapTestIsExact(chunk, upload.chunks, upload.uploadLength);
      if SharesAByte(chunk, upload.chunks) {
        assert key in s.uploads;
      } else {
        PackedExtends(upload.chunks, chunk, upload.uploadLength);
        CheckedTotalIsSum(upload.chunks, 0);
      }
    }
  }

  lemma CommitRefused(s: SessionState, key: ChunkUploadKey, params: SessionParams, chunk: ChunkInfo, now: nat)
    requires AllStored(s) && key in s.pending && Fits(chunk, params.uploadLength)
    requires var u := Target(s, key, params, now); !Agrees(u, params) || SharesAByte(chunk, u.chunks)
    ensures var (s', r) := CommitStep(s, key, params, chunk, now);
            (r.Overlap? || r.ParamMismatch?) && s' == ConsumeStep(s, key)
  {
    hide CommitStep, ConsumeStep, SharesAByte, Covers;
    CommitRefusals(s, key, params, chunk, now);
    SharesAByteOf(chunk, Target(s, key, params, now).chunks);
  }

  /** An accepted chunk is appended. Completion removes the session and means its chunks, in
      offset order, tile the declared length exactly; otherwise they still fall short of it. */
  lemma CommitAccepts(s: SessionState, key: ChunkUploadKey, params: SessionParams, chunk: ChunkInfo, now: nat)
    requires AllStored(s) && key in s.pending && Fits(chunk, params.uploadLength)
    requires var u := Target(s, key, params, now); Agrees(u, params) && !SharesAByte(chunk, u.chunks)
    ensures var (s', r) := CommitStep(s, key, params, chunk, now); var u := Target(s, key, params, now);
            var extended := u.(chunks := u.chunks + [chunk]);
            && (r == Complete(extended) || r == Incomplete)
            && (r.Complete? <==> Tiles(InOffsetOrder(extended.chunks), 0, params.uploadLength))
            && (r.Complete? ==> Completed(extended) && s' == ConsumeStep(s, key).(uploads := s.uploads - {key}))
            && (r.Incomplete? ==> Stored(extended) && s' == ConsumeStep(s, key).(uploads := s.uploads[key := extended]))
  {
    var upload := Target(s, key, params, now);
    assert Stored(upload);
    OverlapTestIsExact(chunk, upload.chunks, upload.uploadLength);
    PackedExtends(upload.chunks, chunk, upload.uploadLength);
    CheckedTotalIsSum(upload.chunks, 0);
    var extended := upload.(chunks := upload.chunks + [chunk]);
    assert WithoutLast(extended) == upload;
    SumDecidesTiling(extended.chunks, upload.uploadLength);
  }

  /** No transition of the registry ever stores a session that is not packed and short. */
  lemma RegistryStaysPacked(s: SessionState, key: ChunkUploadKey, params: SessionParams, chunk: ChunkInfo, now: nat)
    requires AllStored(s) && key in s.pending && Fits(chunk, params.uploadLength)
    ensures AllStored(CommitStep(s, key, params, chunk, now).0)
  {
    var u := Target(s, key, params, now);
    CommitRefusals(s, key, params, chunk, now);
    if Agrees(u, params) && !SharesAByte(chunk, u.chunks) {
      CommitAccepts(s, key, params, chunk, now);
    }
  }

  /** Eviction goes by the session's creation, not by its last activity: a chunk stored this very
      moment saves its session exactly when the session is younger than the age. */
  lemma ActivityDoesNotRenew(s: SessionState, key: ChunkUploadKey, params: SessionParams, chunk: ChunkInfo, now: nat,
                             age: nat)
    requires key in s.uploads && Tickets(s, key) == 1 && CommitStep(s, key, params, chunk, now).1.Incomplete?
    ensures key in EvictStep(CommitStep(s, key, params, chunk, now).0, age, now).uploads
            <==> SaturatingSub(now, s.uploads[key].createdAt) < age
  {
    hide OverlapsAny, CheckedTotalWith;
  }
}

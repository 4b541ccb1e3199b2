/** What every run of the chunked-upload protocol guarantees. */
module UploadTheorems {
  import opened Prelude
  import opened Sorting
  import opened Tiling
  import opened ChunkSessions
  import opened Reconstruction
  import opened UploadProtocol

  // ----- one event -----

  lemma CommitBalances(w: World, id: nat, now: nat)
    requires TicketsBalance(w)
    ensures TicketsBalance(CommitChunkStep(w, id, now))
  {
    var t := At(w, id);
    if t.Streamed? {
      ATicketIsPending(w, id, t.req.key);
      CommitConsumesTicket(w.sessions, t.req.key, t.req.params, ChunkOf(t.req, t.path), now);
      var w' := CommitChunkStep(w, id, now);
      TicketsAfter(w, id, w'.tasks[id], w');
    }
  }

  lemma ReleaseBalances(w: World, id: nat)
    requires TicketsBalance(w) && (At(w, id).Reserved? || At(w, id).Releasing?)
    ensures TicketsBalance(ReleaseStep(w, id))
  {
    ATicketIsPending(w, id, At(w, id).req.key);
    TicketsAfter(w, id, Done, ReleaseStep(w, id));
  }

  lemma ReserveAddsTicket(s: SessionState, limits: SessionLimits, key: ChunkUploadKey, k: ChunkUploadKey)
    ensures var (s', r) := ReserveStep(s, limits, key);
            Tickets(s', k) == Tickets(s, k) + (if r.Granted? && k == key then 1 else 0)
  {
  }

  lemma BeginAddsTicket(w: World, limits: ServerLimits, id: nat, h: Headers, k: ChunkUploadKey)
    requires id !in w.tasks
    ensures var w' := BeginStep(w, limits, id, h);
            Tickets(w'.sessions, k) == Tickets(w.sessions, k) + (if HoldsTicket(w'.tasks[id], k) then 1 else 0)
  {
    ReserveAddsTicket(w.sessions, limits.sessions, RequestOf(h).key, k);
    hide ReserveStep, Tickets, Admission;
  }

  lemma BeginBalances(w: World, limits: ServerLimits, id: nat, h: Headers)
    requires TicketsBalance(w)
    ensures TicketsBalance(BeginStep(w, limits, id, h))
  {
    if id !in w.tasks {
      var w' := BeginStep(w, limits, id, h);
      hide ReserveStep, Admission, Tickets, HoldsTicket, TicketHolders;
      forall k ensures Tickets(w'.sessions, k) == Tickets(w.sessions, k)
        + (if HoldsTicket(w'.tasks[id], k) then 1 else 0) {
        BeginAddsTicket(w, limits, id, h, k);
      }
      assert w'.tasks == w.tasks[id := w'.tasks[id]];
      NoTicketAt(w, id);
      TicketsAfter(w, id, w'.tasks[id], w');
    }
  }

  lemma NoTicketAt(w: World, id: nat)
    requires id !in w.tasks
    ensures forall k :: !HoldsTicket(At(w, id), k)
  {
  }

  ghost predicate TradesTickets(e: Event) {
    e.Begin? || e.Decline? || e.GiveBack? || e.CommitChunk?
  }

  /** The pending counts stay, and so does who holds a ticket. */
  ghost predicate TicketsUntouched(w: World, w': World) {
    && w'.sessions.pending == w.sessions.pending
    && forall id: nat, key :: HoldsTicket(At(w', id), key) == HoldsTicket(At(w, id), key)
  }

  lemma BodyEventsQuiet(w: World, limits: ServerLimits, e: Event)
    requires e.Create? || e.Write? || e.EndBody? || e.Unlink?
    ensures TicketsUntouched(w, Apply(w, limits, e))
  {
  }

  lemma SettlingEventsQuiet(w: World, limits: ServerLimits, e: Event)
    requires e.Charge? || e.TryRestore? || e.Assemble?
    ensures TicketsUntouched(w, Apply(w, limits, e))
  {
    hide LateNoContent, CoverageError, InOffsetOrder;
  }

  lemma CleanupEventsQuiet(w: World, limits: ServerLimits, e: Event)
    requires e.Discard? || e.Evict?
    ensures TicketsUntouched(w, Apply(w, limits, e))
  {
    hide ChunksOf, Stale, Enumerates;
  }

  lemma QuietEvents(w: World, limits: ServerLimits, e: Event)
    requires !TradesTickets(e)
    ensures TicketsUntouched(w, Apply(w, limits, e))
  {
    hide Apply, TicketsUntouched;
    if e.Discard? || e.Evict? {
      CleanupEventsQuiet(w, limits, e);
    } else if e.Charge? || e.TryRestore? || e.Assemble? {
      SettlingEventsQuiet(w, limits, e);
    } else {
      BodyEventsQuiet(w, limits, e);
    }
  }

  lemma OtherEventsBalance(w: World, limits: ServerLimits, e: Event)
    requires TicketsBalance(w) && !TradesTickets(e)
    ensures TicketsBalance(Apply(w, limits, e))
  {
    var w' := Apply(w, limits, e);
    QuietEvents(w, limits, e);
    hide Apply, HoldsTicket;
    NoTicketAnywhere();
    forall key ensures TicketHolders(w', key) == TicketHolders(w, key) {
      forall id: nat ensures id in TicketHolders(w, key) <==> HoldsTicket(At(w, id), key) {
      }
      forall id: nat ensures id in TicketHolders(w', key) <==> HoldsTicket(At(w', id), key) {
      }
    }
  }

  lemma NoTicketAnywhere()
    ensures forall key :: !HoldsTicket(Done, key)
  {
  }

  lemma TicketsStayBalanced(w: World, limits: ServerLimits, e: Event)
    requires TicketsBalance(w)
    ensures TicketsBalance(Apply(w, limits, e))
  {
    match e
    case Begin(id, h) => BeginBalances(w, limits, id, h);
    case Decline(id) => if At(w, id).Reserved? { ReleaseBalances(w, id); }
    case GiveBack(id) => if At(w, id).Releasing? { ReleaseBalances(w, id); }
    case CommitChunk(id, now) => CommitBalances(w, id, now);
    case _ => OtherEventsBalance(w, limits, e);
  }

  lemma EventKeepsFiles(w: World, o: Owners, limits: ServerLimits, e: Event) returns (o': Owners)
    requires Sound(w, o) && TicketsBalance(w)
    ensures Sound(Apply(w, limits, e), o')
  {
    o' := o;
    match e {
      case Begin(id, h) => BeginKeeps(w, o, limits, id, h);
      case Decline(id) => if At(w, id).Reserved? { ReleaseKeeps(w, o, id); }
      case Create(id, path) => o' := CreateKeeps(w, o, id, path);
      case Write(id, bytes) => WriteKeeps(w, o, id, bytes);
      case EndBody(id, ok) => EndBodyKeeps(w, o, id, ok);
      case Unlink(id) => o' := UnlinkKeeps(w, o, id);
      case GiveBack(id) => if At(w, id).Releasing? { ReleaseKeeps(w, o, id); }
      case CommitChunk(id, now) => o' := CommitKeeps(w, o, id, now);
      case Charge(id, accepted) => ChargeKeeps(w, o, id, accepted);
      case TryRestore(id) => o' := TryRestoreKeeps(w, o, id);
      case Assemble(id, tempDirOk) => o' := AssembleKeeps(w, o, id, tempDirOk);
      case Discard(id) => o' := DiscardKeeps(w, o, id);
      case Evict(id, order, age, now) => o' := EvictKeeps(w, o, id, order, age, now);
    }
  }

  // ----- capacity -----

  /** Only a restore grows the active keys without a capacity check, and each adds one. */
  ghost predicate WithinCapacity(w: World, limits: ServerLimits) {
    && |ActiveKeys(w.sessions)| <= limits.sessions.maxSessions + w.restores
    && forall pk :: |ActiveKeysOf(w.sessions, pk)| <= limits.sessions.maxSessionsPerPubkey + w.restores
  }

  lemma SubsetBounds(s: SessionState, s': SessionState)
    requires ActiveKeys(s') <= ActiveKeys(s)
    ensures |ActiveKeys(s')| <= |ActiveKeys(s)|
    ensures forall pk :: |ActiveKeysOf(s', pk)| <= |ActiveKeysOf(s, pk)|
  {
    SubsetSize(ActiveKeys(s'), ActiveKeys(s));
    forall pk ensures |ActiveKeysOf(s', pk)| <= |ActiveKeysOf(s, pk)| {
      SubsetSize(ActiveKeysOf(s', pk), ActiveKeysOf(s, pk));
    }
  }

  lemma SubsetSize<T>(a: set<T>, b: set<T>)
    requires a <= b
    ensures |a| <= |b|
  {
    assert b == a + (b - a);
  }

  lemma OneMoreKeyOf(s: SessionState, s': SessionState, key: ChunkUploadKey, pk: Pubkey)
    requires key !in ActiveKeys(s) && ActiveKeys(s') == ActiveKeys(s) + {key}
    ensures |ActiveKeysOf(s', pk)| == |ActiveKeysOf(s, pk)| + (if pk == key.pubkey then 1 else 0)
  {
    if pk == key.pubkey {
      assert ActiveKeysOf(s', pk) == ActiveKeysOf(s, pk) + {key};
    } else {
      assert ActiveKeysOf(s', pk) == ActiveKeysOf(s, pk);
    }
  }

  lemma OneMoreKey(s: SessionState, s': SessionState, key: ChunkUploadKey)
    requires key !in ActiveKeys(s) && ActiveKeys(s') == ActiveKeys(s) + {key}
    ensures |ActiveKeys(s')| == |ActiveKeys(s)| + 1
    ensures forall pk :: |ActiveKeysOf(s', pk)| == |ActiveKeysOf(s, pk)| + (if pk == key.pubkey then 1 else 0)
  {
    forall pk ensures |ActiveKeysOf(s', pk)| == |ActiveKeysOf(s, pk)| + (if pk == key.pubkey then 1 else 0) {
      OneMoreKeyOf(s, s', key, pk);
    }
  }

  lemma ReserveWithinCapacity(w: World, limits: ServerLimits, id: nat, h: Headers)
    requires WithinCapacity(w, limits)
    ensures WithinCapacity(BeginStep(w, limits, id, h), limits)
  {
    var key := RequestOf(h).key;
    var (s, r) := ReserveStep(w.sessions, limits.sessions, key);
    if r.Granted? && key !in ActiveKeys(w.sessions) {
      OneMoreKey(w.sessions, s, key);
    } else {
      SubsetBounds(w.sessions, s);
    }
  }

  lemma CommitAddsNoKey(s: SessionState, key: ChunkUploadKey, params: SessionParams, chunk: ChunkInfo, now: nat)
    ensures ActiveKeys(CommitStep(s, key, params, chunk, now).0) <= ActiveKeys(s)
  {
  }

  lemma EventKeepsCapacity(w: World, limits: ServerLimits, e: Event)
    requires WithinCapacity(w, limits)
    ensures WithinCapacity(Apply(w, limits, e), limits)
  {
    var w' := Apply(w, limits, e);
    match e
    case Begin(id, h) => ReserveWithinCapacity(w, limits, id, h);
    case TryRestore(id) => RestoreWithinCapacity(w, limits, id);
    case _ =>
      AddsNoKey(w, limits, e);
      SubsetBounds(w.sessions, w'.sessions);
  }

  lemma RestoreWithinCapacity(w: World, limits: ServerLimits, id: nat)
    requires WithinCapacity(w, limits)
    ensures WithinCapacity(TryRestoreStep(w, id), limits)
  {
    var w' := TryRestoreStep(w, id);
    if w'.restores != w.restores {
      OneMoreKey(w.sessions, w'.sessions, At(w, id).req.key);
    }
  }

  lemma CommitChunkAddsNoKey(w: World, id: nat, now: nat)
    ensures ActiveKeys(CommitChunkStep(w, id, now).sessions) <= ActiveKeys(w.sessions)
  {
    if At(w, id).Streamed? {
      var t := At(w, id);
      CommitAddsNoKey(w.sessions, t.req.key, t.req.params, ChunkOf(t.req, t.path), now);
    }
  }

  lemma AddsNoKey(w: World, limits: ServerLimits, e: Event)
    requires !e.Begin? && !e.TryRestore?
    ensures ActiveKeys(Apply(w, limits, e).sessions) <= ActiveKeys(w.sessions)
  {
    if e.CommitChunk? {
      CommitChunkAddsNoKey(w, e.id, e.now);
    }
  }

  // ----- every run -----

  /** The invariant of all runs, with the attribution of files as its witness. */
  lemma {:induction false} EveryRun(limits: ServerLimits, events: seq<Event>) returns (o: Owners)
    ensures var w := Reach(limits, events); Sound(w, o) && TicketsBalance(w) && WithinCapacity(w, limits)
  {
    if events == [] {
      o := map[];
      var w := Initial();
      assert forall key :: TicketHolders(w, key) == {};
      assert ActiveKeys(w.sessions) == {} && forall pk :: ActiveKeysOf(w.sessions, pk) == {};
      forall h ensures OwnedBy(o, h) == {} {
      }
    } else {
      var n := |events| - 1;
      o := EveryRun(limits, events[..n]);
      var w := Reach(limits, events[..n]);
      TicketsStayBalanced(w, limits, events[n]);
      EventKeepsCapacity(w, limits, events[n]);
      o := EventKeepsFiles(w, o, limits, events[n]);
    }
  }

  /** Capacity and ticket discipline: in every run the pending count of a key is the number of
      requests holding a ticket for it, so a ticket holder's commit always finds its reservation;
      and active keys exceed their limits by at most the number of successful restores. */
  lemma TicketsAndCapacity(limits: ServerLimits, events: seq<Event>)
    ensures var w := Reach(limits, events);
            && (forall key :: Tickets(w.sessions, key) == |TicketHolders(w, key)|)
            && (forall id :: id in w.tasks && w.tasks[id].Streamed? ==> w.tasks[id].req.key in w.sessions.pending)
            && |ActiveKeys(w.sessions)| <= limits.sessions.maxSessions + w.restores
            && (forall pk :: |ActiveKeysOf(w.sessions, pk)| <= limits.sessions.maxSessionsPerPubkey + w.restores)
  {
    var w := Reach(limits, events);
    var _ := EveryRun(limits, events);
    forall id | id in w.tasks && w.tasks[id].Streamed? ensures w.tasks[id].req.key in w.sessions.pending {
      ATicketIsPending(w, id, w.tasks[id].req.key);
    }
  }

  /** The registry's half of the tiling theorem, over all interleavings: stored sessions always
      fall short of their length, and an upload handed out as complete tiles it exactly, so the
      late `204` answers and the coverage errors of reconstruction never happen. */
  lemma CompletedUploadsTile(limits: ServerLimits, events: seq<Event>)
    ensures var w := Reach(limits, events);
            && (forall k :: k in w.sessions.uploads ==> Stored(w.sessions.uploads[k]))
            && (forall id ::
                  id in w.tasks && (w.tasks[id].Paying? || w.tasks[id].Refused? || w.tasks[id].Assembling?) ==>
                  var u := w.tasks[id].upload;
                  && Tiles(InOffsetOrder(u.chunks), 0, u.uploadLength)
                  && !LateNoContent(u, u.uploadLength)
                  && CoverageError(InOffsetOrder(u.chunks), 0, u.uploadLength).None?)
            && (forall id :: id in w.tasks && w.tasks[id].Paying? ==>
                  w.tasks[id].upload.uploadLength == w.tasks[id].req.params.uploadLength)
  {
    var w := Reach(limits, events);
    var o := EveryRun(limits, events);
    forall id | id in w.tasks && (w.tasks[id].Paying? || w.tasks[id].Refused? || w.tasks[id].Assembling?)
      ensures var u := w.tasks[id].upload;
              && Tiles(InOffsetOrder(u.chunks), 0, u.uploadLength)
              && !LateNoContent(u, u.uploadLength)
              && CoverageError(InOffsetOrder(u.chunks), 0, u.uploadLength).None?
    {
      assert TaskOk(At(w, id), w.files);
      var u := w.tasks[id].upload;
      SumDecidesTiling(u.chunks, u.uploadLength);
      CompletedIsNeverLate(u);
      CoverageIsTiling(InOffsetOrder(u.chunks), 0, u.uploadLength);
    }
    forall id | id in w.tasks
      && w.tasks[id].Paying? ensures w.tasks[id].upload.uploadLength == w.tasks[id].req.params.uploadLength {
      assert TaskOk(At(w, id), w.files);
    }
  }

  /** Everyone who lists a path: tasks still to deal with it, stored sessions, or nobody any more. */
  ghost function HoldersOf(w: World, p: Path): set<Holder> {
    (set id | id in w.tasks && p in Held(w.tasks[id]) :: ByTask(id))
    + (set k | k in w.sessions.uploads && p in PathsOf(w.sessions.uploads[k].chunks) :: BySession(k))
    + (if p in w.leaked then {Leaked} else {})
  }

  lemma TheHolder(w: World, o: Owners, p: Path)
    requires Attributed(w, o)
    ensures HoldersOf(w, p) == if p in o then {o[p]} else {}
  {
    forall h ensures h in HoldersOf(w, p) <==> p in OwnedBy(o, h) {
      match h
      case ByTask(id) => assert Held(At(w, id)) == OwnedBy(o, h);
      case BySession(k) => assert Listed(w.sessions, k) == OwnedBy(o, h);
      case Leaked =>
    }
    assert p in o ==> p in OwnedBy(o, o[p]);
  }

  /** Conservation of chunk files: in every run each file on disk has exactly one holder, and a
      path no longer (or not yet) on disk has none; so no file is unlinked while listed, and every
      file ever written is either on disk under one holder or deleted. */
  lemma ChunkFilesAreConserved(limits: ServerLimits, events: seq<Event>, p: Path)
    ensures var w := Reach(limits, events);
            |HoldersOf(w, p)| == (if p in w.files then 1 else 0) && w.files.Keys <= w.written
  {
    var o := EveryRun(limits, events);
    TheHolder(Reach(limits, events), o, p);
  }

  ghost predicate Quiescent(w: World) {
    forall id :: id in w.tasks ==> w.tasks[id].Done?
  }

  ghost predicate ListedInASession(w: World, p: Path) {
    exists k :: k in w.sessions.uploads && p in Listed(w.sessions, k)
  }

  lemma QuiescentHolders(w: World, o: Owners, p: Path)
    requires Attributed(w, o) && Quiescent(w)
    ensures p in w.files <==> p in w.leaked || ListedInASession(w, p)
  {
    forall id: nat ensures OwnedBy(o, ByTask(id)) == {} {
      assert Held(At(w, id)) == {};
    }
    assert p in o ==> p in OwnedBy(o, o[p]);
    assert forall k :: Listed(w.sessions, k) == OwnedBy(o, BySession(k));
    assert p in o && o[p].BySession? ==> p in Listed(w.sessions, o[p].key);
  }

  /** Once every request and cleanup has finished, the chunk files on disk are exactly those listed
      by stored sessions, with their declared lengths and no path listed twice, plus the leaked ones. */
  lemma QuiescentDiskMatchesSessions(limits: ServerLimits, events: seq<Event>)
    requires Quiescent(Reach(limits, events))
    ensures var w := Reach(limits, events);
            && (forall p :: p in w.files <==> p in w.leaked || ListedInASession(w, p))
            && (forall k :: k in w.sessions.uploads ==> OnDisk(w.sessions.uploads[k].chunks, w.files))
            && (forall k, l :: k != l ==> Listed(w.sessions, k) !! Listed(w.sessions, l))
  {
    var w := Reach(limits, events);
    var o := EveryRun(limits, events);
    forall p ensures p in w.files <==> p in w.leaked || ListedInASession(w, p) {
      QuiescentHolders(w, o, p);
    }
    forall k, l | k != l ensures Listed(w.sessions, k) !! Listed(w.sessions, l) {
      assert Listed(w.sessions, k) == OwnedBy(o, BySession(k)) && Listed(w.sessions, l) == OwnedBy(o, BySession(l));
    }
  }

  /** The one reachable branch that forgets its files: a paid upload whose temp directory cannot be made. */
  ghost predicate Forgets(w: World, e: Event) {
    e.Assemble? && !e.tempDirOk && At(w, e.id).Assembling?
  }

  lemma ForgettingLeaks(w: World, o: Owners, limits: ServerLimits, e: Event)
    requires Sound(w, o)
    ensures Apply(w, limits, e).leaked != {} <==> w.leaked != {} || Forgets(w, e)
  {
    if e.Assemble? && At(w, e.id).Assembling? {
      assert TaskOk(At(w, e.id), w.files);
      var u := At(w, e.id).upload;
      SumDecidesTiling(u.chunks, u.uploadLength);
      CoverageIsTiling(InOffsetOrder(u.chunks), 0, u.uploadLength);
      assert u.chunks[0] in u.chunks && u.chunks[0].path in PathsOf(u.chunks);
    }
  }

  ghost predicate ForgetsAt(limits: ServerLimits, events: seq<Event>, i: nat) {
    i < |events| && Forgets(Reach(limits, events[..i]), events[i])
  }

  lemma ForgetsAtPrefix(limits: ServerLimits, events: seq<Event>, n: nat, i: nat)
    requires i < n <= |events|
    ensures ForgetsAt(limits, events[..n], i) == ForgetsAt(limits, events, i)
  {
    assert events[..n][..i] == events[..i];
  }

  ghost predicate SomeForgets(limits: ServerLimits, events: seq<Event>) {
    exists i: nat :: ForgetsAt(limits, events, i)
  }

  lemma LastForgets(limits: ServerLimits, events: seq<Event>)
    requires events != []
    ensures var n := |events| - 1;
            SomeForgets(limits, events) <==>
            SomeForgets(limits, events[..n]) || Forgets(Reach(limits, events[..n]), events[n])
  {
    hide Reach, Forgets;
    var n := |events| - 1;
    forall i: nat | i < n ensures ForgetsAt(limits, events[..n], i) == ForgetsAt(limits, events, i) {
      ForgetsAtPrefix(limits, events, n, i);
    }
    assert ForgetsAt(limits, events, n) == Forgets(Reach(limits, events[..n]), events[n]);
  }

  lemma NothingLeaked(limits: ServerLimits)
    ensures Reach(limits, []).leaked == {} && !SomeForgets(limits, [])
  {
  }

  lemma ReachLast(limits: ServerLimits, events: seq<Event>)
    requires events != []
    ensures Reach(limits, events) == Apply(Reach(limits, events[..|events| - 1]), limits, events[|events| - 1])
  {
    hide Apply;
  }

  /** Chunk files leak exactly when some reconstruction failed to create the temp directory. */
  lemma {:induction false} LeaksExactlyOnTempDirFailure(limits: ServerLimits, events: seq<Event>)
    ensures Reach(limits, events).leaked != {} <==> SomeForgets(limits, events)
  {
    hide *;
    if events == [] {
      NothingLeaked(limits);
    } else {
      var n := |events| - 1;
      LeaksExactlyOnTempDirFailure(limits, events[..n]);
      var o := EveryRun(limits, events[..n]);
      ForgettingLeaks(Reach(limits, events[..n]), o, limits, events[n]);
      ReachLast(limits, events);
      LastForgets(limits, events);
    }
  }

  /** An event changes the contents of no file on disk except those its own task holds. */
  lemma OnlyOwnFilesChange(w: World, limits: ServerLimits, e: Event)
    requires w.files.Keys <= w.written
    ensures forall p :: p in w.files && p !in Held(At(w, e.id)) ==>
              p in Apply(w, limits, e).files && Apply(w, limits, e).files[p] == w.files[p]
  {
    var t := At(w, e.id);
    if t.Discarding? && t.chunks != [] {
      assert t.chunks[0].path in PathsOf(t.chunks);
    }
  }

  lemma OnlyOwnTaskMoves(w: World, limits: ServerLimits, e: Event, id: nat)
    requires e.id != id
    ensures At(Apply(w, limits, e), id) == At(w, id)
  {
  }

  /** Another task's event never touches a task's state or the contents of the files it holds. */
  lemma OthersLeaveMineAlone(w: World, o: Owners, limits: ServerLimits, e: Event, id: nat)
    requires Attributed(w, o) && e.id != id
    ensures At(Apply(w, limits, e), id) == At(w, id)
    ensures forall p :: p in Held(At(w, id)) ==>
              p in w.files && p in Apply(w, limits, e).files && Apply(w, limits, e).files[p] == w.files[p]
  {
    assert Held(At(w, id)) == OwnedBy(o, ByTask(id));
    assert Held(At(w, e.id)) == OwnedBy(o, ByTask(e.id));
    OnlyOwnFilesChange(w, limits, e);
    OnlyOwnTaskMoves(w, limits, e, id);
  }

  /** Whatever else runs meanwhile, a paid upload reassembles to its chunks in place: the files of a
      request in `Assembling` are intact, and only a digest mismatch can make it fail. */
  lemma PaidUploadsReassemble(limits: ServerLimits, events: seq<Event>, id: nat, sha256: seq<Byte> -> string,
                              expected: string)
    returns (body: seq<Byte>)
    requires At(Reach(limits, events), id).Assembling?
    ensures var w := Reach(limits, events); var u := At(w, id).upload;
            && |body| == u.uploadLength && Places(body, u.chunks, w.files)
            && Assembled(u, w.files, sha256, expected) == if sha256(body) == expected then Ok(body)
            else Err(HashMismatch)
  {
    var w := Reach(limits, events);
    var o := EveryRun(limits, events);
    assert TaskOk(At(w, id), w.files);
    body := CompletedReconstructs(At(w, id).upload, w.files, sha256, expected);
  }
}

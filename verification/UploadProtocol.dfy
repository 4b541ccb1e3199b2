/** Every interleaving of chunk requests and session eviction, one event per await-to-await
    segment, over the session registry and the chunk files on disk. */
module UploadProtocol {
  import opened Prelude
  import opened Sorting
  import opened Tiling
  import opened ChunkSessions
  import opened Reconstruction

  datatype Headers = Headers(
    sha256: string, pubkey: Pubkey, uploadType: string, uploadLength: u64,
    contentLength: u64, uploadOffset: u64, expiration: Option<u64>)

  datatype ServerLimits = ServerLimits(maxBlobSize: u64, maxChunkSize: u64, sessions: SessionLimits)

  datatype AdmissionError = EmptyChunk | UploadTooLong | ChunkTooLong | OffsetOverflows | ExceedsUpload

  function Admission(h: Headers, limits: ServerLimits): Option<AdmissionError> {
    if h.contentLength == 0 then Some(EmptyChunk)
    else if h.uploadLength == 0 || h.uploadLength > limits.maxBlobSize then Some(UploadTooLong)
    else if h.contentLength > limits.maxChunkSize then Some(ChunkTooLong)
    else
      var end := CheckedAdd(h.uploadOffset, h.contentLength);
      if end.None? then Some(OffsetOverflows)
      else if end.value > h.uploadLength then Some(ExceedsUpload)
      else None
  }

  datatype Request = Request(key: ChunkUploadKey, params: SessionParams, offset: u64, length: u64)

  function RequestOf(h: Headers): Request {
    Request(ChunkUploadKey(h.pubkey, h.sha256),
            SessionParams(h.sha256, h.pubkey, h.uploadType, h.uploadLength, h.expiration),
            h.uploadOffset, h.contentLength)
  }

  function ChunkOf(req: Request, path: Path): ChunkInfo {
    ChunkInfo(req.offset, req.length, path)
  }

  /** Where one request, or one eviction's file cleanup, currently stands. */
  datatype Task =
    | Reserved(req: Request)                                  // ticket held, nothing on disk
    | Streaming(req: Request, path: Path)                     // ticket held, body being written
    | Aborting(req: Request, path: Path)                      // ticket held, body failed, file to unlink
    | Releasing(req: Request)                                 // ticket held, file gone
    | Streamed(req: Request, path: Path)                      // ticket held, body complete
    | Paying(req: Request, path: Path, upload: ChunkUpload)   // completed, charge outstanding
    | Refused(req: Request, path: Path, upload: ChunkUpload)  // charge rejected, restore to try
    | Dropping(path: Path)                                    // only the request's own file is left to unlink
    | Assembling(upload: ChunkUpload)                         // paid, reconstruction to run
    | Discarding(chunks: seq<ChunkInfo>)                      // chunk files left to unlink, in order
    | Done

  datatype World = World(
    sessions: SessionState, files: map<Path, seq<Byte>>, tasks: map<nat, Task>,
    written: set<Path>,   // every chunk path ever created
    leaked: set<Path>,    // paths abandoned by the branches that forget them
    restores: nat)        // successful restores so far

  datatype Event =
    | Begin(id: nat, headers: Headers)
    | Decline(id: nat)                          // capacity or directory failure before the body
    | Create(id: nat, path: Path)               // path carries a fresh UUID
    | Write(id: nat, bytes: seq<Byte>)
    | EndBody(id: nat, ok: bool)
    | Unlink(id: nat)
    | GiveBack(id: nat)
    | CommitChunk(id: nat, now: nat)
    | Charge(id: nat, accepted: bool)
    | TryRestore(id: nat)
    | Assemble(id: nat, tempDirOk: bool)
    | Discard(id: nat)
    | Evict(id: nat, order: seq<ChunkUploadKey>, age: nat, now: nat)

  function Initial(): World {
    World(SessionState(map[], map[]), map[], map[], {}, {}, 0)
  }

  function At(w: World, id: nat): Task {
    if id in w.tasks then w.tasks[id] else Done
  }

  function Put(w: World, id: nat, t: Task): World {
    w.(tasks := w.tasks[id := t])
  }

  /** The chunks of the listed sessions, one session after another. */
  function ChunksOf(uploads: map<ChunkUploadKey, ChunkUpload>, order: seq<ChunkUploadKey>): seq<ChunkInfo> {
    if order == [] then []
    else (if order[0] in uploads then uploads[order[0]].chunks else []) + ChunksOf(uploads, order[1..])
  }

  // Each transition changes nothing unless its task is at the matching point.

  ghost function BeginStep(w: World, limits: ServerLimits, id: nat, h: Headers): World {
    if id in w.tasks then w
    else if Admission(h, limits).Some? then Put(w, id, Done)
    else
      var req := RequestOf(h);
      var (s, r) := ReserveStep(w.sessions, limits.sessions, req.key);
      Put(w.(sessions := s), id, if r.Granted? then Reserved(req) else Done)
  }

  ghost function CreateStep(w: World, id: nat, path: Path): World {
    if !At(w, id).Reserved? || path in w.written then w
    else Put(w.(files := w.files[path := []], written := w.written + {path}), id, Streaming(At(w, id).req, path))
  }

  ghost function WriteStep(w: World, id: nat, bytes: seq<Byte>): World {
    if !At(w, id).Streaming? || At(w, id).path !in w.files then w
    else
      var t := At(w, id);
      var body := w.files[t.path] + bytes;
      if |body| > t.req.length then Put(w, id, Aborting(t.req, t.path))
      else w.(files := w.files[t.path := body])
  }

  ghost function EndBodyStep(w: World, id: nat, ok: bool): World {
    if !At(w, id).Streaming? || At(w, id).path !in w.files then w
    else
      var t := At(w, id);
      Put(w, id, if ok && |w.files[t.path]| == t.req.length then Streamed(t.req, t.path) else Aborting(t.req, t.path))
  }

  ghost function UnlinkStep(w: World, id: nat): World {
    match At(w, id)
    case Aborting(req, path) => Put(w.(files := w.files - {path}), id, Releasing(req))
    case Dropping(path) => Put(w.(files := w.files - {path}), id, Done)
    case _ => w
  }

  /** Release of a ticket: after a refusal before the body, or after a failed body's file is gone. */
  ghost function ReleaseStep(w: World, id: nat): World
    requires At(w, id).Reserved? || At(w, id).Releasing?
  {
    Put(w.(sessions := ConsumeStep(w.sessions, At(w, id).req.key)), id, Done)
  }

  ghost function CommitChunkStep(w: World, id: nat, now: nat): World {
    if !At(w, id).Streamed? then w
    else
      var t := At(w, id);
      var (s, r) := CommitStep(w.sessions, t.req.key, t.req.params, ChunkOf(t.req, t.path), now);
      Put(w.(sessions := s), id, AfterCommit(t, r))
  }

  function AfterCommit(t: Task, r: Commit): Task
    requires t.Streamed?
  {
    match r
    case Incomplete => Done
    case Overlap => Dropping(t.path)
    case ParamMismatch => Dropping(t.path)
    case Complete(upload) => Paying(t.req, t.path, upload)
  }

  ghost function ChargeStep(w: World, id: nat, accepted: bool): World {
    if !At(w, id).Paying? then w
    else
      var t := At(w, id);
      Put(w, id,
          if !accepted then Refused(t.req, t.path, t.upload)
          else if LateNoContent(t.upload, t.req.params.uploadLength) then Done
          else Assembling(t.upload))
  }

  ghost function TryRestoreStep(w: World, id: nat): World {
    if !At(w, id).Refused? then w
    else
      var t := At(w, id);
      var (s, restored) := RestoreStep(w.sessions, t.req.key, WithoutLast(t.upload));
      if restored then Put(w.(sessions := s, restores := w.restores + 1), id, Dropping(t.path))
      else Put(w, id, Discarding(t.upload.chunks))
  }

  /** The two early returns that skip the clean-up: a length overflow, which never happens, and a
      failure to create the temp directory. */
  predicate ForgetsFiles(problem: Option<ReconstructError>, tempDirOk: bool) {
    problem == Some(LengthOverflow) || (problem.None? && !tempDirOk)
  }

  ghost function AssembleStep(w: World, id: nat, tempDirOk: bool): World {
    if !At(w, id).Assembling? then w
    else
      var upload := At(w, id).upload;
      var chunks := InOffsetOrder(upload.chunks);
      if ForgetsFiles(CoverageError(chunks, 0, upload.uploadLength), tempDirOk)
      then Put(w.(leaked := w.leaked + PathsOf(upload.chunks)), id, Done)
      else Put(w, id, Discarding(chunks))
  }

  ghost function DiscardStep(w: World, id: nat): World {
    if !At(w, id).Discarding? then w
    else
      var chunks := At(w, id).chunks;
      if chunks == [] then Put(w, id, Done)
      else Put(w.(files := w.files - {chunks[0].path}), id, Discarding(chunks[1..]))
  }

  ghost function EvictionStep(w: World, id: nat, order: seq<ChunkUploadKey>, age: nat, now: nat): World {
    if id in w.tasks || !Enumerates(order, Stale(w.sessions, age, now)) then w
    else Put(w.(sessions := EvictStep(w.sessions, age, now)), id, Discarding(ChunksOf(w.sessions.uploads, order)))
  }

  ghost function Apply(w: World, limits: ServerLimits, e: Event): World {
    match e
    case Begin(id, h) => BeginStep(w, limits, id, h)
    case Decline(id) => if At(w, id).Reserved? then ReleaseStep(w, id) else w
    case Create(id, path) => CreateStep(w, id, path)
    case Write(id, bytes) => WriteStep(w, id, bytes)
    case EndBody(id, ok) => EndBodyStep(w, id, ok)
    case Unlink(id) => UnlinkStep(w, id)
    case GiveBack(id) => if At(w, id).Releasing? then ReleaseStep(w, id) else w
    case CommitChunk(id, now) => CommitChunkStep(w, id, now)
    case Charge(id, accepted) => ChargeStep(w, id, accepted)
    case TryRestore(id) => TryRestoreStep(w, id)
    case Assemble(id, tempDirOk) => AssembleStep(w, id, tempDirOk)
    case Discard(id) => DiscardStep(w, id)
    case Evict(id, order, age, now) => EvictionStep(w, id, order, age, now)
  }

  /** The two answers `204 No Content` that follow a successful charge. */
  predicate LateNoContent(upload: ChunkUpload, uploadLength: nat) {
    || (|upload.chunks| == 1 && upload.chunks[0].length != uploadLength)
    || SumLengths(upload.chunks) != uploadLength
  }

  ghost function Run(w: World, limits: ServerLimits, events: seq<Event>): World {
    if events == [] then w
    else Apply(Run(w, limits, events[..|events| - 1]), limits, events[|events| - 1])
  }

  ghost function Reach(limits: ServerLimits, events: seq<Event>): World {
    Run(Initial(), limits, events)
  }

  // ----- who holds which file -----

  function PathsOf(chunks: seq<ChunkInfo>): set<Path> {
    set c | c in chunks :: c.path
  }

  function Held(t: Task): set<Path> {
    match t
    case Streaming(_, path) => {path}
    case Aborting(_, path) => {path}
    case Streamed(_, path) => {path}
    case Dropping(path) => {path}
    case Paying(_, _, upload) => PathsOf(upload.chunks)
    case Refused(_, _, upload) => PathsOf(upload.chunks)
    case Assembling(upload) => PathsOf(upload.chunks)
    case Discarding(chunks) => PathsOf(chunks)
    case _ => {}
  }

  predicate HoldsTicket(t: Task, key: ChunkUploadKey) {
    (t.Reserved? || t.Streaming? || t.Aborting? || t.Releasing? || t.Streamed?) && t.req.key == key
  }

  datatype Holder = ByTask(id: nat) | BySession(key: ChunkUploadKey) | Leaked

  type Owners = map<Path, Holder>

  ghost function OwnedBy(o: Owners, h: Holder): set<Path> {
    set p | p in o && o[p] == h
  }

  ghost predicate DistinctPaths(chunks: seq<ChunkInfo>) {
    forall i, j :: 0 <= i < j < |chunks| ==> chunks[i].path != chunks[j].path
  }

  ghost predicate OnDisk(chunks: seq<ChunkInfo>, files: map<Path, seq<Byte>>) {
    DistinctPaths(chunks) && Backed(chunks, files)
  }

  function Listed(s: SessionState, key: ChunkUploadKey): set<Path> {
    if key in s.uploads then PathsOf(s.uploads[key].chunks) else {}
  }

  /** Every file on disk belongs to exactly one task, stored session, or the leaked set. */
  ghost predicate Attributed(w: World, o: Owners) {
    && o.Keys == w.files.Keys <= w.written
    && (forall id: nat :: Held(At(w, id)) == OwnedBy(o, ByTask(id)))
    && (forall k :: Listed(w.sessions, k) == OwnedBy(o, BySession(k)))
    && w.leaked == OwnedBy(o, Leaked)
  }

  ghost predicate AdmittedRequest(req: Request) {
    Fits(ChunkOf(req, ""), req.params.uploadLength)
  }

  ghost predicate TaskOk(t: Task, files: map<Path, seq<Byte>>) {
    match t
    case Reserved(req) => AdmittedRequest(req)
    case Streaming(req, path) => AdmittedRequest(req)
    case Streamed(req, path) => AdmittedRequest(req) && path in files && |files[path]| == req.length
    case Paying(req, path, u) => SettlingOk(req, path, u, files)
    case Refused(req, path, u) => SettlingOk(req, path, u, files)
    case Assembling(u) => Completed(u) && OnDisk(u.chunks, files)
    case Discarding(chunks) => OnDisk(chunks, files)
    case _ => true
  }

  ghost predicate SettlingOk(req: Request, path: Path, u: ChunkUpload, files: map<Path, seq<Byte>>) {
    && Completed(u) && u.uploadLength == req.params.uploadLength
    && u.chunks[|u.chunks| - 1] == ChunkOf(req, path)
    && OnDisk(u.chunks, files)
  }

  ghost predicate SessionsOk(s: SessionState, files: map<Path, seq<Byte>>) {
    forall k :: k in s.uploads ==> Stored(s.uploads[k]) && OnDisk(s.uploads[k].chunks, files)
  }

  ghost predicate TasksOk(w: World) {
    forall id: nat :: TaskOk(At(w, id), w.files)
  }

  ghost function TicketHolders(w: World, key: ChunkUploadKey): set<nat> {
    set id | id in w.tasks && HoldsTicket(w.tasks[id], key)
  }

  /** The pending count of a key is the number of tickets outstanding for it. */
  ghost predicate TicketsBalance(w: World) {
    forall key :: Tickets(w.sessions, key) == |TicketHolders(w, key)|
  }

  /** The file invariant: everything on disk is accounted for, and what is listed is on disk. */
  ghost predicate Sound(w: World, o: Owners) {
    Attributed(w, o) && SessionsOk(w.sessions, w.files) && TasksOk(w)
  }

  // ----- tickets -----

  /** Replacing one task's state moves the ticket count of each key by what that task gave up or gained. */
  lemma TicketsAfter(w: World, id: nat, t: Task, w': World)
    requires TicketsBalance(w) && w'.tasks == w.tasks[id := t]
    requires forall key :: Tickets(w'.sessions, key) ==
                           Tickets(w.sessions, key) - (if HoldsTicket(At(w, id), key) then 1 else 0)
                             + (if HoldsTicket(t, key) then 1 else 0)
    ensures TicketsBalance(w')
  {
    hide HoldsTicket, TicketHolders, At;
    forall key ensures Tickets(w'.sessions, key) == |TicketHolders(w', key)| {
      HoldersAfter(w, id, t, w', key);
    }
  }

  lemma HoldersAfter(w: World, id: nat, t: Task, w': World, key: ChunkUploadKey)
    requires w'.tasks == w.tasks[id := t]
    ensures |TicketHolders(w', key)| ==
            |TicketHolders(w, key)| - (if HoldsTicket(At(w, id), key) then 1 else 0)
              + (if HoldsTicket(t, key) then 1 else 0)
  {
    hide HoldsTicket;
    assert !HoldsTicket(Done, key) by { NoTicketWhenDone(key); }
    var others := TicketHolders(w, key) - {id};
    assert TicketHolders(w, key) == if HoldsTicket(At(w, id), key) then others + {id} else others;
    assert TicketHolders(w', key) == if HoldsTicket(t, key) then others + {id} else others;
  }

  lemma NoTicketWhenDone(key: ChunkUploadKey)
    ensures !HoldsTicket(Done, key)
  {
  }

  lemma ATicketIsPending(w: World, id: nat, key: ChunkUploadKey)
    requires TicketsBalance(w) && HoldsTicket(At(w, id), key)
    ensures key in w.sessions.pending
  {
    assert id in TicketHolders(w, key);
  }

  lemma CommitConsumesTicket(s: SessionState, key: ChunkUploadKey, params: SessionParams, chunk: ChunkInfo, now: nat)
    ensures CommitStep(s, key, params, chunk, now).0.pending == ConsumeStep(s, key).pending
  {
  }

  // ----- files -----

  /** A task's own obligations look only at the files it holds. */
  lemma TaskFrame(t: Task, before: map<Path, seq<Byte>>, after: map<Path, seq<Byte>>)
    requires TaskOk(t, before)
    requires forall p :: p in Held(t) && p in before ==> p in after && after[p] == before[p]
    ensures TaskOk(t, after)
  {
    match t
    case Paying(_, _, u) => BackedFrame(u.chunks, before, after);
    case Refused(_, _, u) => BackedFrame(u.chunks, before, after);
    case Assembling(u) => BackedFrame(u.chunks, before, after);
    case Discarding(chunks) => BackedFrame(chunks, before, after);
    case _ =>
  }

  lemma BackedFrame(chunks: seq<ChunkInfo>, before: map<Path, seq<Byte>>, after: map<Path, seq<Byte>>)
    requires OnDisk(chunks, before)
    requires forall p :: p in PathsOf(chunks) && p in before ==> p in after && after[p] == before[p]
    ensures OnDisk(chunks, after)
  {
    forall i | 0 <= i < |chunks| ensures chunks[i].path in after && |after[chunks[i].path]| == chunks[i].length {
      assert chunks[i].path in PathsOf(chunks);
    }
  }

  /** Files outside a task's holdings may change freely without disturbing anyone else. */
  lemma OthersUndisturbed(w: World, o: Owners, id: nat, after: map<Path, seq<Byte>>)
    requires Sound(w, o)
    requires forall p :: p in w.files && p !in Held(At(w, id)) ==> p in after && after[p] == w.files[p]
    ensures forall other: nat :: other != id ==> TaskOk(At(w, other), after)
    ensures SessionsOk(w.sessions, after)
  {
    forall other: nat | other != id ensures TaskOk(At(w, other), after) {
      assert Held(At(w, other)) !! Held(At(w, id));
      TaskFrame(At(w, other), w.files, after);
    }
    forall k | k in w.sessions.uploads ensures OnDisk(w.sessions.uploads[k].chunks, after) {
      assert Listed(w.sessions, k) !! Held(At(w, id));
      BackedFrame(w.sessions.uploads[k].chunks, w.files, after);
    }
  }

  ghost function Reassign(o: Owners, from: Holder, to: Holder): Owners {
    map p | p in o :: if o[p] == from then to else o[p]
  }

  lemma Reassigned(o: Owners, from: Holder, to: Holder)
    requires from != to
    ensures var o' := Reassign(o, from, to);
            && o'.Keys == o.Keys
            && OwnedBy(o', to) == OwnedBy(o, to) + OwnedBy(o, from)
            && OwnedBy(o', from) == {}
            && forall h :: h != from && h != to ==> OwnedBy(o', h) == OwnedBy(o, h)
  {
    var o' := Reassign(o, from, to);
    forall h | h != from && h != to ensures OwnedBy(o', h) == OwnedBy(o, h) {
    }
  }

  /** How ownership moves when one task and one session trade files. */
  lemma TradeKeepsAttribution(w: World, o: Owners, o': Owners, id: nat, t: Task, key: ChunkUploadKey, s: SessionState)
    requires Attributed(w, o) && o'.Keys == o.Keys
    requires forall k :: k != key ==> Listed(s, k) == Listed(w.sessions, k)
    requires Held(t) == OwnedBy(o', ByTask(id)) && Listed(s, key) == OwnedBy(o', BySession(key))
    requires forall h :: h != ByTask(id) && h != BySession(key) ==> OwnedBy(o', h) == OwnedBy(o, h)
    ensures Attributed(Put(w.(sessions := s), id, t), o')
  {
    var w' := Put(w.(sessions := s), id, t);
    forall other: nat ensures Held(At(w', other)) == OwnedBy(o', ByTask(other)) {
      if other != id {
        assert At(w', other) == At(w, other);
      }
    }
  }

  // ----- each transition keeps the file invariant -----

  lemma PutHoldingSame(w: World, o: Owners, id: nat, t: Task)
    requires Sound(w, o) && Held(t) == Held(At(w, id)) && TaskOk(t, w.files)
    ensures Sound(Put(w, id, t), o)
  {
    var w' := Put(w, id, t);
    forall other: nat ensures Held(At(w', other)) == OwnedBy(o, ByTask(other)) && TaskOk(At(w', other), w.files) {
      assert other != id ==> At(w', other) == At(w, other);
    }
  }

  lemma PendingIsNotFiles(w: World, o: Owners, s: SessionState, id: nat, t: Task)
    requires Sound(w, o) && s.uploads == w.sessions.uploads
    requires Held(t) == Held(At(w, id)) && TaskOk(t, w.files)
    ensures Sound(Put(w.(sessions := s), id, t), o)
  {
    PutHoldingSame(w, o, id, t);
  }

  /** A chunk is admitted exactly when it is non-empty, respects both size limits and ends within its
      upload; the sum of offset and length is the true one, not the wrapped one. */
  lemma AdmissionIsExact(h: Headers, limits: ServerLimits)
    ensures Admission(h, limits).None? <==>
            && 0 < h.contentLength <= limits.maxChunkSize
            && 0 < h.uploadLength <= limits.maxBlobSize
            && h.uploadOffset + h.contentLength <= h.uploadLength
    ensures Admission(h, limits) == Some(EmptyChunk) <==> h.contentLength == 0
    ensures Admission(h, limits) == Some(UploadTooLong) <==>
            0 < h.contentLength && !(0 < h.uploadLength <= limits.maxBlobSize)
    ensures Admission(h, limits) == Some(ChunkTooLong) <==>
            && 0 < h.uploadLength <= limits.maxBlobSize
            && 0 < h.contentLength && limits.maxChunkSize < h.contentLength
    ensures Admission(h, limits) == Some(OffsetOverflows) <==>
            && 0 < h.uploadLength <= limits.maxBlobSize && 0 < h.contentLength <= limits.maxChunkSize
            && 0x1_0000_0000_0000_0000 <= h.uploadOffset + h.contentLength
    ensures Admission(h, limits) == Some(ExceedsUpload) <==>
            && 0 < h.uploadLength <= limits.maxBlobSize && 0 < h.contentLength <= limits.maxChunkSize
            && h.uploadLength < h.uploadOffset + h.contentLength < 0x1_0000_0000_0000_0000
  {
  }

  lemma AdmittedFits(h: Headers, limits: ServerLimits)
    ensures Admission(h, limits).None? ==> AdmittedRequest(RequestOf(h)) && 0 < h.uploadLength <= limits.maxBlobSize
  {
  }

  lemma ReserveKeepsUploads(s: SessionState, limits: SessionLimits, key: ChunkUploadKey)
    ensures ReserveStep(s, limits, key).0.uploads == s.uploads
  {
  }

  lemma BeginKeeps(w: World, o: Owners, limits: ServerLimits, id: nat, h: Headers)
    requires Sound(w, o)
    ensures Sound(BeginStep(w, limits, id, h), o)
  {
    var w' := BeginStep(w, limits, id, h);
    if id !in w.tasks {
      AdmittedFits(h, limits);
      ReserveKeepsUploads(w.sessions, limits.sessions, RequestOf(h).key);
      PendingIsNotFiles(w, o, w'.sessions, id, w'.tasks[id]);
    }
  }

  lemma ReleaseKeeps(w: World, o: Owners, id: nat)
    requires Sound(w, o) && (At(w, id).Reserved? || At(w, id).Releasing?)
    ensures Sound(ReleaseStep(w, id), o)
  {
    PendingIsNotFiles(w, o, ConsumeStep(w.sessions, At(w, id).req.key), id, Done);
  }

  lemma CreateKeeps(w: World, o: Owners, id: nat, path: Path) returns (o': Owners)
    requires Sound(w, o)
    ensures Sound(CreateStep(w, id, path), o')
  {
    if !At(w, id).Reserved? || path in w.written {
      o' := o;
    } else {
      o' := o[path := ByTask(id)];
      var w' := CreateStep(w, id, path);
      OthersUndisturbed(w, o, id, w'.files);
      assert OwnedBy(o', ByTask(id)) == {path};
      forall h: Holder | h != ByTask(id) ensures OwnedBy(o', h) == OwnedBy(o, h) {
      }
    }
  }

  lemma WriteKeeps(w: World, o: Owners, id: nat, bytes: seq<Byte>)
    requires Sound(w, o)
    ensures Sound(WriteStep(w, id, bytes), o)
  {
    var w' := WriteStep(w, id, bytes);
    if At(w, id).Streaming? && At(w, id).path in w.files {
      if w'.tasks == w.tasks {
        OthersUndisturbed(w, o, id, w'.files);
        assert w'.files.Keys == w.files.Keys;
      } else {
        PutHoldingSame(w, o, id, w'.tasks[id]);
      }
    }
  }

  lemma EndBodyKeeps(w: World, o: Owners, id: nat, ok: bool)
    requires Sound(w, o)
    ensures Sound(EndBodyStep(w, id, ok), o)
  {
    if At(w, id).Streaming? && At(w, id).path in w.files {
      PutHoldingSame(w, o, id, EndBodyStep(w, id, ok).tasks[id]);
    }
  }

  /** Unlinking one file a task holds, and letting go of it. */
  lemma RemoveKeeps(w: World, o: Owners, id: nat, path: Path, t: Task) returns (o': Owners)
    requires Sound(w, o) && id in w.tasks && path in Held(w.tasks[id])
    requires Held(t) == Held(w.tasks[id]) - {path} && TaskOk(t, w.files - {path})
    ensures Sound(Put(w.(files := w.files - {path}), id, t), o')
  {
    o' := o - {path};
    var w' := Put(w.(files := w.files - {path}), id, t);
    OthersUndisturbed(w, o, id, w'.files);
    assert OwnedBy(o', ByTask(id)) == Held(t);
    forall h: Holder | h != ByTask(id) ensures OwnedBy(o', h) == OwnedBy(o, h) {
    }
  }

  lemma UnlinkKeeps(w: World, o: Owners, id: nat) returns (o': Owners)
    requires Sound(w, o)
    ensures Sound(UnlinkStep(w, id), o')
  {
    o' := o;
    match At(w, id) {
      case Aborting(req, path) => o' := RemoveKeeps(w, o, id, path, Releasing(req));
      case Dropping(path) => o' := RemoveKeeps(w, o, id, path, Done);
      case _ =>
    }
  }

  lemma PathsSplit(chunks: seq<ChunkInfo>)
    requires chunks != []
    ensures PathsOf(chunks) == {chunks[0].path} + PathsOf(chunks[1..])
  {
    var rest := chunks[1..];
    assert chunks == [chunks[0]] + rest;
    forall c ensures c in chunks <==> c == chunks[0] || c in rest {
    }
  }

  lemma DistinctSplit(chunks: seq<ChunkInfo>)
    requires chunks != []
    ensures DistinctPaths(chunks) <==> chunks[0].path !in PathsOf(chunks[1..]) && DistinctPaths(chunks[1..])
  {
    var rest := chunks[1..];
    forall i | 0 <= i < |rest| ensures rest[i] == chunks[i + 1] && rest[i].path in PathsOf(rest) {
    }
    if chunks[0].path !in PathsOf(rest) && DistinctPaths(rest) {
      forall i, j | 0 <= i < j < |chunks| ensures chunks[i].path != chunks[j].path {
        assert chunks[j] == rest[j - 1];
        assert 0 < i ==> chunks[i] == rest[i - 1];
      }
    } else if c :| c in rest && c.path == chunks[0].path {
      var i :| 0 <= i < |rest| && rest[i] == c;
      assert chunks[0].path == chunks[i + 1].path;
    } else {
      assert chunks[0].path !in PathsOf(rest);
      var i, j :| 0 <= i < j < |rest| && rest[i].path == rest[j].path;
      assert chunks[i + 1].path == chunks[j + 1].path;
    }
  }

  /** With its first file unlinked, the rest of a list of chunks is still on disk. */
  lemma RestOnDisk(chunks: seq<ChunkInfo>, files: map<Path, seq<Byte>>)
    requires OnDisk(chunks, files) && chunks != []
    ensures var path, rest := chunks[0].path, chunks[1..];
            && path in PathsOf(chunks) && PathsOf(rest) == PathsOf(chunks) - {path} && OnDisk(rest, files - {path})
  {
    var path, rest := chunks[0].path, chunks[1..];
    PathsSplit(chunks);
    DistinctSplit(chunks);
    hide DistinctPaths;
    forall i | 0 <= i < |rest|
      ensures rest[i].path in files - {path} && |(files - {path})[rest[i].path]| == rest[i].length
    {
      assert rest[i] == chunks[i + 1] && rest[i].path in PathsOf(rest);
    }
  }

  lemma DiscardKeeps(w: World, o: Owners, id: nat) returns (o': Owners)
    requires Sound(w, o)
    ensures Sound(DiscardStep(w, id), o')
  {
    o' := o;
    if At(w, id).Discarding? {
      var chunks := At(w, id).chunks;
      assert TaskOk(At(w, id), w.files);
      hide Sound, OnDisk;
      if chunks == [] {
        DoneIsIdle(w.files);
        PutHoldingSame(w, o, id, Done);
      } else {
        RestOnDisk(chunks, w.files);
        o' := RemoveKeeps(w, o, id, chunks[0].path, Discarding(chunks[1..]));
      }
    }
  }

  // ----- transitions that move files between a session and a task -----

  lemma AppendedOnDisk(chunks: seq<ChunkInfo>, chunk: ChunkInfo, files: map<Path, seq<Byte>>)
    requires OnDisk(chunks, files) && chunk.path !in PathsOf(chunks)
    requires chunk.path in files && |files[chunk.path]| == chunk.length
    ensures OnDisk(chunks + [chunk], files)
    ensures PathsOf(chunks + [chunk]) == PathsOf(chunks) + {chunk.path}
  {
    var all := chunks + [chunk];
    forall i | 0 <= i < |chunks| ensures chunks[i].path != chunk.path {
      assert chunks[i].path in PathsOf(chunks);
    }
    forall p ensures p in PathsOf(all) <==> p in PathsOf(chunks) + {chunk.path} {
      if p in PathsOf(chunks) {
        var c :| c in chunks && c.path == p;
        assert c in all;
      }
      assert chunk in all;
    }
  }

  lemma SettleKeepsTasks(w: World, o: Owners, id: nat, t: Task, s: SessionState)
    requires Sound(w, o) && TaskOk(t, w.files) && SessionsOk(s, w.files)
    ensures var w' := Put(w.(sessions := s), id, t); TasksOk(w') && SessionsOk(w'.sessions, w'.files)
  {
    var w' := Put(w.(sessions := s), id, t);
    forall other: nat ensures TaskOk(At(w', other), w.files) {
      assert other != id ==> At(w', other) == At(w, other);
    }
  }

  lemma SoundFrom(w: World, o: Owners)
    requires Attributed(w, o) && SessionsOk(w.sessions, w.files) && TasksOk(w)
    ensures Sound(w, o)
  {
  }

  lemma PutParts(w: World, id: nat, t: Task, s: SessionState)
    ensures var w' := Put(w.(sessions := s), id, t); w'.sessions == s && w'.files == w.files
  {
  }

  lemma SessionTaken(s: SessionState, s': SessionState, key: ChunkUploadKey, files: map<Path, seq<Byte>>)
    requires SessionsOk(s, files) && s'.uploads == s.uploads - {key}
    ensures SessionsOk(s', files) && Listed(s', key) == {} && forall k :: k != key ==> Listed(s', k) == Listed(s, k)
  {
    hide Stored, OnDisk;
  }

  lemma SessionExtended(s: SessionState, s': SessionState, key: ChunkUploadKey, extended: ChunkUpload, files: map<Path,
                        seq<Byte>>)
    requires SessionsOk(s, files) && s'.uploads == s.uploads[key := extended]
    requires Stored(extended) && OnDisk(extended.chunks, files)
    ensures SessionsOk(s', files) && Listed(s', key) == PathsOf(extended.chunks)
    ensures forall k :: k != key ==> Listed(s', k) == Listed(s, k)
  {
    hide Stored, OnDisk;
  }

  lemma DoneIsIdle(files: map<Path, seq<Byte>>)
    ensures Held(Done) == {} && TaskOk(Done, files)
  {
  }

  /** A session leaves the registry and its files become the task's. */
  lemma TakeSession(w: World, o: Owners, id: nat, key: ChunkUploadKey, t: Task, s: SessionState) returns (o': Owners)
    requires Sound(w, o) && s.uploads == w.sessions.uploads - {key}
    requires Held(t) == Held(At(w, id)) + Listed(w.sessions, key) && TaskOk(t, w.files)
    ensures Sound(Put(w.(sessions := s), id, t), o')
  {
    hide *;
    SoundParts(w, o);
    AttributedTo(w, o, id, key);
    Reassigned(o, BySession(key), ByTask(id));
    o' := Reassign(o, BySession(key), ByTask(id));
    SessionTaken(w.sessions, s, key, w.files);
    TradeKeepsAttribution(w, o, o', id, t, key, s);
    SettleKeepsTasks(w, o, id, t, s);
    PutParts(w, id, t, s);
    SoundFrom(Put(w.(sessions := s), id, t), o');
  }

  /** The task's one file becomes the session's. */
  lemma GiveToSession(w: World, o: Owners, id: nat, key: ChunkUploadKey, extended: ChunkUpload, s: SessionState)
    returns (o': Owners)
    requires Sound(w, o) && s.uploads == w.sessions.uploads[key := extended]
    requires PathsOf(extended.chunks) == Listed(w.sessions, key) + Held(At(w, id))
    requires Stored(extended) && OnDisk(extended.chunks, w.files)
    ensures Sound(Put(w.(sessions := s), id, Done), o')
  {
    hide *;
    SoundParts(w, o);
    AttributedTo(w, o, id, key);
    Reassigned(o, ByTask(id), BySession(key));
    o' := Reassign(o, ByTask(id), BySession(key));
    SessionExtended(w.sessions, s, key, extended, w.files);
    DoneIsIdle(w.files);
    TradeKeepsAttribution(w, o, o', id, Done, key, s);
    SettleKeepsTasks(w, o, id, Done, s);
    PutParts(w, id, Done, s);
    SoundFrom(Put(w.(sessions := s), id, Done), o');
  }

  lemma CommitKeeps(w: World, o: Owners, id: nat, now: nat) returns (o': Owners)
    requires Sound(w, o) && TicketsBalance(w)
    ensures Sound(CommitChunkStep(w, id, now), o')
  {
    o' := o;
    if At(w, id).Streamed? {
      var t := At(w, id);
      var u := Target(w.sessions, t.req.key, t.req.params, now);
      hide CommitChunkStep, Sound, TicketsBalance, CommitStep, Agrees, SharesAByte;
      StreamedHoldsTicket(t);
      ATicketIsPending(w, id, t.req.key);
      if Agrees(u, t.req.params) && !SharesAByte(ChunkOf(t.req, t.path), u.chunks) {
        o' := CommitAcceptedKeeps(w, o, id, now, t, u);
      } else {
        CommitRefusedKeeps(w, o, id, now, t, u);
      }
    }
  }

  lemma StreamedHoldsTicket(t: Task)
    requires t.Streamed?
    ensures HoldsTicket(t, t.req.key)
  {
  }

  /** A refused chunk costs its ticket and leaves its file for the task to unlink. */
  lemma CommitRefusedKeeps(w: World, o: Owners, id: nat, now: nat, t: Task, u: ChunkUpload)
    requires Sound(w, o) && At(w, id) == t && t.Streamed? && t.req.key in w.sessions.pending
    requires u == Target(w.sessions, t.req.key, t.req.params, now)
    requires !(Agrees(u, t.req.params) && !SharesAByte(ChunkOf(t.req, t.path), u.chunks))
    ensures Sound(CommitChunkStep(w, id, now), o)
  {
    hide *;
    StreamedChunk(w, o, id, t);
    CommitRefused(w.sessions, t.req.key, t.req.params, ChunkOf(t.req, t.path), now);
    ConsumeKeepsUploads(w.sessions, t.req.key);
    RefusedEvent(w, id, now, t);
    DroppingHoldsSame(t, w.files);
    PendingIsNotFiles(w, o, ConsumeStep(w.sessions, t.req.key), id, Dropping(t.path));
  }

  lemma RefusedEvent(w: World, id: nat, now: nat, t: Task)
    requires At(w, id) == t && t.Streamed?
    ensures var (s, r) := CommitStep(w.sessions, t.req.key, t.req.params, ChunkOf(t.req, t.path), now);
            r.Overlap? || r.ParamMismatch? ==>
              CommitChunkStep(w, id, now) == Put(w.(sessions := s), id, Dropping(t.path))
  {
    hide CommitStep;
  }

  lemma DroppingHoldsSame(t: Task, files: map<Path, seq<Byte>>)
    requires t.Streamed?
    ensures TaskOk(Dropping(t.path), files) && Held(Dropping(t.path)) == Held(t)
  {
  }

  lemma CommitAcceptedKeeps(w: World, o: Owners, id: nat, now: nat, t: Task, u: ChunkUpload) returns (o': Owners)
    requires Sound(w, o) && At(w, id) == t && t.Streamed? && t.req.key in w.sessions.pending
    requires u == Target(w.sessions, t.req.key, t.req.params, now)
    requires Agrees(u, t.req.params) && !SharesAByte(ChunkOf(t.req, t.path), u.chunks)
    ensures Sound(CommitChunkStep(w, id, now), o')
  {
    var key, chunk := t.req.key, ChunkOf(t.req, t.path);
    var extended := u.(chunks := u.chunks + [chunk]);
    var (s, r) := CommitStep(w.sessions, key, t.req.params, chunk, now);
    AcceptedChunk(w, o, id, now, t, u);
    assert CommitChunkStep(w, id, now) == Put(w.(sessions := s), id, AfterCommit(t, r));
    hide CommitStep, Sound, OnDisk, Stored, Completed, CommitChunkStep;
    if r.Complete? {
      o' := TakeSession(w, o, id, key, Paying(t.req, t.path, extended), s);
    } else {
      o' := GiveToSession(w, o, id, key, extended, s);
    }
  }

  /** What the accepting commit does to the registry and whose files the extended session lists. */
  lemma AcceptedChunk(w: World, o: Owners, id: nat, now: nat, t: Task, u: ChunkUpload)
    requires Sound(w, o) && At(w, id) == t && t.Streamed? && t.req.key in w.sessions.pending
    requires u == Target(w.sessions, t.req.key, t.req.params, now)
    requires Agrees(u, t.req.params) && !SharesAByte(ChunkOf(t.req, t.path), u.chunks)
    ensures var key, chunk := t.req.key, ChunkOf(t.req, t.path);
            var extended := u.(chunks := u.chunks + [chunk]);
            var (s, r) := CommitStep(w.sessions, key, t.req.params, chunk, now);
            && PathsOf(extended.chunks) == Listed(w.sessions, key) + {t.path} && OnDisk(extended.chunks, w.files)
            && (r.Complete? ==> r.upload == extended && s.uploads == w.sessions.uploads - {key}
                                && TaskOk(Paying(t.req, t.path, extended), w.files))
            && (!r.Complete? ==> r.Incomplete? && s.uploads == w.sessions.uploads[key := extended] && Stored(extended))
  {
    hide *;
    var key, chunk := t.req.key, ChunkOf(t.req, t.path);
    StreamedChunk(w, o, id, t);
    TargetOnDisk(w, o, id, now, t, u);
    AppendedOnDisk(u.chunks, chunk, w.files);
    CommitAccepts(w.sessions, key, t.req.params, chunk, now);
    AcceptedTask(w, t, u);
    ConsumeKeepsUploads(w.sessions, key);
  }

  lemma StreamedChunk(w: World, o: Owners, id: nat, t: Task)
    requires Sound(w, o) && At(w, id) == t && t.Streamed?
    ensures var chunk := ChunkOf(t.req, t.path);
            && chunk.path == t.path && Fits(chunk, t.req.params.uploadLength)
            && t.path in w.files && |w.files[t.path]| == chunk.length
            && AllStored(w.sessions)
  {
    assert TaskOk(t, w.files);
    hide Attributed, Fits, Stored, OnDisk;
  }

  /** The session that a streamed chunk joins has its files, and the chunk's own file is none of them. */
  lemma TargetOnDisk(w: World, o: Owners, id: nat, now: nat, t: Task, u: ChunkUpload)
    requires Sound(w, o) && At(w, id) == t && t.Streamed?
    requires u == Target(w.sessions, t.req.key, t.req.params, now)
    ensures OnDisk(u.chunks, w.files) && PathsOf(u.chunks) == Listed(w.sessions, t.req.key)
            && t.path !in PathsOf(u.chunks)
  {
    hide TaskOk, Stored;
    assert t.path in Held(At(w, id)) && Held(At(w, id)) !! Listed(w.sessions, t.req.key);
  }

  lemma AcceptedTask(w: World, t: Task, u: ChunkUpload)
    requires t.Streamed? && Agrees(u, t.req.params)
    ensures var extended := u.(chunks := u.chunks + [ChunkOf(t.req, t.path)]);
            Completed(extended) && OnDisk(extended.chunks, w.files) ==> TaskOk(Paying(t.req, t.path, extended), w.files)
  {
    hide Completed, OnDisk;
  }

  lemma ConsumeKeepsUploads(s: SessionState, key: ChunkUploadKey)
    ensures ConsumeStep(s, key).uploads == s.uploads
  {
  }

  /** Neither late `204` can be answered: a completed upload sums to its length. */
  lemma CompletedIsNeverLate(u: ChunkUpload)
    requires Completed(u)
    ensures !LateNoContent(u, u.uploadLength)
  {
    if |u.chunks| == 1 {
      assert u.chunks[1..] == [];
    }
  }

  lemma ChargeKeeps(w: World, o: Owners, id: nat, accepted: bool)
    requires Sound(w, o)
    ensures Sound(ChargeStep(w, id, accepted), o)
  {
    if At(w, id).Paying? {
      assert TaskOk(At(w, id), w.files);
      CompletedIsNeverLate(At(w, id).upload);
      PutHoldingSame(w, o, id, ChargeStep(w, id, accepted).tasks[id]);
    }
  }

  lemma PrefixOnDisk(chunks: seq<ChunkInfo>, files: map<Path, seq<Byte>>)
    requires OnDisk(chunks, files) && chunks != []
    ensures var n := |chunks| - 1;
            OnDisk(chunks[..n], files) && PathsOf(chunks[..n]) == PathsOf(chunks) - {chunks[n].path}
  {
    var n := |chunks| - 1;
    forall p ensures p in PathsOf(chunks[..n]) <==> p in PathsOf(chunks) - {chunks[n].path} {
      if p in PathsOf(chunks[..n]) {
        var i :| 0 <= i < n && chunks[..n][i].path == p;
        assert chunks[i] in chunks;
      }
      if p in PathsOf(chunks) - {chunks[n].path} {
        var i :| 0 <= i < |chunks| && chunks[i].path == p;
        assert chunks[..n][i] == chunks[i];
      }
    }
  }

  lemma KeepOneFile(o: Owners, id: nat, kept: Path, key: ChunkUploadKey) returns (o': Owners)
    requires kept in OwnedBy(o, ByTask(id)) && OwnedBy(o, BySession(key)) == {}
    ensures o'.Keys == o.Keys
    ensures OwnedBy(o', ByTask(id)) == {kept}
    ensures OwnedBy(o', BySession(key)) == OwnedBy(o, ByTask(id)) - {kept}
    ensures forall h :: h != ByTask(id) && h != BySession(key) ==> OwnedBy(o', h) == OwnedBy(o, h)
  {
    o' := map p | p in o :: if o[p] == ByTask(id) && p != kept then BySession(key) else o[p];
    forall p ensures p in OwnedBy(o', BySession(key)) <==> p in OwnedBy(o, ByTask(id)) - {kept} {
      assert p !in OwnedBy(o, BySession(key));
    }
    forall h | h != ByTask(id) && h != BySession(key) ensures OwnedBy(o', h) == OwnedBy(o, h) {
    }
  }

  lemma RestoredSession(w: World, o: Owners, id: nat)
    requires Sound(w, o) && At(w, id).Refused? && At(w, id).req.key !in ActiveKeys(w.sessions)
    ensures var t := At(w, id); var key := t.req.key; var s := RestoreStep(w.sessions, key, WithoutLast(t.upload)).0;
            && TryRestoreStep(w, id) == Put(w.(sessions := s), id, Dropping(t.path)).(restores := w.restores + 1)
            && SessionsOk(s, w.files) && TaskOk(Dropping(t.path), w.files)
            && t.path in Held(t) && Listed(w.sessions, key) == {} && Listed(s, key) == Held(t) - {t.path}
            && forall k :: k != key ==> Listed(s, k) == Listed(w.sessions, k)
  {
    var t := At(w, id);
    var chunks := t.upload.chunks;
    assert TaskOk(t, w.files);
    PrefixOnDisk(chunks, w.files);
    assert chunks[|chunks| - 1] in chunks;
    hide OnDisk, Packed;
  }

  lemma AttributedTo(w: World, o: Owners, id: nat, key: ChunkUploadKey)
    requires Attributed(w, o)
    ensures Held(At(w, id)) == OwnedBy(o, ByTask(id)) && Listed(w.sessions, key) == OwnedBy(o, BySession(key))
  {
  }

  lemma RestoresDoNotMatter(w: World, o: Owners, n: nat)
    requires Attributed(w, o) && TasksOk(w) && SessionsOk(w.sessions, w.files)
    ensures Sound(w.(restores := n), o)
  {
    assert forall id: nat :: At(w.(restores := n), id) == At(w, id);
    hide SessionsOk, TaskOk, Listed, Held;
  }

  lemma RestoredKeeps(w: World, o: Owners, id: nat) returns (o': Owners)
    requires Sound(w, o) && At(w, id).Refused? && At(w, id).req.key !in ActiveKeys(w.sessions)
    ensures Sound(TryRestoreStep(w, id), o')
  {
    var t := At(w, id);
    var key := t.req.key;
    var s := RestoreStep(w.sessions, key, WithoutLast(t.upload)).0;
    var base := Put(w.(sessions := s), id, Dropping(t.path));
    assert base.sessions == s && base.files == w.files && Held(Dropping(t.path)) == {t.path};
    hide *;
    RestoredSession(w, o, id);
    SoundParts(w, o);
    AttributedTo(w, o, id, key);
    o' := KeepOneFile(o, id, t.path, key);
    TradeKeepsAttribution(w, o, o', id, Dropping(t.path), key, s);
    SettleKeepsTasks(w, o, id, Dropping(t.path), s);
    RestoresDoNotMatter(base, o', w.restores + 1);
  }

  lemma SoundParts(w: World, o: Owners)
    requires Sound(w, o)
    ensures Attributed(w, o) && SessionsOk(w.sessions, w.files) && TasksOk(w)
  {
  }

  lemma TryRestoreKeeps(w: World, o: Owners, id: nat) returns (o': Owners)
    requires Sound(w, o)
    ensures Sound(TryRestoreStep(w, id), o')
  {
    o' := o;
    if At(w, id).Refused? {
      if At(w, id).req.key in ActiveKeys(w.sessions) {
        assert TaskOk(At(w, id), w.files);
        PutHoldingSame(w, o, id, Discarding(At(w, id).upload.chunks));
      } else {
        o' := RestoredKeeps(w, o, id);
      }
    }
  }

  lemma {:induction false} DistinctIsCardinality(chunks: seq<ChunkInfo>)
    ensures |PathsOf(chunks)| <= |chunks|
    ensures DistinctPaths(chunks) <==> |PathsOf(chunks)| == |chunks|
  {
    if chunks != [] {
      DistinctIsCardinality(chunks[1..]);
      PathsSplit(chunks);
      DistinctSplit(chunks);
      hide PathsOf, DistinctPaths;
    }
  }

  lemma SortedOnDisk(chunks: seq<ChunkInfo>, files: map<Path, seq<Byte>>)
    requires OnDisk(chunks, files)
    ensures OnDisk(InOffsetOrder(chunks), files) && PathsOf(InOffsetOrder(chunks)) == PathsOf(chunks)
  {
    var sorted := InOffsetOrder(chunks);
    SortedStaysBacked(chunks, files);
    SortIsSortedPermutation(chunks, BY_OFFSET);
    SameElements(sorted, chunks);
    assert PathsOf(sorted) == PathsOf(chunks);
    DistinctIsCardinality(chunks);
    DistinctIsCardinality(sorted);
  }

  lemma AssembleKeeps(w: World, o: Owners, id: nat, tempDirOk: bool) returns (o': Owners)
    requires Sound(w, o)
    ensures Sound(AssembleStep(w, id, tempDirOk), o')
  {
    o' := o;
    var w' := AssembleStep(w, id, tempDirOk);
    if At(w, id).Assembling? {
      var u := At(w, id).upload;
      assert TaskOk(At(w, id), w.files);
      if w'.tasks[id].Done? {
        Reassigned(o, ByTask(id), Leaked);
        o' := Reassign(o, ByTask(id), Leaked);
        forall other: nat ensures Held(At(w', other)) == OwnedBy(o', ByTask(other)) && TaskOk(At(w', other), w'.files) {
          assert other != id ==> At(w', other) == At(w, other);
        }
      } else {
        SortedOnDisk(u.chunks, w.files);
        PutHoldingSame(w, o, id, w'.tasks[id]);
      }
    }
  }

  /** The chunks of several sessions, listed together, are still on disk under distinct paths. */
  lemma {:induction false} EvictedOnDisk(w: World, o: Owners, order: seq<ChunkUploadKey>, keys: set<ChunkUploadKey>)
    requires Sound(w, o) && Enumerates(order, keys) && keys <= w.sessions.uploads.Keys
    ensures OnDisk(ChunksOf(w.sessions.uploads, order), w.files)
    ensures PathsOf(ChunksOf(w.sessions.uploads, order)) == set p | p in o && o[p].BySession? && o[p].key in keys
  {
    if order == [] {
      assert forall k :: k !in keys;
    } else {
      var rest, key := order[1..], order[0];
      assert forall i :: 0 <= i < |rest| ==> rest[i] == order[i + 1];
      assert order == [key] + rest;
      EvictedOnDisk(w, o, rest, keys - {key});
      var first := w.sessions.uploads[key].chunks;
      var later := ChunksOf(w.sessions.uploads, rest);
      assert PathsOf(first) == Listed(w.sessions, key) == OwnedBy(o, BySession(key));
      JoinedOnDisk(first, later, w.files);
    }
  }

  lemma JoinedOnDisk(a: seq<ChunkInfo>, b: seq<ChunkInfo>, files: map<Path, seq<Byte>>)
    requires OnDisk(a, files) && OnDisk(b, files) && PathsOf(a) !! PathsOf(b)
    ensures OnDisk(a + b, files) && PathsOf(a + b) == PathsOf(a) + PathsOf(b)
  {
    var all := a + b;
    forall i, j | 0 <= i < j < |all| ensures all[i].path != all[j].path {
      if i < |a| <= j {
        assert a[i].path in PathsOf(a) && b[j - |a|].path in PathsOf(b);
      }
    }
    forall p ensures p in PathsOf(all) <==> p in PathsOf(a) + PathsOf(b) {
      assert p in PathsOf(a) ==> exists c :: c in all && c.path == p;
      assert p in PathsOf(b) ==> exists c :: c in all && c.path == p;
    }
  }

  lemma GatherSessions(o: Owners, id: nat, keys: set<ChunkUploadKey>) returns (o': Owners)
    requires OwnedBy(o, ByTask(id)) == {}
    ensures o'.Keys == o.Keys
    ensures OwnedBy(o', ByTask(id)) == set p | p in o && o[p].BySession? && o[p].key in keys
    ensures forall k :: OwnedBy(o', BySession(k)) == if k in keys then {} else OwnedBy(o, BySession(k))
    ensures forall other: nat :: other != id ==> OwnedBy(o', ByTask(other)) == OwnedBy(o, ByTask(other))
    ensures OwnedBy(o', Leaked) == OwnedBy(o, Leaked)
  {
    o' := map p | p in o :: if o[p].BySession? && o[p].key in keys then ByTask(id) else o[p];
    forall p ensures p in OwnedBy(o', ByTask(id)) <==> p in o && o[p].BySession? && o[p].key in keys {
      assert p !in OwnedBy(o, ByTask(id));
    }
    forall k ensures OwnedBy(o', BySession(k)) == if k in keys then {} else OwnedBy(o, BySession(k)) {
    }
    forall other: nat | other != id ensures OwnedBy(o', ByTask(other)) == OwnedBy(o, ByTask(other)) {
    }
  }

  lemma EvictKeeps(w: World, o: Owners, id: nat, order: seq<ChunkUploadKey>, age: nat, now: nat) returns (o': Owners)
    requires Sound(w, o)
    ensures Sound(EvictionStep(w, id, order, age, now), o')
  {
    o' := o;
    var keys := Stale(w.sessions, age, now);
    if id !in w.tasks && Enumerates(order, keys) {
      EvictedOnDisk(w, o, order, keys);
      assert Held(At(w, id)) == {};
      o' := GatherSessions(o, id, keys);
      EvictAttribution(w, o, o', id, order, age, now);
      SettleKeepsTasks(w, o, id, Discarding(ChunksOf(w.sessions.uploads, order)), EvictStep(w.sessions, age, now));
    }
  }

  lemma EvictAttribution(w: World, o: Owners, o': Owners, id: nat, order: seq<ChunkUploadKey>, age: nat, now: nat)
    requires Attributed(w, o) && id !in w.tasks && o'.Keys == o.Keys
    requires Enumerates(order, Stale(w.sessions, age, now))
    requires OwnedBy(o', ByTask(id)) == PathsOf(ChunksOf(w.sessions.uploads, order))
    requires forall k :: OwnedBy(o', BySession(k)) == if k in Stale(w.sessions, age, now) then {}
             else OwnedBy(o, BySession(k))
    requires forall other: nat :: other != id ==> OwnedBy(o', ByTask(other)) == OwnedBy(o, ByTask(other))
    requires OwnedBy(o', Leaked) == OwnedBy(o, Leaked)
    ensures Attributed(EvictionStep(w, id, order, age, now), o')
  {
    var w' := EvictionStep(w, id, order, age, now);
    forall k ensures Listed(w'.sessions, k) == OwnedBy(o', BySession(k)) {
      assert Listed(w.sessions, k) == OwnedBy(o, BySession(k));
    }
    forall other: nat ensures Held(At(w', other)) == OwnedBy(o', ByTask(other)) {
      assert other != id ==> At(w', other) == At(w, other);
    }
  }
}

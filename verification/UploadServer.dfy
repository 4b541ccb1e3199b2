/** The `PATCH /upload` handler as it runs: a stepwise protocol with rollback, interleaved at every
    await with any number of other requests and evictions. */
module UploadServer {
  import opened Prelude
  import opened Tiling
  import opened ChunkSessions
  import opened Reconstruction
  import opened UploadProtocol
  import opened UploadTheorems

  datatype Status =
    | Inadmissible(reason: AdmissionError)   // 400 or 413, before anything was reserved
    | SessionCapacity                        // 409 from the reservation
    | StorageUnavailable                     // 5xx/507 before the body
    | BodyRejected                           // the body failed or did not match Content-Length
    | ChunkConflict                          // 409 from the commit
    | NoContent                              // 204: chunk stored, upload incomplete
    | PaymentRejected
    | Internal                               // temp directory could not be created
    | Rebuilt(body: seq<Byte>)               // 200
    | RebuildFailed(error: ReconstructError)

  /** What the outside world decides for one request. */
  datatype Environment = Environment(
    storageOk: bool, path: Path, body: seq<seq<Byte>>, bodyOk: bool,
    now: nat, chargeAccepted: bool, tempDirOk: bool)

  /** The body arrived without error and has exactly the declared length. */
  predicate BodyComplete(req: Request, env: Environment) {
    env.bodyOk && |Flatten(env.body)| == req.length
  }

  /** The session the chunk would join was started with other parameters, or holds one of its bytes. */
  ghost predicate Conflicting(s: SessionState, req: Request, env: Environment) {
    && req.key in s.uploads
    && var u := s.uploads[req.key];
       || u.uploadType != req.params.uploadType || u.uploadLength != req.params.uploadLength
       || exists c, p: nat :: c in u.chunks && Covers(ChunkOf(req, env.path), p) && Covers(c, p)
  }

  /** The commit of request `id` is event `i` of the run, and `r` is what the registry answered: a
      refusal exactly when the session it met at that moment conflicts. */
  ghost predicate CommittedAt(limits: ServerLimits, history: seq<Event>, i: nat, id: nat,
                              req: Request, env: Environment, r: Commit)
  {
    && i < |history| && history[i] == CommitChunk(id, env.now)
    && var s := Reach(limits, history[..i]).sessions;
       && r == CommitStep(s, req.key, req.params, ChunkOf(req, env.path), env.now).1
       && (r.Overlap? || r.ParamMismatch? <==> Conflicting(s, req, env))
  }

  lemma CommittedStays(limits: ServerLimits, before: seq<Event>, after: seq<Event>, i: nat, id: nat,
                       req: Request, env: Environment, r: Commit)
    requires before <= after && CommittedAt(limits, before, i, id, req, env, r)
    ensures CommittedAt(limits, after, i, id, req, env, r)
  {
    hide Reach, CommitStep, Conflicting;
    assert after[..i] == before[..i];
  }

  /** The reconstruction of a paid upload is event `j` of the run, and `status` is its answer: the
      chunk files as they were at that moment, put in place, if they have the digest, and otherwise a
      mismatch. */
  ghost predicate AssembledAt(limits: ServerLimits, history: seq<Event>, j: nat, id: nat, upload: ChunkUpload,
                              sha256: Bytes -> string, expected: string, status: Status)
  {
    && j < |history| && history[j] == Assemble(id, true)
    && var w := Reach(limits, history[..j]);
       && At(w, id) == Assembling(upload)
       && exists whole :: Verdict(upload, w.files, sha256, expected, whole, status)
  }

  /** `whole` holds every chunk file at its offset, and its digest decides the answer. */
  ghost predicate Verdict(upload: ChunkUpload, files: map<Path, Bytes>, sha256: Bytes -> string, expected: string,
                          whole: Bytes, status: Status)
  {
    && |whole| == upload.uploadLength && Places(whole, upload.chunks, files)
    && status == if sha256(whole) == expected then Rebuilt(whole) else RebuildFailed(HashMismatch)
  }

  lemma AssembledStays(limits: ServerLimits, before: seq<Event>, after: seq<Event>, j: nat, id: nat,
                       upload: ChunkUpload,
                       sha256: Bytes -> string, expected: string, status: Status)
    requires before <= after && AssembledAt(limits, before, j, id, upload, sha256, expected, status)
    ensures AssembledAt(limits, after, j, id, upload, sha256, expected, status)
  {
    hide Reach, Verdict;
    assert after[..j] == before[..j];
  }

  /** How the answer follows from what the commit, event `i`, said. */
  ghost predicate Follows(limits: ServerLimits, history: seq<Event>, i: nat, id: nat, req: Request, env: Environment,
                          sha256: Bytes -> string, r: Commit, status: Status)
  {
    && (status == NoContent <==> r.Incomplete?)
    && (status == ChunkConflict <==> r.Overlap? || r.ParamMismatch?)
    && (r.Complete? ==>
          && (status == PaymentRejected <==> !env.chargeAccepted)
          && (status == Internal <==> env.chargeAccepted && !env.tempDirOk)
          && (!env.chargeAccepted ==>
                exists j: nat :: i < j && RolledBackAt(limits, history, j, id, req.key, r.upload))
          && (env.chargeAccepted && env.tempDirOk ==>
                exists j: nat :: i < j
                  && AssembledAt(limits, history, j, id, r.upload, sha256, req.key.sha256, status)))
  }

  lemma CommitConflicts(limits: ServerLimits, history: seq<Event>, id: nat, req: Request, env: Environment)
    requires At(Reach(limits, history), id) == Streamed(req, env.path)
    ensures var r := CommitStep(Reach(limits, history).sessions, req.key, req.params, ChunkOf(req, env.path),
                                env.now).1;
            && (r.Overlap? || r.ParamMismatch? <==> Conflicting(Reach(limits, history).sessions, req, env))
            && (r.Complete? ==> ChunkOf(req, env.path) in r.upload.chunks)
  {
    var w := Reach(limits, history);
    var o := EveryRun(limits, history);
    ATicketIsPending(w, id, req.key);
    assert TaskOk(At(w, id), w.files);
    CommitRefusals(w.sessions, req.key, req.params, ChunkOf(req, env.path), env.now);
    var u := Target(w.sessions, req.key, req.params, env.now);
    SharesAByteOf(ChunkOf(req, env.path), u.chunks);
    if Agrees(u, req.params) && !SharesAByte(ChunkOf(req, env.path), u.chunks) {
      CommitAccepts(w.sessions, req.key, req.params, ChunkOf(req, env.path), env.now);
    }
  }

  /** The rollback of a rejected upload is event `j` of the run: the session is put back with every
      chunk but the last, unless its key is active again; then nothing is put back. */
  ghost predicate RolledBackAt(limits: ServerLimits, history: seq<Event>, j: nat, id: nat, key: ChunkUploadKey,
                               upload: ChunkUpload)
  {
    && j < |history| && history[j] == TryRestore(id) && upload.chunks != []
    && var s, s' := Reach(limits, history[..j]).sessions, Reach(limits, history[..j + 1]).sessions;
       && s'.pending == s.pending
       && s'.uploads == if key in s.uploads || key in s.pending then s.uploads
                        else s.uploads[key := upload.(chunks := upload.chunks[..|upload.chunks| - 1])]
  }

  lemma RolledBackStays(limits: ServerLimits, before: seq<Event>, after: seq<Event>, j: nat, id: nat,
                        key: ChunkUploadKey, upload: ChunkUpload)
    requires before <= after && RolledBackAt(limits, before, j, id, key, upload)
    ensures RolledBackAt(limits, after, j, id, key, upload)
  {
    hide Reach;
    assert after[..j] == before[..j] && after[..j + 1] == before[..j + 1];
  }

  lemma RolledBackNow(limits: ServerLimits, before: seq<Event>, id: nat, key: ChunkUploadKey, upload: ChunkUpload,
                      s: SessionState)
    requires upload.chunks != [] && s == Reach(limits, before + [TryRestore(id)]).sessions
    requires var was := Reach(limits, before).sessions;
             && s.pending == was.pending
             && s.uploads == if key in was.uploads || key in was.pending then was.uploads
                             else was.uploads[key := upload.(chunks := upload.chunks[..|upload.chunks| - 1])]
    ensures RolledBackAt(limits, before + [TryRestore(id)], |before|, id, key, upload)
  {
    hide Reach;
    var after := before + [TryRestore(id)];
    assert after[..|before|] == before && after[..|before| + 1] == after;
  }

  lemma ReachExtends(limits: ServerLimits, history: seq<Event>, e: Event)
    ensures Reach(limits, history + [e]) == Apply(Reach(limits, history), limits, e)
  {
    assert (history + [e])[..|history|] == history;
  }

  /** The later events belong to other tasks, and none of them is handed this task's UUID path. */
  ghost predicate Others(before: seq<Event>, after: seq<Event>, id: nat, path: Path) {
    && before <= after
    && forall i :: |before| <= i < |after| ==> after[i].id != id && !(after[i].Create? && after[i].path == path)
  }

  ghost predicate Undisturbed(w: World, w': World, id: nat, path: Path) {
    && At(w', id) == At(w, id)
    && (path in w'.written <==> path in w.written)
    && forall p :: p in Held(At(w, id)) ==> p in w.files && p in w'.files && w'.files[p] == w.files[p]
  }

  lemma FreshStaysFresh(w: World, limits: ServerLimits, e: Event, path: Path)
    requires !(e.Create? && e.path == path)
    ensures path in Apply(w, limits, e).written <==> path in w.written
  {
  }

  lemma OtherStep(limits: ServerLimits, history: seq<Event>, e: Event, id: nat, path: Path)
    requires e.id != id && !(e.Create? && e.path == path)
    ensures Undisturbed(Reach(limits, history), Apply(Reach(limits, history), limits, e), id, path)
  {
    var o := EveryRun(limits, history);
    OthersLeaveMineAlone(Reach(limits, history), o, limits, e, id);
    FreshStaysFresh(Reach(limits, history), limits, e, path);
  }

  lemma UndisturbedByNothing(limits: ServerLimits, history: seq<Event>, id: nat, path: Path)
    ensures Undisturbed(Reach(limits, history), Reach(limits, history), id, path)
  {
    var o := EveryRun(limits, history);
    assert Held(At(Reach(limits, history), id)) == OwnedBy(o, ByTask(id));
  }

  /** While others run, a task keeps its state and the files it holds keep their contents. */
  lemma {:induction false} OthersRun(limits: ServerLimits, before: seq<Event>, after: seq<Event>, id: nat, path: Path)
    requires Others(before, after, id, path)
    ensures Undisturbed(Reach(limits, before), Reach(limits, after), id, path)
    decreases |after|
  {
    hide Reach, Held, At;
    if |before| == |after| {
      assert after == before;
      UndisturbedByNothing(limits, before, id, path);
    } else {
      var n := |after| - 1;
      assert before <= after[..n] && after[..n] + [after[n]] == after;
      OthersRun(limits, before, after[..n], id, path);
      OtherStep(limits, after[..n], after[n], id, path);
      ReachExtends(limits, after[..n], after[n]);
    }
  }

  class Server {
    const limits: ServerLimits
    const sessions: ChunkSessions
    var files: map<Path, seq<Byte>>
    ghost var history: seq<Event>

    ghost predicate Valid()
      reads this, sessions
    {
      && sessions.limits == limits.sessions
      && Reach(limits, history).sessions == sessions.State()
      && Reach(limits, history).files == files
    }

    ghost function World(): World
      reads this
    {
      Reach(limits, history)
    }

    ghost function Mine(id: nat): Task
      reads this
    {
      At(World(), id)
    }

    constructor (limits: ServerLimits)
      ensures Valid() && fresh(sessions) && history == [] && this.limits == limits
    {
      this.limits := limits;
      sessions := new ChunkSessions(limits.sessions);
      files := map[];
      history := [];
    }

    /** An await: any events of other tasks may happen here, and callers learn no more than that. */
    method Await(ghost id: nat, ghost path: Path)
      requires Valid()
      modifies this, sessions
      ensures Valid() && Others(old(history), history, id, path)
    {
    }

    /** What a task can still rely on after an await: its own state, the contents of the files it
        holds, and the freshness of its UUID path. */
    method Yield(ghost id: nat, ghost path: Path)
      requires Valid()
      modifies this, sessions
      ensures Valid() && Mine(id) == old(Mine(id)) && old(history) <= history
      ensures path in World().written <==> path in old(World()).written
      ensures forall p :: p in Held(Mine(id)) ==> p in old(files) && p in files && files[p] == old(files)[p]
    {
      ghost var before := history;
      Await(id, path);
      OthersRun(limits, before, history, id, path);
    }

    /** The contract of one segment of task `id`: it is the event `e`, nothing else. */
    ghost method Log(e: Event)
      requires sessions.limits == limits.sessions
      requires Apply(World(), limits, e).sessions == sessions.State()
      requires Apply(World(), limits, e).files == files
      modifies this`history
      ensures Valid() && history == old(history) + [e] && World() == Apply(old(World()), limits, e)
    {
      ghost var before := history;
      history := before + [e];
      ReachExtends(limits, before, e);
    }

    /** The registry stores this request's chunk, in a session of this request's type and length. */
    ghost predicate Holds(req: Request, path: Path)
      reads sessions
    {
      && req.key in sessions.uploads
      && var u := sessions.uploads[req.key];
         && u.uploadType == req.params.uploadType && u.uploadLength == req.params.uploadLength
         && ChunkOf(req, path) in u.chunks
    }

    method ReserveSlot(id: nat, h: Headers) returns (r: Reservation)
      requires Valid() && id !in World().tasks && Admission(h, limits).None?
      modifies this`history, sessions
      ensures Valid() && history == old(history) + [Begin(id, h)] && World().written == old(World()).written
      ensures Mine(id) == if r.Granted? then Reserved(RequestOf(h)) else Done
      ensures ReservationIs(r, old(sessions.uploads), old(sessions.pending), limits.sessions, RequestOf(h).key)
      ensures !r.Granted? ==> sessions.State() == old(sessions.State())
    {
      hide ReservationIs;
      r := sessions.Reserve(RequestOf(h).key);
      Log(Begin(id, h));
    }

    method ReleaseTicket(id: nat, req: Request)
      requires Valid() && (Mine(id) == Reserved(req) || Mine(id) == Releasing(req))
      modifies this`history, sessions
      ensures Valid() && Mine(id) == Done && old(history) <= history
    {
      sessions.Release(req.key);
      Log(if Mine(id).Reserved? then Decline(id) else GiveBack(id));
    }

    method UnlinkOwn(id: nat, path: Path)
      requires Valid() && ((Mine(id).Aborting? && Mine(id).path == path) || Mine(id) == Dropping(path))
      modifies this`files, this`history
      ensures Valid() && history == old(history) + [Unlink(id)]
      ensures Mine(id) == if old(Mine(id)).Aborting? then Releasing(old(Mine(id)).req) else Done
    {
      files := files - {path};
      Log(Unlink(id));
    }

    /** The file is there and holds exactly these bytes. */
    ghost predicate Stores(path: Path, bytes: Bytes)
      reads this`files
    {
      path in files && files[path] == bytes
    }

    /** Create the chunk file and write the body parts into it, refusing more than Content-Length. The
        body is accepted exactly when it is complete, and then the file holds exactly the body. */
    method StreamBody(id: nat, req: Request, env: Environment) returns (complete: bool)
      requires Valid() && Mine(id) == Reserved(req) && env.path !in World().written
      modifies this, sessions
      ensures Valid() && old(history) <= history
      ensures Mine(id) == if complete then Streamed(req, env.path) else Aborting(req, env.path)
      ensures complete <==> BodyComplete(req, env)
      ensures complete ==> Stores(env.path, Flatten(env.body))
    {
      CreateChunkFile(id, req, env.path);
      assert env.body[..0] == [];
      for i := 0 to |env.body|
        invariant Valid() && old(history) <= history && Mine(id) == Streaming(req, env.path)
        invariant Stores(env.path, Flatten(env.body[..i]))
      {
        assert env.path in Held(Mine(id));
        Yield(id, env.path);
        FlattenPart(env.body, i);
        var fits := WritePart(id, req, env.path, env.body[i]);
        if !fits {
          return false;
        }
      }
      assert env.body[..|env.body|] == env.body;
      complete := FinishBody(id, req, env.path, env.bodyOk);
    }

    method CreateChunkFile(id: nat, req: Request, path: Path)
      requires Valid() && Mine(id) == Reserved(req) && path !in World().written
      modifies this`files, this`history
      ensures Valid() && old(history) <= history && Mine(id) == Streaming(req, path) && Stores(path, [])
    {
      files := files[path := []];
      Log(Create(id, path));
    }

    /** The end of the body: complete only when nothing failed and the length is the declared one. */
    method FinishBody(id: nat, req: Request, path: Path, bodyOk: bool) returns (complete: bool)
      requires Valid() && Mine(id) == Streaming(req, path) && path in files
      modifies this`history
      ensures Valid() && old(history) <= history
      ensures complete <==> bodyOk && |files[path]| == req.length
      ensures Mine(id) == if complete then Streamed(req, path) else Aborting(req, path)
    {
      complete := bodyOk && |files[path]| == req.length;
      Log(EndBody(id, bodyOk));
    }

    /** One part of the body, unless it would exceed the declared length. */
    method WritePart(id: nat, req: Request, path: Path, part: seq<Byte>) returns (fits: bool)
      requires Valid() && Mine(id) == Streaming(req, path) && path in files
      modifies this`files, this`history
      ensures Valid() && old(history) <= history
      ensures fits <==> |old(files)[path]| + |part| <= req.length
      ensures fits ==> Mine(id) == Streaming(req, path) && path in files && files[path] == old(files)[path] + part
      ensures !fits ==> Mine(id) == Aborting(req, path)
    {
      fits := |files[path]| + |part| <= req.length;
      if fits {
        files := files[path := files[path] + part];
      }
      Log(Write(id, part));
    }

    method CommitBody(id: nat, req: Request, env: Environment) returns (r: Commit)
      requires Valid() && Mine(id) == Streamed(req, env.path)
      modifies this`history, sessions
      ensures Valid() && history == old(history) + [CommitChunk(id, env.now)]
      ensures Mine(id) == AfterCommit(Streamed(req, env.path), r)
      ensures r.Incomplete? ==> Holds(req, env.path)
      ensures r.Complete? ==> ChunkOf(req, env.path) in r.upload.chunks
      ensures CommittedAt(limits, history, |old(history)|, id, req, env, r)
    {
      CommitConflicts(limits, history, id, req, env);
      r := sessions.Append(req.key, req.params, ChunkOf(req, env.path), env.now);
      ghost var before := history;
      Log(CommitChunk(id, env.now));
      assert history[..|before|] == before;
    }

    method DiscardOne(id: nat, chunks: seq<ChunkInfo>)
      requires Valid() && Mine(id) == Discarding(chunks) && chunks != []
      modifies this`files, this`history
      ensures Valid() && Mine(id) == Discarding(chunks[1..]) && old(history) <= history
    {
      files := files - {chunks[0].path};
      Log(Discard(id));
    }

    method DiscardNone(id: nat)
      requires Valid() && Mine(id) == Discarding([])
      modifies this`history
      ensures Valid() && Mine(id) == Done && old(history) <= history
    {
      Log(Discard(id));
    }

    method DiscardChunkFiles(id: nat, chunks: seq<ChunkInfo>)
      requires Valid() && Mine(id) == Discarding(chunks)
      modifies this, sessions
      ensures Valid() && Mine(id) == Done && old(history) <= history
    {
      hide *;
      for i := 0 to |chunks|
        invariant Valid() && old(history) <= history && Mine(id) == Discarding(chunks[i..])
      {
        Yield(id, chunks[i].path);
        assert chunks[i..][0] == chunks[i] && chunks[i..][1..] == chunks[i + 1..];
        DiscardOne(id, chunks[i..]);
      }
      assert chunks[|chunks|..] == [];
      DiscardNone(id);
    }

    /** The charge was rejected: put the earlier chunks back if nobody started over, else discard them all. */
    method RollBack(id: nat, req: Request, path: Path, upload: ChunkUpload)
      requires Valid() && Mine(id) == Refused(req, path, upload)
      modifies this, sessions
      ensures Valid() && Mine(id) == Done && old(history) <= history
      ensures RolledBackAt(limits, history, |old(history)|, id, req.key, upload)
    {
      hide Reach, RolledBackAt;
      RefusedHasChunks(limits, history, id);
      ghost var before := history;
      var restored := sessions.Restore(req.key, WithoutLast(upload));
      Log(TryRestore(id));
      RolledBackNow(limits, before, id, req.key, upload, sessions.State());
      ghost var tried := history;
      if restored {
        Yield(id, path);
        UnlinkOwn(id, path);
      } else {
        DiscardChunkFiles(id, upload.chunks);
      }
      RolledBackStays(limits, tried, history, |before|, id, req.key, upload);
    }

    /** Copy the chunk files of a paid upload. They cannot change underneath the copy: while this
        task holds them, no other task's event touches them. */
    method CopyOut(id: nat, upload: ChunkUpload, sha256: seq<Byte> -> string, expected: string)
      returns (r: Result<seq<Byte>, ReconstructError>)
      requires Valid() && Mine(id) == Assembling(upload)
      ensures exists whole :: Verdict(upload, files, sha256, expected, whole, Answer(r))
    {
      ghost var whole := PaidUploadsReassemble(limits, history, id, sha256, expected);
      r := Reconstruct(upload, files, sha256, expected);
      assert Verdict(upload, files, sha256, expected, whole, Answer(r));
    }

    lemma CoverageNeverFails(id: nat)
      requires Mine(id).Assembling?
      ensures CoverageError(InOffsetOrder(Mine(id).upload.chunks), 0, Mine(id).upload.uploadLength).None?
    {
      CompletedUploadsTile(limits, history);
    }

    /** Rebuild the blob from its chunk files, then discard them. Only the digest of the chunk files,
        put in place, decides whether the blob is answered. */
    method Rebuild(id: nat, upload: ChunkUpload, tempDirOk: bool, sha256: seq<Byte> -> string, expected: string)
      returns (status: Status)
      requires Valid() && Mine(id) == Assembling(upload)
      modifies this, sessions
      ensures Valid() && Mine(id) == Done && old(history) <= history
      ensures !tempDirOk ==> status == Internal
      ensures tempDirOk ==> exists whole :: Verdict(upload, old(files), sha256, expected, whole, status)
      ensures tempDirOk ==> AssembledAt(limits, history, |old(history)|, id, upload, sha256, expected, status)
    {
      hide Reach, Verdict;
      CoverageNeverFails(id);
      ghost var before := history;
      if !tempDirOk {
        Log(Assemble(id, false));
        return Internal;
      }
      var body := CopyOut(id, upload, sha256, expected);
      status := Answer(body);
      assert Reach(limits, before) == World();
      Log(Assemble(id, true));
      AssembledNow(limits, before, id, upload, sha256, expected, status);
      ghost var assembled := history;
      DiscardChunkFiles(id, InOffsetOrder(upload.chunks));
      AssembledStays(limits, assembled, history, |before|, id, upload, sha256, expected, status);
    }

    /** Up to the commit: stream the body, and either hand the chunk to the registry or undo. */
    method StoreChunk(id: nat, req: Request, env: Environment) returns (outcome: Option<Commit>)
      requires Valid() && Mine(id) == Reserved(req) && env.path !in World().written
      modifies this, sessions
      ensures Valid() && old(history) <= history
      ensures outcome.Some? <==> BodyComplete(req, env)
      ensures outcome.None? ==> Mine(id) == Done
      ensures outcome.Some? ==>
                Mine(id) == AfterCommit(Streamed(req, env.path), outcome.value) && Stores(env.path, Flatten(env.body))
      ensures outcome == Some(Incomplete) ==> Holds(req, env.path)
      ensures outcome.Some? && outcome.value.Complete? ==> ChunkOf(req, env.path) in outcome.value.upload.chunks
      ensures outcome.Some? ==>
                |old(history)| < |history| && CommittedAt(limits, history, |history| - 1, id, req, env, outcome.value)
    {
      hide BodyComplete, Reach, CommittedAt;
      var complete := StreamBody(id, req, env);
      assert complete ==> env.path in Held(Mine(id));
      Yield(id, env.path);
      if !complete {
        UnlinkOwn(id, env.path);
        Yield(id, env.path);
        ReleaseTicket(id, req);
        return None;
      }
      var r := CommitBody(id, req, env);
      return Some(r);
    }

    /** Report the charge. A completed upload is never answered with one of the two late `204`s. */
    method Pay(id: nat, req: Request, upload: ChunkUpload, env: Environment)
      requires Valid() && Mine(id) == Paying(req, env.path, upload)
      requires env.path in PathsOf(upload.chunks) && Stores(env.path, Flatten(env.body))
      modifies this, sessions
      ensures Valid() && old(history) <= history && Stores(env.path, Flatten(env.body))
      ensures Mine(id) == if env.chargeAccepted then Assembling(upload) else Refused(req, env.path, upload)
      ensures upload.uploadLength == req.params.uploadLength && !LateNoContent(upload, req.params.uploadLength)
    {
      hide Reach, LateNoContent;
      Yield(id, env.path);
      CompletedUploadsTile(limits, history);
      ChargeOutcome(World(), id, env.chargeAccepted);
      Log(Charge(id, env.chargeAccepted));
      Yield(id, env.path);
    }

    /** From the completed upload on: charge, then roll back or rebuild. A rebuilt blob holds this
        request's bytes at this request's offset. */
    method Settle(id: nat, req: Request, upload: ChunkUpload, env: Environment, sha256: seq<Byte> -> string)
      returns (status: Status)
      requires Valid() && Mine(id) == Paying(req, env.path, upload)
      requires ChunkOf(req, env.path) in upload.chunks && Stores(env.path, Flatten(env.body))
      modifies this, sessions
      ensures Valid() && Mine(id) == Done && old(history) <= history
      ensures status == PaymentRejected <==> !env.chargeAccepted
      ensures status == Internal <==> env.chargeAccepted && !env.tempDirOk
      ensures !env.chargeAccepted ==>
                exists j: nat :: |old(history)| <= j && RolledBackAt(limits, history, j, id, req.key, upload)
      ensures env.chargeAccepted && env.tempDirOk ==>
                exists j: nat :: |old(history)| <= j
                  && AssembledAt(limits, history, j, id, upload, sha256, req.key.sha256, status)
      ensures status.Rebuilt? ==> Delivers(status.body, req, env, sha256)
      ensures status.PaymentRejected? || status.Internal? || status.Rebuilt? || status == RebuildFailed(HashMismatch)
    {
      hide Reach, LateNoContent, Flatten, Delivers, Places, AssembledAt, RolledBackAt;
      PathListed(ChunkOf(req, env.path), upload.chunks);
      Pay(id, req, upload, env);
      if !env.chargeAccepted {
        RollBack(id, req, env.path, upload);
        return PaymentRejected;
      }
      if LateNoContent(upload, req.params.uploadLength) {
        assert false;
        return NoContent;
      }
      ghost var onDisk := files;
      status := Rebuild(id, upload, env.tempDirOk, sha256, req.key.sha256);
      if env.tempDirOk {
        VerdictDelivers(upload, onDisk, sha256, req, env, status);
      }
    }

    /** Answer according to the commit. */
    method Conclude(id: nat, req: Request, r: Commit, env: Environment, sha256: seq<Byte> -> string)
      returns (status: Status)
      requires Valid() && Mine(id) == AfterCommit(Streamed(req, env.path), r) && Stores(env.path, Flatten(env.body))
      requires r.Incomplete? ==> Holds(req, env.path)
      requires r.Complete? ==> ChunkOf(req, env.path) in r.upload.chunks
      modifies this, sessions
      ensures Valid() && Mine(id) == Done && old(history) <= history
      ensures status == NoContent <==> r.Incomplete?
      ensures status == NoContent ==> Holds(req, env.path) && Stores(env.path, Flatten(env.body))
      ensures status == ChunkConflict <==> r.Overlap? || r.ParamMismatch?
      ensures r.Complete? <==>
              status.PaymentRejected? || status.Internal? || status.Rebuilt? || status == RebuildFailed(HashMismatch)
      ensures r.Complete? ==> (status == PaymentRejected <==> !env.chargeAccepted)
      ensures r.Complete? ==> (status == Internal <==> env.chargeAccepted && !env.tempDirOk)
      ensures r.Complete? && !env.chargeAccepted ==>
                exists j: nat :: |old(history)| <= j && RolledBackAt(limits, history, j, id, req.key, r.upload)
      ensures r.Complete? && env.chargeAccepted && env.tempDirOk ==>
                exists j: nat :: |old(history)| <= j
                  && AssembledAt(limits, history, j, id, r.upload, sha256, req.key.sha256, status)
      ensures status.Rebuilt? ==> Delivers(status.body, req, env, sha256)
    {
      hide Reach, Delivers, AssembledAt, RolledBackAt;
      match r {
        case Incomplete => status := NoContent;
        case Complete(upload) => status := Settle(id, req, upload, env, sha256);
        case _ =>
          Yield(id, env.path);
          UnlinkOwn(id, env.path);
          status := ChunkConflict;
      }
    }

    /** What each answer to a granted request says. */
    ghost predicate Explained(status: Status, id: nat, req: Request, env: Environment, sha256: seq<Byte> -> string,
                              since: nat)
      reads this, sessions
    {
      && (status == StorageUnavailable <==> !env.storageOk)
      && (status == BodyRejected <==> env.storageOk && !BodyComplete(req, env))
      && (env.storageOk && BodyComplete(req, env) ==>
            exists i: nat, r: Commit :: since <= i && CommittedAt(limits, history, i, id, req, env, r)
                                        && Follows(limits, history, i, id, req, env, sha256, r, status))
      && (status == NoContent ==> Holds(req, env.path) && Stores(env.path, Flatten(env.body)))
      && (status.Rebuilt? ==> Delivers(status.body, req, env, sha256))
      && !status.Inadmissible? && !status.SessionCapacity?
    }

    /** Everything after the storage checks: the body, the commit, and what the commit asks for. */
    method ServeBody(id: nat, req: Request, env: Environment, sha256: seq<Byte> -> string) returns (status: Status)
      requires Valid() && Mine(id) == Reserved(req) && env.path !in World().written && env.storageOk
      modifies this, sessions
      ensures Valid() && Mine(id) == Done && old(history) <= history
      ensures Explained(status, id, req, env, sha256, |old(history)|)
    {
      hide Reach, Delivers, BodyComplete, CommittedAt, AssembledAt, RolledBackAt, Holds, Stores;
      var outcome := StoreChunk(id, req, env);
      if outcome.None? {
        return BodyRejected;
      }
      ghost var committed := history;
      status := Conclude(id, req, outcome.value, env, sha256);
      CommittedStays(limits, committed, history, |committed| - 1, id, req, env, outcome.value);
      assert Follows(limits, history, |committed| - 1, id, req, env, sha256, outcome.value, status);
    }

    /** Everything a granted ticket leads to. */
    method ServeGranted(id: nat, req: Request, env: Environment, sha256: seq<Byte> -> string) returns (status: Status)
      requires Valid() && Mine(id) == Reserved(req) && env.path !in World().written
      modifies this, sessions
      ensures Valid() && Mine(id) == Done && old(history) <= history
      ensures Explained(status, id, req, env, sha256, |old(history)|)
    {
      hide Reach, Delivers, BodyComplete, CommittedAt, Follows;
      Yield(id, env.path);
      if !env.storageOk {
        ReleaseTicket(id, req);
        return StorageUnavailable;
      }
      hide Explained;
      ghost var served := |history|;
      status := ServeBody(id, req, env, sha256);
      ExplainedSince(status, id, req, env, sha256, served, |old(history)|);
    }

    /** The handler. Whatever the environment does and however others interleave, the request ends
        with its task finished (no ticket and no file left in its name), and every answer is given for
        its own cause only: refusals before the ticket exactly by the admission checks and the session
        limits, storage and body failures exactly when they occur, a conflict only when the session met
        at the commit conflicts, `204` only with the chunk stored under its bytes, `200` only with a
        body of the declared length and digest that holds this request's bytes at its offset. */
    method PatchUpload(id: nat, h: Headers, env: Environment, sha256: seq<Byte> -> string) returns (status: Status)
      requires Valid() && id !in World().tasks && env.path !in World().written
      modifies this, sessions
      ensures Valid() && Mine(id) == Done && old(history) <= history
      ensures status.Inadmissible? <==> Admission(h, limits).Some?
      ensures status.Inadmissible? ==> World() == old(World()) && status.reason == Admission(h, limits).value
      ensures var active := old(sessions.uploads).Keys + old(sessions.pending).Keys;
              var own := set k | k in active && k.pubkey == h.pubkey;
              status == SessionCapacity <==>
              && Admission(h, limits).None? && ChunkUploadKey(h.pubkey, h.sha256) !in active
              && (|active| >= limits.sessions.maxSessions || |own| >= limits.sessions.maxSessionsPerPubkey)
      ensures status == SessionCapacity ==> sessions.State() == old(sessions.State())
      ensures !status.Inadmissible? && status != SessionCapacity ==>
                Explained(status, id, RequestOf(h), env, sha256, |old(history)|)
      ensures status == NoContent ==> Kept(h, env)
      ensures status.Rebuilt? ==> Carries(status.body, h, env, sha256)
    {
      hide Reach, Explained, Admission, ReservationIs, Kept, Carries;
      var refusal := Admission(h, limits);
      ghost var uploads, pending := sessions.uploads, sessions.pending;
      if refusal.Some? {
        return Inadmissible(refusal.value);
      }
      var reservation := ReserveSlot(id, h);
      RefusedByCount(reservation, uploads, pending, h);
      if !reservation.Granted? {
        return SessionCapacity;
      }
      ghost var reserved := |history|;
      status := ServeGranted(id, RequestOf(h), env, sha256);
      ExplainedSince(status, id, RequestOf(h), env, sha256, reserved, |old(history)|);
      ExplainedInHeaders(status, id, h, env, sha256, reserved);
    }

    /** The chunk the headers describe is in the session the headers name, under the bytes of the body. */
    ghost predicate Kept(h: Headers, env: Environment)
      reads this`files, sessions
    {
      && env.path in files && files[env.path] == Flatten(env.body)
      && ChunkUploadKey(h.pubkey, h.sha256) in sessions.uploads
      && var u := sessions.uploads[ChunkUploadKey(h.pubkey, h.sha256)];
         && u.uploadType == h.uploadType && u.uploadLength == h.uploadLength
         && ChunkInfo(h.uploadOffset, h.contentLength, env.path) in u.chunks
    }

    lemma RefusedByCount(r: Reservation, uploads: map<ChunkUploadKey, ChunkUpload>,
                         pending: map<ChunkUploadKey, pos>, h: Headers)
      requires ReservationIs(r, uploads, pending, limits.sessions, RequestOf(h).key)
      ensures var active := uploads.Keys + pending.Keys;
              var own := set k | k in active && k.pubkey == h.pubkey;
              r != Granted <==>
              && ChunkUploadKey(h.pubkey, h.sha256) !in active
              && (|active| >= limits.sessions.maxSessions || |own| >= limits.sessions.maxSessionsPerPubkey)
    {
    }

    lemma ExplainedInHeaders(status: Status, id: nat, h: Headers, env: Environment, sha256: seq<Byte> -> string,
                             since: nat)
      requires Explained(status, id, RequestOf(h), env, sha256, since)
      ensures status == NoContent ==> Kept(h, env)
      ensures status.Rebuilt? ==> Carries(status.body, h, env, sha256)
    {
      hide Reach, CommittedAt, Follows;
    }

    lemma ExplainedSince(status: Status, id: nat, req: Request, env: Environment, sha256: seq<Byte> -> string,
                         since: nat, earlier: nat)
      requires Explained(status, id, req, env, sha256, since) && earlier <= since
      ensures Explained(status, id, req, env, sha256, earlier)
      ensures !status.Inadmissible? && status != SessionCapacity
    {
      hide CommittedAt, Follows, Delivers, BodyComplete;
    }
  }

  function Answer(r: Result<Bytes, ReconstructError>): Status {
    match r
    case Ok(body) => Rebuilt(body)
    case Err(error) => RebuildFailed(error)
  }

  lemma AssembledNow(limits: ServerLimits, before: seq<Event>, id: nat, upload: ChunkUpload,
                     sha256: Bytes -> string, expected: string, status: Status)
    requires At(Reach(limits, before), id) == Assembling(upload)
    requires exists whole :: Verdict(upload, Reach(limits, before).files, sha256, expected, whole, status)
    ensures AssembledAt(limits, before + [Assemble(id, true)], |before|, id, upload, sha256, expected, status)
  {
    hide Reach, Verdict;
    assert (before + [Assemble(id, true)])[..|before|] == before;
  }

  /** The body has the declared length and digest, and holds this request's bytes at its offset. */
  predicate Delivers(body: Bytes, req: Request, env: Environment, sha256: Bytes -> string) {
    && |body| == req.params.uploadLength && sha256(body) == req.key.sha256
    && var end := req.offset + |Flatten(env.body)|; end <= |body| && body[req.offset..end] == Flatten(env.body)
  }

  /** The body has the length and digest the headers declare, and holds the request body at the offset
      the headers declare. */
  ghost predicate Carries(body: Bytes, h: Headers, env: Environment, sha256: Bytes -> string) {
    && |body| == h.uploadLength && sha256(body) == h.sha256
    && var end := h.uploadOffset + |Flatten(env.body)|;
       end <= |body| && body[h.uploadOffset..end] == Flatten(env.body)
  }

  /** An upload whose payment was refused has at least the chunk that completed it. */
  lemma RefusedHasChunks(limits: ServerLimits, history: seq<Event>, id: nat)
    requires At(Reach(limits, history), id).Refused?
    ensures At(Reach(limits, history), id).upload.chunks != []
  {
    hide Reach;
    var o := EveryRun(limits, history);
    assert TaskOk(At(Reach(limits, history), id), Reach(limits, history).files);
  }

  lemma VerdictDelivers(upload: ChunkUpload, files: map<Path, Bytes>, sha256: Bytes -> string,
                        req: Request, env: Environment, status: Status)
    requires exists whole :: Verdict(upload, files, sha256, req.key.sha256, whole, status)
    requires ChunkOf(req, env.path) in upload.chunks && upload.uploadLength == req.params.uploadLength
    requires env.path in files && files[env.path] == Flatten(env.body)
    ensures status.Rebuilt? || status == RebuildFailed(HashMismatch)
    ensures status.Rebuilt? ==> Delivers(status.body, req, env, sha256)
  {
    hide Flatten, Places;
    var whole :| Verdict(upload, files, sha256, req.key.sha256, whole, status);
    PlacedAt(whole, upload.chunks, files, ChunkOf(req, env.path), Flatten(env.body));
  }

  lemma PlacedAt(body: Bytes, chunks: seq<ChunkInfo>, files: map<Path, Bytes>, chunk: ChunkInfo, bytes: Bytes)
    requires Places(body, chunks, files) && chunk in chunks
    requires chunk.path in files && files[chunk.path] == bytes
    ensures var end := chunk.offset + |bytes|; end <= |body| && body[chunk.offset..end] == bytes
  {
    assert EndOf(chunk) <= |body| && |body[chunk.offset..EndOf(chunk)]| == |bytes|;
  }

  lemma PathListed(chunk: ChunkInfo, chunks: seq<ChunkInfo>)
    requires chunk in chunks
    ensures chunk.path in PathsOf(chunks)
  {
  }

  lemma ChargeOutcome(w: World, id: nat, accepted: bool)
    requires At(w, id).Paying?
    ensures var t := At(w, id);
            ChargeStep(w, id, accepted).tasks[id] ==
            if !accepted then Refused(t.req, t.path, t.upload)
            else if LateNoContent(t.upload, t.req.params.uploadLength) then Done else Assembling(t.upload)
  {
  }
}

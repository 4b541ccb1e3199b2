/** What every interleaving of publications and removals guarantees. */
module BlobStorageTheorems {
  import opened Prelude
  import opened FileModel
  import opened BlobName
  import opened BlobIndex
  import opened BlobStorage

  lemma EmptyIsSound(h: Hasher)
    ensures Inv(EMPTY, h)
  {
    assert forall t :: At(EMPTY, t) == NotStarted;
  }

  lemma StepIsSound(w: World, h: Hasher, e: BlobStorage.Event)
    requires Inv(w, h)
    ensures Inv(BlobStorage.Apply(w, h, e), h)
  {
    hide Inv;
    match e {
      case BeginPublish(t, pub, temp, bytes) => BeginPublishKeeps(w, h, t, pub, temp, bytes);
      case BeginRemove(t, sha256, removal, expected) => BeginRemoveKeeps(w, h, t, sha256, removal, expected);
      case Acquire(t) => AcquireKeeps(w, h, t);
      case Check(t, ioOk) => CheckKeeps(w, h, t, ioOk);
      case Incumbent(t) => IncumbentKeeps(w, h, t);
      case Probe(t, ioOk) => ProbeKeeps(w, h, t, ioOk);
      case Clear(t, ioOk) => ClearKeeps(w, h, t, ioOk);
      case Rename(t, ioOk) => RenameKeeps(w, h, t, ioOk);
      case Index(t, now) => IndexKeeps(w, h, t, now);
      case Supersede(t) => SupersedeKeeps(w, h, t);
      case Return(t) => ReturnKeeps(w, h, t);
      case Select(t) => SelectKeeps(w, h, t);
      case Dispose(t, ioOk) => DisposeKeeps(w, h, t, ioOk);
      case Unindex(t) => UnindexKeeps(w, h, t);
    }
  }

  /** From any sound state, every interleaving stays sound. */
  lemma {:induction false} EveryRunIsSound(w: World, h: Hasher, events: seq<BlobStorage.Event>)
    requires Inv(w, h)
    ensures Inv(Run(w, h, events), h)
  {
    if events != [] {
      hide Inv, BlobStorage.Apply;
      EveryRunIsSound(w, h, events[..|events| - 1]);
      StepIsSound(Run(w, h, events[..|events| - 1]), h, events[|events| - 1]);
    }
  }

  /** Whatever the index lists and no task is working on is on disk, at the path its metadata
      determines, with the bytes its hash promises. */
  lemma IndexedBlobsAreOnDisk(h: Hasher, events: seq<BlobStorage.Event>, hash: string)
    ensures var w := Run(EMPTY, h, events);
            hash in w.entries.blobs && hash !in w.guards ==>
              IsValidHash(hash)
              && var m := w.entries.blobs[hash];
                 var path := CompletedPath(m.origin, hash, m.extension, m.expiration);
                 m.location == Local(path) && path in w.files && h(w.files[path]) == hash && |w.files[path]| == m.size
  {
    EmptyIsSound(h);
    EveryRunIsSound(EMPTY, h, events);
    assert HashOk(Run(EMPTY, h, events), h, hash);
  }

  /** The redundant-cache branch after the rename, which presumes a bypassed guard, is never taken. */
  lemma RetainedIsUnreachable(h: Hasher, events: seq<BlobStorage.Event>, t: TaskId, now: u64)
    ensures var w := Run(EMPTY, h, events);
            At(w, t).Placed? ==>
              && At(w, t).job.Publish? && IsValidHash(At(w, t).job.pub.sha256)
              && !IndexStep(w, t, now).tasks[t].Done?
              && IndexStep(w, t, now).entries.blobs[At(w, t).job.pub.sha256]
                 == MetadataOf(At(w, t).job.pub, Local(TargetOf(At(w, t).job.pub)), now)
  {
    var w := Run(EMPTY, h, events);
    EmptyIsSound(h);
    EveryRunIsSound(EMPTY, h, events);
    if At(w, t).Placed? {
      hide Inv;
      IndexPublishes(w, h, t, now);
    }
  }

  lemma OnlyTwoStepsTouchIndex(w: World, h: Hasher, e: BlobStorage.Event)
    requires !e.Index? && !e.Unindex?
    ensures BlobStorage.Apply(w, h, e).entries == w.entries
  {
    hide TargetOf, InQuarantine;
  }

  /** An upload's entry changes in only one way: a removal drops it. A cached copy's entry is also
      replaced by an upload, and by nothing else. */
  lemma EntriesChangeOnlySo(w: World, h: Hasher, e: BlobStorage.Event, hash: string)
    requires Inv(w, h) && hash in w.entries.blobs
    ensures var before, after := w.entries.blobs, BlobStorage.Apply(w, h, e).entries.blobs;
            || (hash in after && after[hash] == before[hash])
            || (hash !in after && e.Unindex? && Leaving(w, hash) && w.guards[hash] == e.t)
            || (hash in after && e.Index? && before[hash].origin == UpstreamCache && after[hash].origin == Upload)
  {
    assert TaskOk(w, h, e.t) && HashOk(w, h, hash);
    hide Inv, CompletedPath, InsertStep;
    match e {
      case Index(t, now) =>
        if At(w, t).Placed? {
          IndexPublishes(w, h, t, now);
        }
      case Unindex(_) =>
      case _ =>
        OnlyTwoStepsTouchIndex(w, h, e);
    }
  }

  // ----- temporary files -----

  predicate Quiescent(w: World) {
    forall t :: t in w.tasks ==> w.tasks[t].Done?
  }

  /** Every temporary file belongs to a publication still in progress, so none outlives its own. */
  lemma NoTemporaryFileSurvives(h: Hasher, events: seq<BlobStorage.Event>)
    ensures var w := Run(EMPTY, h, events);
            && (forall p :: p in w.files && p.Temp? ==> exists t :: OwnsTemp(At(w, t)) && At(w, t).job.temp == p.name)
            && (Quiescent(w) ==> forall p :: p in w.files ==> !p.Temp?)
  {
    var w := Run(EMPTY, h, events);
    EmptyIsSound(h);
    EveryRunIsSound(EMPTY, h, events);
    hide Run;
    forall p | p in w.files && p.Temp? ensures exists t :: OwnsTemp(At(w, t)) && At(w, t).job.temp == p.name {
      assert Temp(p.name) in w.files;
    }
  }

  // ----- quarantine -----

  lemma BanPersists(w: World, h: Hasher, e: BlobStorage.Event, hash: string)
    requires Inv(w, h) && hash in w.banned
    ensures var w' := BlobStorage.Apply(w, h, e);
            hash in w'.banned && (hash !in w.entries.blobs ==> hash !in w'.entries.blobs)
  {
    assert TaskOk(w, h, e.t) && HashOk(w, h, hash);
    BansGrow(w, h, e);
    hide Inv, CompletedPath, InsertStep;
    match e {
      case Index(t, now) =>
        if At(w, t).Placed? {
          IndexPublishes(w, h, t, now);
        }
      case Unindex(_) =>
      case _ =>
        OnlyTwoStepsTouchIndex(w, h, e);
    }
  }

  lemma BansGrow(w: World, h: Hasher, e: BlobStorage.Event)
    ensures w.banned.Keys <= BlobStorage.Apply(w, h, e).banned.Keys
  {
    hide TargetOf, InQuarantine;
  }

  /** Quarantine is for good. Once a hash is quarantined and unindexed, no continuation of the run,
      including the publications already waiting for its guard, ever makes it indexed again. */
  lemma {:induction false} QuarantineIsPermanent(w: World, h: Hasher, events: seq<BlobStorage.Event>, hash: string)
    requires Inv(w, h) && hash in w.banned && hash !in w.entries.blobs
    ensures hash in Run(w, h, events).banned && hash !in Run(w, h, events).entries.blobs
  {
    if events != [] {
      hide Inv, BlobStorage.Apply;
      EveryRunIsSound(w, h, events[..|events| - 1]);
      QuarantineIsPermanent(w, h, events[..|events| - 1], hash);
      BanPersists(Run(w, h, events[..|events| - 1]), h, events[|events| - 1], hash);
    }
  }

  /** A publication is turned away by the quarantine check exactly when its own hash is banned, never
      because of another blob's file. */
  lemma CheckRefusesExactlyBanned(w: World, h: Hasher, t: TaskId)
    requires Inv(w, h) && At(w, t).Admitted? && At(w, t).job.Publish?
    ensures CheckStep(w, t, true).tasks[t] == Done(Failed) <==> At(w, t).job.pub.sha256 in w.banned
  {
    assert TaskOk(w, h, t);
    QuarantineRefusesExactlyBanned(w, h, At(w, t).job.pub.sha256);
  }

  // ----- what callers are told -----

  ghost predicate Truthful(w: World, w': World, h: Hasher, t: TaskId)
    requires IsGuarded(At(w, t))
  {
    At(w', t).Done? ==>
      var hash := HashOf(At(w, t).job);
      match At(w', t).outcome
      case Stored(m, created) => hash in w'.entries.blobs && w'.entries.blobs[hash] == m && Backed(w', h, hash, m)
        && (created <==> At(w, t).Settled?)
      case Removed(any) => if any then hash in w.entries.blobs && hash !in w'.entries.blobs else w'.entries == w.entries
      case Failed => w'.entries == w.entries
  }

  lemma StoredTruthful(w: World, h: Hasher, t: TaskId)
    requires Inv(w, h) && IsGuarded(At(w, t))
    ensures Truthful(w, IncumbentStep(w, t), h, t) && Truthful(w, ReturnStep(w, t), h, t)
  {
    var hash := HashOf(At(w, t).job);
    assert TaskOk(w, h, t);
    if hash in w.entries.blobs && !At(w, t).Disposed? {
      BackedAfterReturn(w, h, t, hash);
    }
    hide Inv, CompletedPath, Backed, WellPlaced;
  }

  lemma RemovedTruthful(w: World, h: Hasher, t: TaskId)
    requires Inv(w, h) && IsGuarded(At(w, t))
    ensures Truthful(w, SelectStep(w, t), h, t) && Truthful(w, UnindexStep(w, t), h, t)
  {
    assert TaskOk(w, h, t);
    hide Inv, CompletedPath, Backed, WellPlaced, OrderRemove;
  }

  lemma IndexTruthful(w: World, h: Hasher, t: TaskId, now: u64)
    requires Inv(w, h) && IsGuarded(At(w, t))
    ensures Truthful(w, IndexStep(w, t, now), h, t)
  {
    if At(w, t).Placed? {
      IndexPublishes(w, h, t, now);
    }
    hide Inv, CompletedPath, Backed, InsertStep;
  }

  /** `Stored` describes the entry the index holds, and whether this call created it; `Removed(true)`
      means the entry is gone; a failure leaves the index as it is. */
  lemma OutcomesAreTruthful(w: World, h: Hasher, e: BlobStorage.Event)
    requires Inv(w, h) && IsGuarded(At(w, e.t))
    ensures Truthful(w, BlobStorage.Apply(w, h, e), h, e.t)
  {
    hide Inv, Truthful, IncumbentStep, ReturnStep, SelectStep, UnindexStep, IndexStep;
    hide CheckStep, ProbeStep, ClearStep, RenameStep, DisposeStep;
    match e {
      case Incumbent(t) => StoredTruthful(w, h, t);
      case Return(t) => StoredTruthful(w, h, t);
      case Select(t) => RemovedTruthful(w, h, t);
      case Unindex(t) => RemovedTruthful(w, h, t);
      case Index(t, now) => IndexTruthful(w, h, t, now);
      case _ => OtherStepsTruthful(w, h, e);
    }
  }

  lemma OtherStepsTruthful(w: World, h: Hasher, e: BlobStorage.Event)
    requires !e.Incumbent? && !e.Return? && !e.Select? && !e.Unindex? && !e.Index? && IsGuarded(At(w, e.t))
    ensures Truthful(w, BlobStorage.Apply(w, h, e), h, e.t)
  {
    OnlyTwoStepsTouchIndex(w, h, e);
    if At(BlobStorage.Apply(w, h, e), e.t).Done? {
      OtherStepsOnlyFail(w, h, e);
    }
    hide BlobStorage.Apply;
  }

  lemma OtherStepsOnlyFail(w: World, h: Hasher, e: BlobStorage.Event)
    requires !e.Incumbent? && !e.Return? && !e.Select? && !e.Unindex? && !e.Index?
    requires IsGuarded(At(w, e.t)) && At(BlobStorage.Apply(w, h, e), e.t).Done?
    ensures At(BlobStorage.Apply(w, h, e), e.t).outcome == Failed
  {
    hide TargetOf, InQuarantine;
  }

  lemma BackedAfterReturn(w: World, h: Hasher, t: TaskId, hash: string)
    requires Inv(w, h) && hash in w.guards && w.guards[hash] == t && !At(w, t).Disposed? && hash in w.entries.blobs
    ensures forall outcome :: Backed(Finish(w, t, outcome), h, hash, w.entries.blobs[hash])
  {
    assert HashOk(w, h, hash);
  }

  // ----- no file is forgotten -----

  /** A completed file someone answers for: an entry, or the task that is moving it. */
  ghost predicate Accounted(w: World, p: FilePath) {
    || (exists hash :: hash in w.entries.blobs && w.entries.blobs[hash].location == Local(p))
    || (exists t :: Carries(At(w, t), p))
  }

  predicate Carries(s: Step, p: FilePath) {
    match s
    case Placed(job) => job.Publish? && IsValidHash(job.pub.sha256) && p == TargetOf(job.pub)
    case Superseding(_, displaced) => displaced.location == Local(p)
    case _ => false
  }

  lemma NewFileIsCarried(w: World, h: Hasher, e: BlobStorage.Event, p: FilePath)
    requires p.Completed? && p !in w.files && p in BlobStorage.Apply(w, h, e).files
    ensures Carries(At(BlobStorage.Apply(w, h, e), e.t), p)
  {
    if !e.Rename? {
      OnlyRenameCompletes(w, h, e, p);
    }
  }

  lemma OnlyRenameCompletes(w: World, h: Hasher, e: BlobStorage.Event, p: FilePath)
    requires !e.Rename? && p.Completed?
    ensures p in BlobStorage.Apply(w, h, e).files ==> p in w.files
  {
    hide InQuarantine, TargetOf;
  }

  lemma EntryStaysAccounted(w: World, h: Hasher, e: BlobStorage.Event, p: FilePath, hash: string)
    requires Inv(w, h) && hash in w.entries.blobs && w.entries.blobs[hash].location == Local(p)
    ensures var w' := BlobStorage.Apply(w, h, e); p !in w'.files || Accounted(w', p)
  {
    var w' := BlobStorage.Apply(w, h, e);
    assert TaskOk(w, h, e.t);
    EntriesChangeOnlySo(w, h, e, hash);
    hide Inv, CompletedPath, InsertStep, TargetOf;
    if hash in w'.entries.blobs && w'.entries.blobs[hash] == w.entries.blobs[hash] {
      assert Accounted(w', p);
    } else if e.Index? {
      IndexPublishes(w, h, e.t, e.now);
      assert Carries(At(w', e.t), p);
    }
  }

  lemma CarrierStaysAccounted(w: World, h: Hasher, e: BlobStorage.Event, p: FilePath, t: TaskId)
    requires Inv(w, h) && Carries(At(w, t), p)
    ensures var w' := BlobStorage.Apply(w, h, e); p !in w'.files || Accounted(w', p)
  {
    var w' := BlobStorage.Apply(w, h, e);
    assert TaskOk(w, h, t);
    if At(w', t) == At(w, t) {
      assert Carries(At(w', t), p);
    } else {
      OnlyOwnTask(w, h, e, t);
      if At(w, t).Placed? {
        IndexPublishes(w, h, t, e.now);
        assert w'.entries.blobs[At(w, t).job.pub.sha256].location == Local(p);
      }
    }
  }

  lemma OnlyOwnTask(w: World, h: Hasher, e: BlobStorage.Event, t: TaskId)
    ensures t != e.t ==> At(BlobStorage.Apply(w, h, e), t) == At(w, t)
    ensures At(BlobStorage.Apply(w, h, e), t) != At(w, t) && At(w, t).Placed? ==> e.Index?
    ensures At(BlobStorage.Apply(w, h, e), t) != At(w, t) && At(w, t).Superseding? ==> e.Supersede?
  {
    hide TargetOf, InQuarantine, PublishStep;
  }

  /** No step abandons a completed file: a file nobody answers for afterwards was there, and
      unaccounted for, before. */
  lemma NoStepAbandonsFile(w: World, h: Hasher, e: BlobStorage.Event, p: FilePath)
    requires Inv(w, h) && p.Completed?
    ensures var w' := BlobStorage.Apply(w, h, e);
            p in w'.files && !Accounted(w', p) ==> p in w.files && !Accounted(w, p)
  {
    var w' := BlobStorage.Apply(w, h, e);
    if p !in w.files && p in w'.files {
      NewFileIsCarried(w, h, e, p);
    }
    hide Inv, BlobStorage.Apply;
    if hash :| hash in w.entries.blobs && w.entries.blobs[hash].location == Local(p) {
      EntryStaysAccounted(w, h, e, p, hash);
    } else if t :| Carries(At(w, t), p) {
      CarrierStaysAccounted(w, h, e, p, t);
    }
  }

  lemma {:induction false} NoRunAbandonsFile(h: Hasher, events: seq<BlobStorage.Event>, p: FilePath)
    requires p.Completed?
    ensures p in Run(EMPTY, h, events).files ==> Accounted(Run(EMPTY, h, events), p)
  {
    EmptyIsSound(h);
    if events != [] {
      hide Inv, BlobStorage.Apply, Accounted;
      EveryRunIsSound(EMPTY, h, events[..|events| - 1]);
      NoRunAbandonsFile(h, events[..|events| - 1], p);
      NoStepAbandonsFile(Run(EMPTY, h, events[..|events| - 1]), h, events[|events| - 1], p);
    }
  }

  /** When nothing is in progress, the completed files are exactly the files of the index. */
  lemma QuiescentDiskIsTheIndex(h: Hasher, events: seq<BlobStorage.Event>, p: FilePath)
    requires Quiescent(Run(EMPTY, h, events)) && p.Completed?
    ensures var w := Run(EMPTY, h, events);
            p in w.files <==> exists hash :: hash in w.entries.blobs && w.entries.blobs[hash].location == Local(p)
  {
    var w := Run(EMPTY, h, events);
    EmptyIsSound(h);
    EveryRunIsSound(EMPTY, h, events);
    NoRunAbandonsFile(h, events, p);
    hide Run;
    forall t ensures !Carries(At(w, t), p) {}
    if hash :| hash in w.entries.blobs && w.entries.blobs[hash].location == Local(p) {
      assert HashOk(w, h, hash);
    }
  }
}

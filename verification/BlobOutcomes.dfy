/** Why a publication keeps or replaces what is indexed, and which entries a removal may touch: the
    deciding event of every answer, in every interleaving, in terms of the entry met there. */
module BlobOutcomes {
  import opened Prelude
  import opened FileModel
  import opened BlobName
  import opened BlobIndex
  import opened BlobStorage
  import opened BlobStorageTheorems

  /** The entry is the publication's own: each field, its final path, and the time it was indexed. */
  ghost predicate Describes(m: FileMetadata, pub: Publication, now: u64) {
    && IsValidHash(pub.sha256)
    && m.size == pub.size && m.mimeType == pub.mimeType && m.extension == pub.extension
    && m.expiration == pub.expiration && m.origin == pub.origin && m.createdAt == now && m.pubkey == None
    && m.location == Local(Completed(pub.origin, pub.sha256[..1], pub.sha256[1..2],
                                     NameOf(pub.sha256, pub.expiration, pub.extension)))
  }

  /** Event `i` is where the publication looked for an incumbent: it kept one exactly when the hash was
      indexed and the publication was a cache fill or the entry an upload. */
  ghost predicate DecidedAt(h: Hasher, history: seq<BlobStorage.Event>, i: nat, t: TaskId, pub: Publication,
                            kept: Option<FileMetadata>)
  {
    && i < |history| && history[i] == Incumbent(t)
    && var w := Run(EMPTY, h, history[..i]);
       var blobs := w.entries.blobs;
       && At(w, t).Allowed? && At(w, t).job.Publish? && At(w, t).job.pub == pub
       && (kept.Some? <==>
           pub.sha256 in blobs && (pub.origin == UpstreamCache || blobs[pub.sha256].origin == Upload))
       && (kept.Some? ==> kept.value == blobs[pub.sha256])
  }

  /** Event `i` is where the removal read the index: it went on exactly when an entry was there and
      agreed with what the caller expected. */
  ghost predicate SelectedAt(h: Hasher, history: seq<BlobStorage.Event>, i: nat, t: TaskId, sha256: string,
                             expected: Option<FileMetadata>, current: Option<FileMetadata>)
  {
    && i < |history| && history[i] == Select(t)
    && var w := Run(EMPTY, h, history[..i]);
       var blobs := w.entries.blobs;
       && At(w, t).Admitted? && At(w, t).job.Remove?
       && At(w, t).job.sha256 == sha256 && At(w, t).job.expected == expected
       && (current.Some? <==>
           && sha256 in blobs
           && (expected.Some? ==>
                 && blobs[sha256].location == expected.value.location
                 && blobs[sha256].createdAt == expected.value.createdAt
                 && blobs[sha256].origin == expected.value.origin))
       && (current.Some? ==> current.value == blobs[sha256])
  }

  /** Event `j` is where the file of the selected entry was disposed of: unlinked, or for a quarantine
      moved under its own name, and nothing else; on a failure nothing happened to it. */
  ghost predicate DisposedAt(h: Hasher, history: seq<BlobStorage.Event>, j: nat, t: TaskId, sha256: string,
                             removal: Removal, current: FileMetadata, ioOk: bool)
  {
    && j < |history| && history[j] == Dispose(t, ioOk)
    && current.location.Local? && current.location.path.Completed?
    && var path := current.location.path;
       var w, w' := Run(EMPTY, h, history[..j]), Run(EMPTY, h, history[..j + 1]);
       && At(w, t).Disposing? && At(w, t).current == current && w'.entries == w.entries
       && (!ioOk ==> w'.files == w.files && w'.banned == w.banned)
       && (ioOk && removal != Quarantine ==> w'.files == w.files - {path} && w'.banned == w.banned)
       && (ioOk && removal == Quarantine ==>
             && path in w.files && w'.files == w.files[Quarantined(path.name) := w.files[path]] - {path}
             && w'.banned == w.banned[sha256 := path.name])
  }

  lemma DecidedStays(h: Hasher, before: seq<BlobStorage.Event>, after: seq<BlobStorage.Event>, i: nat, t: TaskId,
                     pub: Publication, kept: Option<FileMetadata>)
    requires before <= after && DecidedAt(h, before, i, t, pub, kept)
    ensures DecidedAt(h, after, i, t, pub, kept)
  {
    hide Run;
    assert after[..i] == before[..i];
  }

  lemma SelectedStays(h: Hasher, before: seq<BlobStorage.Event>, after: seq<BlobStorage.Event>, i: nat, t: TaskId,
                      sha256: string, expected: Option<FileMetadata>, current: Option<FileMetadata>)
    requires before <= after && SelectedAt(h, before, i, t, sha256, expected, current)
    ensures SelectedAt(h, after, i, t, sha256, expected, current)
  {
    hide Run;
    assert after[..i] == before[..i];
  }

  lemma DisposedStays(h: Hasher, before: seq<BlobStorage.Event>, after: seq<BlobStorage.Event>, j: nat, t: TaskId,
                      sha256: string, removal: Removal, current: FileMetadata, ioOk: bool)
    requires before <= after && DisposedAt(h, before, j, t, sha256, removal, current, ioOk)
    ensures DisposedAt(h, after, j, t, sha256, removal, current, ioOk)
  {
    hide Run;
    assert after[..j] == before[..j] && after[..j + 1] == before[..j + 1];
  }

  /** The disposal itself. */
  lemma DisposesNow(h: Hasher, events: seq<BlobStorage.Event>, t: TaskId, job: Job, current: FileMetadata, ioOk: bool)
    requires At(Run(EMPTY, h, events), t) == Disposing(job, current) && job.Remove?
    requires current.location.Local? && current.location.path.Completed?
    requires current.location.path in Run(EMPTY, h, events).files
    ensures DisposedAt(h, events + [Dispose(t, ioOk)], |events|, t, job.sha256, job.removal, current, ioOk)
  {
    var events' := events + [Dispose(t, ioOk)];
    assert events'[..|events|] == events && events'[..|events| + 1] == events';
    RunOn(h, events, Dispose(t, ioOk));
    var w, w' := Run(EMPTY, h, events), Run(EMPTY, h, events');
    DisposalEffect(w, t, job, current, ioOk);
    hide *;
    ApplyDispose(w, h, t, ioOk);
    DisposedAtIs(h, events', |events|, t, job.sha256, job.removal, current, ioOk, w, w');
  }

  lemma DisposalMoves(w: World, t: TaskId, job: Job, current: FileMetadata, ioOk: bool)
    requires At(w, t) == Disposing(job, current) && job.Remove?
    requires current.location.Local? && current.location.path.Completed? && current.location.path in w.files
    ensures var path, w' := current.location.path, DisposeStep(w, t, ioOk);
            && w'.entries == w.entries
            && w'.guards == (if ioOk then w.guards else w.guards - {job.sha256})
            && At(w', t) == (if ioOk then Disposed(job, current) else Done(Failed))
            && w'.files == (if !ioOk then w.files
                            else if job.removal == Quarantine
                              then w.files[Quarantined(path.name) := w.files[path]] - {path}
                            else w.files - {path})
            && (ioOk && job.removal == Quarantine ==> job.sha256 in w'.banned)
  {
  }

  lemma ApplyDispose(w: World, h: Hasher, t: TaskId, ioOk: bool)
    ensures BlobStorage.Apply(w, h, Dispose(t, ioOk)) == DisposeStep(w, t, ioOk)
  {
  }

  lemma DisposedAtIs(h: Hasher, history: seq<BlobStorage.Event>, j: nat, t: TaskId, sha256: string, removal: Removal,
                     current: FileMetadata, ioOk: bool, w: World, w': World)
    requires j < |history| && history[j] == Dispose(t, ioOk)
    requires w == Run(EMPTY, h, history[..j]) && w' == Run(EMPTY, h, history[..j + 1])
    requires At(w, t).Disposing? && At(w, t).current == current && w'.entries == w.entries
    requires current.location.Local? && current.location.path.Completed? && current.location.path in w.files
    requires var path := current.location.path;
             && (!ioOk ==> w'.files == w.files && w'.banned == w.banned)
             && (ioOk && removal != Quarantine ==> w'.files == w.files - {path} && w'.banned == w.banned)
             && (ioOk && removal == Quarantine ==>
                   && w'.files == w.files[Quarantined(path.name) := w.files[path]] - {path}
                   && w'.banned == w.banned[sha256 := path.name])
    ensures DisposedAt(h, history, j, t, sha256, removal, current, ioOk)
  {
    hide Run, At;
  }

  lemma DisposalEffect(w: World, t: TaskId, job: Job, current: FileMetadata, ioOk: bool)
    requires At(w, t) == Disposing(job, current) && job.Remove?
    requires current.location.Local? && current.location.path.Completed? && current.location.path in w.files
    ensures var path, w' := current.location.path, DisposeStep(w, t, ioOk);
            && w'.entries == w.entries
            && (!ioOk ==> w'.files == w.files && w'.banned == w.banned)
            && (ioOk && job.removal != Quarantine ==> w'.files == w.files - {path} && w'.banned == w.banned)
            && (ioOk && job.removal == Quarantine ==>
                  && w'.files == w.files[Quarantined(path.name) := w.files[path]] - {path}
                  && w'.banned == w.banned[job.sha256 := path.name])
  {
  }

  // ----- the guard protects the entry -----

  lemma IndexTouchesOwnHash(w: World, t: TaskId, now: u64, hash: string)
    requires At(w, t).Placed? && HashOf(At(w, t).job) != hash
    ensures var before, after := w.entries.blobs, IndexStep(w, t, now).entries.blobs;
            (hash in after <==> hash in before) && (hash in after ==> after[hash] == before[hash])
  {
    hide TargetOf, IsValidHash;
  }

  lemma UnindexTouchesOwnHash(w: World, t: TaskId, hash: string)
    requires At(w, t).Disposed? && HashOf(At(w, t).job) != hash
    ensures var before, after := w.entries.blobs, UnindexStep(w, t).entries.blobs;
            (hash in after <==> hash in before) && (hash in after ==> after[hash] == before[hash])
  {
    hide OrderRemove;
  }

  ghost predicate SameEntry(w: World, w': World, hash: string) {
    && (hash in w'.entries.blobs <==> hash in w.entries.blobs)
    && (hash in w.entries.blobs ==> w'.entries.blobs[hash] == w.entries.blobs[hash])
  }

  /** While a task holds the guard of a hash, nobody else's step changes the entry of that hash. */
  lemma GuardedEntryStays(w: World, h: Hasher, e: BlobStorage.Event, t: TaskId)
    requires Inv(w, h) && IsGuarded(At(w, t)) && e.t != t
    ensures SameEntry(w, BlobStorage.Apply(w, h, e), HashOf(At(w, t).job))
  {
    var hash := HashOf(At(w, t).job);
    GuardsApart(w, h, t, e.t);
    hide *;
    ApplyTwo(w, h, e);
    SameWorld(w, hash);
    match e {
      case Index(u, now) =>
        if At(w, u).Placed? {
          IndexTouchesOwnHash(w, u, now, hash);
        } else {
          IndexElsewhere(w, u, now);
        }
      case Unindex(u) =>
        if At(w, u).Disposed? {
          UnindexTouchesOwnHash(w, u, hash);
        } else {
          UnindexElsewhere(w, u);
        }
      case _ => OnlyTwoStepsTouchIndex(w, h, e);
    }
  }

  lemma GuardsApart(w: World, h: Hasher, t: TaskId, u: TaskId)
    requires Inv(w, h) && IsGuarded(At(w, t)) && t != u
    ensures IsGuarded(At(w, u)) ==> HashOf(At(w, u).job) != HashOf(At(w, t).job)
    ensures At(w, u).Placed? || At(w, u).Disposed? ==> HashOf(At(w, u).job) != HashOf(At(w, t).job)
  {
    assert TaskOk(w, h, t) && TaskOk(w, h, u);
  }

  lemma SameWorld(w: World, hash: string)
    ensures forall w': World :: w'.entries == w.entries ==> SameEntry(w, w', hash)
    ensures forall w': World :: SameEntry(w, w', hash) <==>
              var before, after := w.entries.blobs, w'.entries.blobs;
              (hash in after <==> hash in before) && (hash in after ==> after[hash] == before[hash])
  {
  }

  lemma ApplyTwo(w: World, h: Hasher, e: BlobStorage.Event)
    ensures e.Index? ==> BlobStorage.Apply(w, h, e) == IndexStep(w, e.t, e.now)
    ensures e.Unindex? ==> BlobStorage.Apply(w, h, e) == UnindexStep(w, e.t)
  {
  }

  lemma IndexElsewhere(w: World, t: TaskId, now: u64)
    ensures !At(w, t).Placed? ==> IndexStep(w, t, now) == w
  {
  }

  lemma UnindexElsewhere(w: World, t: TaskId)
    ensures !At(w, t).Disposed? ==> UnindexStep(w, t) == w
  {
  }

  // ----- every run -----

  /** The index was given this entry at one of the publication's `Index` events. */
  ghost predicate IndexedIn(m: FileMetadata, events: seq<BlobStorage.Event>, t: TaskId, pub: Publication) {
    exists now :: BlobStorage.Index(t, now) in events && Describes(m, pub, now)
  }

  ghost predicate Unopposed(h: Hasher, events: seq<BlobStorage.Event>, t: TaskId, job: Job) {
    job.Publish? && exists i: nat :: DecidedAt(h, events, i, t, job.pub, None)
  }

  /** The index holds the publication's own entry. */
  ghost predicate Entered(h: Hasher, events: seq<BlobStorage.Event>, t: TaskId, job: Job) {
    && job.Publish? && job.pub.sha256 in Run(EMPTY, h, events).entries.blobs
    && IndexedIn(Run(EMPTY, h, events).entries.blobs[job.pub.sha256], events, t, job.pub)
  }

  /** The incumbent a stored answer names, unless the publication created the entry. */
  function Incumbents(m: FileMetadata, created: bool): Option<FileMetadata> {
    if created then None else Some(m)
  }

  /** Why a stored answer is what it is: an incumbent took precedence, or nothing did and the entry is
      the publication's own. */
  ghost predicate Explained(h: Hasher, events: seq<BlobStorage.Event>, t: TaskId, pub: Publication, m: FileMetadata,
                            created: bool)
  {
    && (exists i: nat :: DecidedAt(h, events, i, t, pub, Incumbents(m, created)))
    && (created ==> IndexedIn(m, events, t, pub))
  }

  /** What has been settled about a task that is publishing, or has published. */
  ghost predicate Story(h: Hasher, events: seq<BlobStorage.Event>, t: TaskId) {
    match At(Run(EMPTY, h, events), t)
    case Placing(job) => Unopposed(h, events, t, job)
    case Clearing(job) => Unopposed(h, events, t, job)
    case Renaming(job) => Unopposed(h, events, t, job)
    case Placed(job) => Unopposed(h, events, t, job)
    case Superseding(job, _) => Unopposed(h, events, t, job) && Entered(h, events, t, job)
    case Settled(job) => Unopposed(h, events, t, job) && Entered(h, events, t, job)
    case Done(Stored(m, created)) => exists pub :: Explained(h, events, t, pub, m, created)
    case _ => true
  }

  lemma RunOn(h: Hasher, events: seq<BlobStorage.Event>, e: BlobStorage.Event)
    ensures Run(EMPTY, h, events + [e]) == BlobStorage.Apply(Run(EMPTY, h, events), h, e)
    ensures Inv(Run(EMPTY, h, events), h)
  {
    assert (events + [e])[..|events|] == events;
    EmptyIsSound(h);
    EveryRunIsSound(EMPTY, h, events);
  }

  lemma UnopposedOn(h: Hasher, events: seq<BlobStorage.Event>, e: BlobStorage.Event, t: TaskId, job: Job)
    requires Unopposed(h, events, t, job)
    ensures Unopposed(h, events + [e], t, job)
  {
    hide DecidedAt;
    var i: nat :| DecidedAt(h, events, i, t, job.pub, None);
    DecidedStays(h, events, events + [e], i, t, job.pub, None);
  }

  lemma ExplainedOn(h: Hasher, events: seq<BlobStorage.Event>, e: BlobStorage.Event, t: TaskId, pub: Publication,
                    m: FileMetadata, created: bool)
    requires Explained(h, events, t, pub, m, created)
    ensures Explained(h, events + [e], t, pub, m, created)
  {
    hide DecidedAt, Describes;
    var kept := Incumbents(m, created);
    var i: nat :| DecidedAt(h, events, i, t, pub, kept);
    DecidedStays(h, events, events + [e], i, t, pub, kept);
  }

  lemma EnteredOn(h: Hasher, events: seq<BlobStorage.Event>, e: BlobStorage.Event, t: TaskId, job: Job)
    requires Entered(h, events, t, job)
    requires SameEntry(Run(EMPTY, h, events), Run(EMPTY, h, events + [e]), job.pub.sha256)
    ensures Entered(h, events + [e], t, job)
  {
    hide Run, Describes;
  }

  /** A step after which the task stands where it stood changes nothing about its story. */
  lemma StoryStays(h: Hasher, events: seq<BlobStorage.Event>, e: BlobStorage.Event, t: TaskId)
    requires Story(h, events, t)
    requires At(Run(EMPTY, h, events + [e]), t) == At(Run(EMPTY, h, events), t)
    requires var s := At(Run(EMPTY, h, events), t);
             s.Superseding? || s.Settled? ==>
               SameEntry(Run(EMPTY, h, events), Run(EMPTY, h, events + [e]), HashOf(s.job))
    ensures Story(h, events + [e], t)
  {
    hide Run, Unopposed, Entered, Explained, SameEntry;
    var s := At(Run(EMPTY, h, events), t);
    match s {
      case Placing(job) => UnopposedOn(h, events, e, t, job);
      case Clearing(job) => UnopposedOn(h, events, e, t, job);
      case Renaming(job) => UnopposedOn(h, events, e, t, job);
      case Placed(job) => UnopposedOn(h, events, e, t, job);
      case Superseding(job, _) => UnopposedOn(h, events, e, t, job); UnopposedPublishes(h, events, t, job);
        EnteredOn(h, events, e, t, job);
      case Settled(job) => UnopposedOn(h, events, e, t, job); UnopposedPublishes(h, events, t, job);
        EnteredOn(h, events, e, t, job);
      case Done(Stored(m, created)) =>
        var pub :| Explained(h, events, t, pub, m, created);
        ExplainedOn(h, events, e, t, pub, m, created);
      case _ =>
    }
  }

  lemma UnopposedPublishes(h: Hasher, events: seq<BlobStorage.Event>, t: TaskId, job: Job)
    requires Unopposed(h, events, t, job)
    ensures job.Publish? && HashOf(job) == job.pub.sha256
  {
  }

  /** The decision itself. */
  lemma DecidesNow(h: Hasher, events: seq<BlobStorage.Event>, t: TaskId, job: Job)
    requires At(Run(EMPTY, h, events), t) == Allowed(job) && job.Publish?
    ensures var events' := events + [Incumbent(t)];
            var s := At(BlobStorage.Apply(Run(EMPTY, h, events), h, Incumbent(t)), t);
            || (s == Placing(job) && DecidedAt(h, events', |events|, t, job.pub, None))
            || (s.Done? && s.outcome.Stored? && !s.outcome.created
                && DecidedAt(h, events', |events|, t, job.pub, Some(s.outcome.metadata)))
  {
    hide Run, Finish;
    var events' := events + [Incumbent(t)];
    assert events'[..|events|] == events;
    IncumbentMoves(Run(EMPTY, h, events), t, job);
  }

  lemma IncumbentMoves(w: World, t: TaskId, job: Job)
    requires At(w, t) == Allowed(job) && job.Publish?
    ensures var s, blobs, hash := At(IncumbentStep(w, t), t), w.entries.blobs, job.pub.sha256;
            if hash in blobs && (job.pub.origin == UpstreamCache || blobs[hash].origin == Upload)
            then s == Done(Stored(blobs[hash], false)) else s == Placing(job)
  {
  }

  lemma DecisionStory(h: Hasher, events: seq<BlobStorage.Event>, t: TaskId, job: Job)
    requires At(Run(EMPTY, h, events), t) == Allowed(job) && job.Publish?
    ensures Story(h, events + [Incumbent(t)], t)
  {
    hide Run, DecidedAt, BlobStorage.Apply;
    RunOn(h, events, Incumbent(t));
    DecidesNow(h, events, t, job);
    var s := At(Run(EMPTY, h, events + [Incumbent(t)]), t);
    if s.Done? {
      assert Incumbents(s.outcome.metadata, false) == Some(s.outcome.metadata);
      assert Explained(h, events + [Incumbent(t)], t, job.pub, s.outcome.metadata, false);
    } else {
      assert Unopposed(h, events + [Incumbent(t)], t, job);
    }
  }

  /** Moving towards the final place: the job is the same, or the publication has failed. */
  lemma PlacementMoves(w: World, h: Hasher, e: BlobStorage.Event)
    requires e.Probe? || e.Clear? || e.Rename?
    requires At(BlobStorage.Apply(w, h, e), e.t) != At(w, e.t)
    ensures var s, s' := At(w, e.t), At(BlobStorage.Apply(w, h, e), e.t);
            && (s.Placing? || s.Clearing? || s.Renaming?)
            && (s' == Done(Failed) || ((s'.Clearing? || s'.Renaming? || s'.Placed?) && s'.job == s.job))
  {
    hide TargetOf;
  }

  lemma PlacementStory(h: Hasher, events: seq<BlobStorage.Event>, e: BlobStorage.Event)
    requires e.Probe? || e.Clear? || e.Rename?
    requires Story(h, events, e.t) && At(Run(EMPTY, h, events + [e]), e.t) != At(Run(EMPTY, h, events), e.t)
    ensures Story(h, events + [e], e.t)
  {
    hide Run, Unopposed, BlobStorage.Apply;
    RunOn(h, events, e);
    PlacementMoves(Run(EMPTY, h, events), h, e);
    if At(Run(EMPTY, h, events + [e]), e.t) != Done(Failed) {
      UnopposedOn(h, events, e, e.t, At(Run(EMPTY, h, events), e.t).job);
    }
  }

  lemma PublishedIsDescribed(pub: Publication, now: u64)
    requires IsValidHash(pub.sha256)
    ensures Describes(MetadataOf(pub, Local(TargetOf(pub)), now), pub, now)
  {
  }

  lemma IndexStory(h: Hasher, events: seq<BlobStorage.Event>, t: TaskId, now: u64)
    requires Story(h, events, t) && At(Run(EMPTY, h, events), t).Placed?
    ensures Story(h, events + [BlobStorage.Index(t, now)], t)
  {
    hide Run, Unopposed, Describes, Inv, MetadataOf, TargetOf, PublishStep;
    var e, w := BlobStorage.Index(t, now), Run(EMPTY, h, events);
    RunOn(h, events, e);
    IndexPublishes(w, h, t, now);
    UnopposedOn(h, events, e, t, At(w, t).job);
    PublishedIsDescribed(At(w, t).job.pub, now);
    assert e in events + [e];
  }

  lemma SupersedeStory(h: Hasher, events: seq<BlobStorage.Event>, t: TaskId)
    requires Story(h, events, t) && At(Run(EMPTY, h, events), t).Superseding?
    ensures Story(h, events + [Supersede(t)], t)
  {
    hide Run, Unopposed, IndexedIn, Inv;
    RunOn(h, events, Supersede(t));
    UnopposedOn(h, events, Supersede(t), t, At(Run(EMPTY, h, events), t).job);
    IndexedOn(Run(EMPTY, h, events).entries.blobs[At(Run(EMPTY, h, events), t).job.pub.sha256], events,
              Supersede(t), t, At(Run(EMPTY, h, events), t).job.pub);
  }

  lemma IndexedOn(m: FileMetadata, events: seq<BlobStorage.Event>, e: BlobStorage.Event, t: TaskId, pub: Publication)
    requires IndexedIn(m, events, t, pub)
    ensures IndexedIn(m, events + [e], t, pub)
  {
    hide Describes;
  }

  lemma ReturnStory(h: Hasher, events: seq<BlobStorage.Event>, t: TaskId)
    requires Story(h, events, t) && At(Run(EMPTY, h, events), t).Settled?
    ensures Story(h, events + [Return(t)], t)
  {
    hide Run, IndexedIn, Inv, DecidedAt;
    var job := At(Run(EMPTY, h, events), t).job;
    var m := Run(EMPTY, h, events).entries.blobs[job.pub.sha256];
    RunOn(h, events, Return(t));
    UnopposedOn(h, events, Return(t), t, job);
    IndexedOn(m, events, Return(t), t, job.pub);
    assert Incumbents(m, true) == None;
    assert Explained(h, events + [Return(t)], t, job.pub, m, true);
  }

  /** Other steps of the task end it without a stored answer, or come before the decision. */
  lemma OtherOwnSteps(w: World, h: Hasher, e: BlobStorage.Event)
    requires !e.Incumbent? && !e.Probe? && !e.Clear? && !e.Rename? && !e.Index? && !e.Supersede? && !e.Return?
    ensures var s, s' := At(w, e.t), At(BlobStorage.Apply(w, h, e), e.t);
            || s' == s || s'.Queued? || s'.Admitted? || s'.Allowed? || s'.Disposing? || s'.Disposed?
            || (s'.Done? && !s'.outcome.Stored?)
  {
    hide TargetOf, InQuarantine;
  }

  lemma OwnStoryStays(h: Hasher, events: seq<BlobStorage.Event>, e: BlobStorage.Event)
    requires Story(h, events, e.t) && At(Run(EMPTY, h, events + [e]), e.t) == At(Run(EMPTY, h, events), e.t)
    ensures Story(h, events + [e], e.t)
  {
    var w, s := Run(EMPTY, h, events), At(Run(EMPTY, h, events), e.t);
    RunOn(h, events, e);
    hide Run, Story, Inv, IndexStep, UnindexStep;
    if s.Superseding? || s.Settled? {
      if e.Index? {
        IndexElsewhere(w, e.t, e.now);
      } else if e.Unindex? {
        UnindexElsewhere(w, e.t);
      } else {
        OnlyTwoStepsTouchIndex(w, h, e);
      }
    }
    hide BlobStorage.Apply;
    StoryStays(h, events, e, e.t);
  }

  lemma UnmovedElsewhere(w: World, h: Hasher, e: BlobStorage.Event)
    ensures e.Incumbent? && At(BlobStorage.Apply(w, h, e), e.t) != At(w, e.t) ==> At(w, e.t).Allowed?
    ensures e.Index? && At(BlobStorage.Apply(w, h, e), e.t) != At(w, e.t) ==> At(w, e.t).Placed?
    ensures e.Supersede? && At(BlobStorage.Apply(w, h, e), e.t) != At(w, e.t) ==> At(w, e.t).Superseding?
    ensures e.Return? && At(BlobStorage.Apply(w, h, e), e.t) != At(w, e.t) ==> At(w, e.t).Settled?
  {
    hide TargetOf, PublishStep;
  }

  lemma AllowedPublishes(w: World, h: Hasher, t: TaskId)
    requires Inv(w, h)
    ensures At(w, t).Allowed? ==> At(w, t).job.Publish?
  {
    assert TaskOk(w, h, t);
  }

  lemma OwnStory(h: Hasher, events: seq<BlobStorage.Event>, e: BlobStorage.Event)
    requires Story(h, events, e.t)
    ensures Story(h, events + [e], e.t)
  {
    var w := Run(EMPTY, h, events);
    RunOn(h, events, e);
    AllowedPublishes(w, h, e.t);
    UnmovedElsewhere(w, h, e);
    AllowedNow(h, events, e.t);
    hide *;
    if At(Run(EMPTY, h, events + [e]), e.t) == At(w, e.t) {
      OwnStoryStays(h, events, e);
    } else {
      match e {
        case Incumbent(t) => DecisionStory(h, events, t, At(w, t).job);
        case Probe(_, _) => PlacementStory(h, events, e);
        case Clear(_, _) => PlacementStory(h, events, e);
        case Rename(_, _) => PlacementStory(h, events, e);
        case Index(t, now) => IndexStory(h, events, t, now);
        case Supersede(t) => SupersedeStory(h, events, t);
        case Return(t) => ReturnStory(h, events, t);
        case _ => OtherStory(h, events, e);
      }
    }
  }

  lemma AllowedNow(h: Hasher, events: seq<BlobStorage.Event>, t: TaskId)
    ensures var s := At(Run(EMPTY, h, events), t); s.Allowed? ==> s == Allowed(s.job)
  {
  }

  lemma OtherStory(h: Hasher, events: seq<BlobStorage.Event>, e: BlobStorage.Event)
    requires !e.Incumbent? && !e.Probe? && !e.Clear? && !e.Rename? && !e.Index? && !e.Supersede? && !e.Return?
    requires At(Run(EMPTY, h, events + [e]), e.t) != At(Run(EMPTY, h, events), e.t)
    ensures Story(h, events + [e], e.t)
  {
    RunOn(h, events, e);
    OtherOwnSteps(Run(EMPTY, h, events), h, e);
    hide Run, BlobStorage.Apply;
  }

  lemma OthersStory(h: Hasher, events: seq<BlobStorage.Event>, e: BlobStorage.Event, t: TaskId)
    requires Story(h, events, t) && e.t != t
    ensures Story(h, events + [e], t)
  {
    var w := Run(EMPTY, h, events);
    RunOn(h, events, e);
    OnlyOwnTask(w, h, e, t);
    if IsGuarded(At(w, t)) {
      GuardedEntryStays(w, h, e, t);
    }
    hide Run, Inv, BlobStorage.Apply, Story, SameEntry;
    StoryStays(h, events, e, t);
  }

  lemma {:induction false} EveryStoryIsTrue(h: Hasher, events: seq<BlobStorage.Event>, t: TaskId)
    ensures Story(h, events, t)
  {
    if events != [] {
      var front, e := events[..|events| - 1], events[|events| - 1];
      EveryStoryIsTrue(h, front, t);
      assert front + [e] == events;
      hide Story;
      if e.t == t {
        OwnStory(h, front, e);
      } else {
        OthersStory(h, front, e, t);
      }
    }
  }

  /** In every run a stored answer has its reason. It names an incumbent exactly when, at the moment of
      the decision, the hash was indexed and the publication was a cache fill or the entry an upload;
      otherwise it names the publication's own entry. An upload is never answered with a cached copy. */
  lemma StoredAnswersAreExplained(h: Hasher, events: seq<BlobStorage.Event>, t: TaskId, m: FileMetadata, created: bool)
    requires At(Run(EMPTY, h, events), t) == Done(Stored(m, created))
    ensures exists pub, i: nat ::
              && DecidedAt(h, events, i, t, pub, Incumbents(m, created))
              && (created ==> IndexedIn(m, events, t, pub))
              && (pub.origin == Upload ==> m.origin == Upload)
  {
    hide Run;
    EveryStoryIsTrue(h, events, t);
    var pub :| Explained(h, events, t, pub, m, created);
    var i: nat :| DecidedAt(h, events, i, t, pub, Incumbents(m, created));
  }

  // ----- removals -----

  /** A removal that has chosen an entry was asked for that entry. */
  ghost predicate ChoseExpected(s: Step) {
    (s.Disposing? || s.Disposed?) && s.job.Remove? && s.job.expected.Some? ==>
      && s.current.location == s.job.expected.value.location
      && s.current.createdAt == s.job.expected.value.createdAt
      && s.current.origin == s.job.expected.value.origin
  }

  lemma ChoiceStays(w: World, h: Hasher, e: BlobStorage.Event, t: TaskId)
    requires ChoseExpected(At(w, t))
    ensures ChoseExpected(At(BlobStorage.Apply(w, h, e), t))
  {
    OnlyOwnTask(w, h, e, t);
    hide TargetOf, InQuarantine, PublishStep;
  }

  lemma {:induction false} EveryChoiceWasExpected(h: Hasher, events: seq<BlobStorage.Event>, t: TaskId)
    ensures ChoseExpected(At(Run(EMPTY, h, events), t))
  {
    if events != [] {
      EveryChoiceWasExpected(h, events[..|events| - 1], t);
      hide BlobStorage.Apply, ChoseExpected;
      ChoiceStays(Run(EMPTY, h, events[..|events| - 1]), h, events[|events| - 1], t);
    }
  }

  lemma OnlyDisposersDispose(w: World, h: Hasher, t: TaskId, ioOk: bool)
    requires DisposeStep(w, t, ioOk).files != w.files
    ensures var s := At(w, t);
            && s.Disposing? && s.job.Remove? && s.current.location.Local? && ioOk
            && (forall p :: p in w.files && p !in DisposeStep(w, t, ioOk).files ==> Local(p) == s.current.location)
  {
  }

  /** In every run a removal unlinks or moves nothing but the file of the entry its hash has in the
      index, and only if that entry is the one the caller expected, should it have named one. */
  lemma OnlyExpectedFilesGo(h: Hasher, events: seq<BlobStorage.Event>, t: TaskId, ioOk: bool)
    requires DisposeStep(Run(EMPTY, h, events), t, ioOk).files != Run(EMPTY, h, events).files
    ensures var w, w' := Run(EMPTY, h, events), DisposeStep(Run(EMPTY, h, events), t, ioOk);
            && At(w, t).Disposing? && At(w, t).job.Remove? && At(w, t).job.sha256 in w.entries.blobs
            && var job, m := At(w, t).job, w.entries.blobs[At(w, t).job.sha256];
               && (job.expected.Some? ==>
                     && m.location == job.expected.value.location && m.createdAt == job.expected.value.createdAt
                     && m.origin == job.expected.value.origin)
               && (forall p :: p in w.files && p !in w'.files ==> Local(p) == m.location)
  {
    var w := Run(EMPTY, h, events);
    EmptyIsSound(h);
    EveryRunIsSound(EMPTY, h, events);
    assert TaskOk(w, h, t);
    EveryChoiceWasExpected(h, events, t);
    OnlyDisposersDispose(w, h, t, ioOk);
    hide Run, DisposeStep, Inv;
  }

  /** A hash is banned only by a quarantine of that hash. */
  lemma OnlyQuarantineBans(w: World, h: Hasher, e: BlobStorage.Event, hash: string)
    requires hash in BlobStorage.Apply(w, h, e).banned && hash !in w.banned
    ensures e.Dispose? && At(w, e.t).Disposing?
            && At(w, e.t).job == Job.Remove(hash, Quarantine, At(w, e.t).job.expected)
  {
    hide TargetOf, InQuarantine, PublishStep;
  }
}

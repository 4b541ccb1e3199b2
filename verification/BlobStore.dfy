/** `publish_blob` and `remove_indexed_blob` as they run, from the moment the per-hash guard is
    granted, with other tasks interleaved at every await. */
module BlobStore {
  import opened Prelude
  import opened FileModel
  import opened BlobName
  import opened BlobIndex
  import opened BlobStorage
  import opened BlobStorageTheorems
  import opened BlobOutcomes

  /** What the file system and the clock decide for one publication. */
  datatype Environment = Environment(listingOk: bool, probeOk: bool, clearOk: bool, renameOk: bool, now: u64)

  ghost predicate OthersOnly(before: seq<BlobStorage.Event>, after: seq<BlobStorage.Event>, t: TaskId) {
    before <= after && forall i :: |before| <= i < |after| ==> after[i].t != t
  }

  lemma RunExtends(h: Hasher, history: seq<BlobStorage.Event>, e: BlobStorage.Event)
    ensures Run(EMPTY, h, history + [e]) == BlobStorage.Apply(Run(EMPTY, h, history), h, e)
  {
    assert (history + [e])[..|history|] == history;
  }

  lemma {:induction false} OthersLeaveTask(h: Hasher, before: seq<BlobStorage.Event>, after: seq<BlobStorage.Event>,
                                           t: TaskId)
    requires OthersOnly(before, after, t)
    ensures At(Run(EMPTY, h, after), t) == At(Run(EMPTY, h, before), t)
    ensures Run(EMPTY, h, before).banned.Keys <= Run(EMPTY, h, after).banned.Keys
    ensures OwnEntryStays(Run(EMPTY, h, before), Run(EMPTY, h, after), t)
    decreases |after|
  {
    OthersFront(before, after, t);
    hide *;
    if |after| == |before| {
      NothingStays(Run(EMPTY, h, before), t);
    } else {
      var n := |after| - 1;
      OthersLeaveTask(h, before, after[..n], t);
      assert after == after[..n] + [after[n]];
      RunOn(h, after[..n], after[n]);
      OnlyOwnTask(Run(EMPTY, h, after[..n]), h, after[n], t);
      BansGrow(Run(EMPTY, h, after[..n]), h, after[n]);
      OtherStepStays(Run(EMPTY, h, before), Run(EMPTY, h, after[..n]), h, after[n], t);
    }
  }

  /** The entry of a hash is left alone while the task holds its guard. */
  ghost predicate OwnEntryStays(w: World, w': World, t: TaskId) {
    IsGuarded(At(w, t)) ==> SameEntry(w, w', HashOf(At(w, t).job))
  }

  lemma NothingStays(w: World, t: TaskId)
    ensures OwnEntryStays(w, w, t)
  {
  }

  lemma OthersFront(before: seq<BlobStorage.Event>, after: seq<BlobStorage.Event>, t: TaskId)
    requires OthersOnly(before, after, t)
    ensures |before| == |after| ==> before == after
    ensures |before| != |after| ==>
              |before| < |after| && OthersOnly(before, after[..|after| - 1], t) && after[|after| - 1].t != t
  {
  }

  lemma OtherStepStays(w: World, w': World, h: Hasher, e: BlobStorage.Event, t: TaskId)
    requires Inv(w', h) && At(w', t) == At(w, t) && OwnEntryStays(w, w', t) && e.t != t
    ensures OwnEntryStays(w, BlobStorage.Apply(w', h, e), t)
  {
    hide Inv, BlobStorage.Apply;
    if IsGuarded(At(w, t)) {
      GuardedEntryStays(w', h, e, t);
    }
  }

  class Storage {
    const hasher: Hasher
    var entries: Entries
    var files: map<FilePath, Bytes>
    var guards: map<string, TaskId>
    ghost var history: seq<BlobStorage.Event>

    ghost function World(): World
      reads this
    {
      Run(EMPTY, hasher, history)
    }

    ghost function Mine(t: TaskId): Step
      reads this
    {
      At(World(), t)
    }

    ghost predicate Valid()
      reads this
    {
      World().entries == entries && World().files == files && World().guards == guards
    }

    constructor (hasher: Hasher)
      ensures Valid() && history == [] && this.hasher == hasher
    {
      this.hasher := hasher;
      entries, files, guards, history := NO_ENTRIES, map[], map[], [];
    }

    /** An await: other tasks may take any number of steps, and callers learn no more than that. */
    method Await(ghost t: TaskId)
      requires Valid()
      modifies this
      ensures Valid() && OthersOnly(old(history), history, t)
    {
    }

    method Yield(ghost t: TaskId)
      requires Valid()
      modifies this
      ensures Valid() && Mine(t) == old(Mine(t)) && old(history) <= history
      ensures old(World()).banned.Keys <= World().banned.Keys
      ensures IsGuarded(Mine(t)) ==>
                var hash := HashOf(Mine(t).job);
                && (hash in entries.blobs <==> hash in old(entries).blobs)
                && (hash in entries.blobs ==> entries.blobs[hash] == old(entries).blobs[hash])
    {
      hide Run;
      ghost var before := history;
      Await(t);
      OthersLeaveTask(hasher, before, history, t);
    }

    /** One segment of a task is the event `e`, nothing else. */
    ghost method Log(e: BlobStorage.Event)
      requires BlobStorage.Apply(World(), hasher, e).entries == entries
      requires BlobStorage.Apply(World(), hasher, e).files == files
      requires BlobStorage.Apply(World(), hasher, e).guards == guards
      modifies this`history
      ensures Valid() && history == old(history) + [e] && World() == BlobStorage.Apply(old(World()), hasher, e)
    {
      RunExtends(hasher, history, e);
      history := history + [e];
    }

    lemma Sound()
      ensures Inv(World(), hasher)
    {
      EmptyIsSound(hasher);
      EveryRunIsSound(EMPTY, hasher, history);
    }

    method TakeGuard(t: TaskId, job: Job)
      requires Valid() && Mine(t) == Queued(job) && HashOf(job) !in guards
      modifies this`guards, this`history
      ensures Valid() && Mine(t) == Admitted(job) && old(history) <= history
    {
      guards := guards[HashOf(job) := t];
      Log(Acquire(t));
    }

    /** The quarantine listing. On refusal the temporary file goes and the guard is released. */
    method EnsureNotQuarantined(t: TaskId, job: Job, listingOk: bool) returns (ok: bool)
      requires Valid() && Mine(t) == Admitted(job) && job.Publish?
      modifies this`files, this`guards, this`history
      ensures Valid() && old(history) <= history
      ensures Mine(t) == if ok then Allowed(job) else Done(Failed)
      ensures listingOk ==> (ok <==> job.pub.sha256 !in World().banned)
      ensures !listingOk ==> !ok
    {
      Sound();
      ok := listingOk && !InQuarantine(files, job.pub.sha256);
      if listingOk {
        CheckRefusesExactlyBanned(World(), hasher, t);
      }
      if !ok {
        DropTemp(job);
      }
      Log(Check(t, listingOk));
    }

    /** The function returns without having published: its guard and its temporary file are dropped. */
    method DropTemp(job: Job)
      requires job.Publish?
      modifies this`files, this`guards
      ensures files == old(files) - {Temp(job.temp)} && guards == old(guards) - {HashOf(job)}
    {
      files := files - {Temp(job.temp)};
      guards := guards - {HashOf(job)};
    }

    method FindIncumbent(t: TaskId, job: Job) returns (incumbent: Option<FileMetadata>)
      requires Valid() && Mine(t) == Allowed(job) && job.Publish?
      modifies this`files, this`guards, this`history
      ensures Valid() && old(history) <= history
      ensures Mine(t) == if incumbent.Some? then Done(Stored(incumbent.value, false)) else Placing(job)
      ensures incumbent.Some? ==> HashOf(job) in entries.blobs && entries.blobs[HashOf(job)] == incumbent.value
                                  && Backed(World(), hasher, HashOf(job), incumbent.value)
      ensures history == old(history) + [Incumbent(t)]
      ensures DecidedAt(hasher, history, |old(history)|, t, job.pub, incumbent)
    {
      Sound();
      StoredTruthful(World(), hasher, t);
      DecidesNow(hasher, history, t, job);
      hide Inv, Backed, Run, DecidedAt;
      incumbent := None;
      if job.pub.sha256 in entries.blobs {
        var existing := entries.blobs[job.pub.sha256];
        if job.pub.origin == UpstreamCache || existing.origin == Upload {
          incumbent := Some(existing);
          DropTemp(job);
        }
      }
      Log(Incumbent(t));
    }

    /** Create the directories and look at the target. */
    method ProbeTarget(t: TaskId, job: Job, probeOk: bool) returns (occupied: bool)
      requires Valid() && Mine(t) == Placing(job) && job.Publish? && IsValidHash(job.pub.sha256)
      modifies this`files, this`guards, this`history
      ensures Valid() && old(history) <= history
      ensures Mine(t) == if !probeOk then Done(Failed) else if occupied then Clearing(job) else Renaming(job)
    {
      hide TargetOf;
      occupied := probeOk && TargetOf(job.pub) in files;
      if !probeOk {
        DropTemp(job);
      }
      Log(Probe(t, probeOk));
    }

    method ClearTarget(t: TaskId, job: Job, clearOk: bool)
      requires Valid() && Mine(t) == Clearing(job) && job.Publish? && IsValidHash(job.pub.sha256)
      modifies this`files, this`guards, this`history
      ensures Valid() && old(history) <= history && Mine(t) == if clearOk then Renaming(job) else Done(Failed)
    {
      hide TargetOf;
      if clearOk {
        files := files - {TargetOf(job.pub)};
      } else {
        DropTemp(job);
      }
      Log(Clear(t, clearOk));
    }

    /** Probe the target, clear a leftover out of the way, rename into place. */
    method MoveIntoPlace(t: TaskId, job: Job, env: Environment) returns (ok: bool)
      requires Valid() && Mine(t) == Placing(job) && job.Publish? && IsValidHash(job.pub.sha256)
      modifies this
      ensures Valid() && old(history) <= history
      ensures Mine(t) == if ok then Placed(job) else Done(Failed)
      ensures env.probeOk && env.clearOk && env.renameOk ==> ok
      ensures ok ==> env.probeOk && env.renameOk
    {
      hide *;
      var occupied := ProbeTarget(t, job, env.probeOk);
      if !env.probeOk {
        return false;
      }
      Yield(t);
      if occupied {
        ClearTarget(t, job, env.clearOk);
        if !env.clearOk {
          return false;
        }
        Yield(t);
      }
      ok := RenameIntoPlace(t, job, env.renameOk);
    }

    method RenameIntoPlace(t: TaskId, job: Job, renameOk: bool) returns (ok: bool)
      requires Valid() && Mine(t) == Renaming(job) && job.Publish? && IsValidHash(job.pub.sha256)
      modifies this`files, this`guards, this`history
      ensures Valid() && old(history) <= history && ok == renameOk
      ensures Mine(t) == if ok then Placed(job) else Done(Failed)
    {
      Sound();
      assert TaskOk(World(), hasher, t);
      hide Inv;
      ok := renameOk;
      if ok {
        files := files[TargetOf(job.pub) := files[Temp(job.temp)]] - {Temp(job.temp)};
      } else {
        DropTemp(job);
      }
      Log(Rename(t, renameOk));
    }

    method IndexEntry(t: TaskId, job: Job, now: u64) returns (displaced: Option<FileMetadata>)
      requires Valid() && Mine(t) == Placed(job) && job.Publish?
      modifies this`entries, this`history
      ensures Valid() && old(history) <= history
      ensures Mine(t) == if displaced.Some? then Superseding(job, displaced.value) else Settled(job)
      ensures HashOf(job) in entries.blobs && Describes(entries.blobs[HashOf(job)], job.pub, now)
    {
      Sound();
      IndexPublishes(World(), hasher, t, now);
      PublishedIsDescribed(job.pub, now);
      hide Inv, PublishStep, TargetOf, Describes;
      var metadata := MetadataOf(job.pub, Local(TargetOf(job.pub)), now);
      var (newEntries, result) := PublishStep(entries, job.pub.sha256, metadata);
      entries, displaced := newEntries, result.displaced;
      Log(Index(t, now));
    }

    method UnlinkDisplaced(t: TaskId, job: Job, displaced: FileMetadata)
      requires Valid() && Mine(t) == Superseding(job, displaced)
      modifies this`files, this`history
      ensures Valid() && old(history) <= history && Mine(t) == Settled(job)
    {
      files := Unlinked(files, displaced.location);
      Log(Supersede(t));
    }

    /** Make the entry visible first, then unlink what it displaced. */
    method PublishMetadata(t: TaskId, job: Job, now: u64) returns (stored: FileMetadata)
      requires Valid() && Mine(t) == Placed(job) && job.Publish?
      modifies this
      ensures Valid() && old(history) <= history && Mine(t) == Done(Stored(stored, true))
      ensures HashOf(job) in entries.blobs && entries.blobs[HashOf(job)] == stored
              && Backed(World(), hasher, HashOf(job), stored)
      ensures Describes(stored, job.pub, now)
    {
      GuardHeld(job);
      hide *;
      var displaced := IndexEntry(t, job, now);
      Yield(t);
      if displaced.Some? {
        UnlinkDisplaced(t, job, displaced.value);
        Yield(t);
      }
      stored := FinishPublication(t, job);
    }

    lemma GuardHeld(job: Job)
      ensures IsGuarded(Settled(job)) && forall displaced :: IsGuarded(Superseding(job, displaced))
    {
    }

    method FinishPublication(t: TaskId, job: Job) returns (stored: FileMetadata)
      requires Valid() && Mine(t) == Settled(job)
      modifies this`guards, this`history
      ensures Valid() && old(history) <= history && Mine(t) == Done(Stored(stored, true))
      ensures HashOf(job) in entries.blobs && entries.blobs[HashOf(job)] == stored
              && Backed(World(), hasher, HashOf(job), stored)
    {
      Sound();
      assert TaskOk(World(), hasher, t);
      StoredTruthful(World(), hasher, t);
      hide Inv;
      stored := entries.blobs[HashOf(job)];
      guards := guards - {HashOf(job)};
      Log(Return(t));
    }

    lemma PublishesValidHash(t: TaskId, job: Job)
      requires Mine(t) == Placing(job)
      ensures job.Publish? && IsValidHash(job.pub.sha256)
    {
      Sound();
      assert TaskOk(World(), hasher, t);
    }

    /** `publish_blob`. It succeeds unless the hash is banned or the file system fails. Its answer
        describes the entry that the index holds at that moment, backed by a file of that hash: an
        incumbent exactly when one took precedence at the moment it was looked for, and otherwise the
        publication's own entry. An upload is never answered with a cached copy. */
    method PublishBlob(t: TaskId, pub: Publication, temp: string, env: Environment) returns (outcome: Outcome)
      requires Valid() && Mine(t) == Queued(Job.Publish(pub, temp)) && pub.sha256 !in guards
      modifies this
      ensures Valid() && old(history) <= history && Mine(t) == Done(outcome)
      ensures outcome.Stored? || outcome == Failed
      ensures outcome.Stored? ==> pub.sha256 in entries.blobs && entries.blobs[pub.sha256] == outcome.metadata
                                  && Backed(World(), hasher, pub.sha256, outcome.metadata)
      ensures outcome == Failed && env.listingOk && env.probeOk && env.clearOk && env.renameOk ==>
                pub.sha256 in World().banned
      ensures outcome.Stored? ==> env.listingOk && (outcome.created ==> env.probeOk && env.renameOk)
      ensures outcome.Stored? ==> exists i: nat ::
                |old(history)| <= i
                && DecidedAt(hasher, history, i, t, pub, Incumbents(outcome.metadata, outcome.created))
      ensures outcome.Stored? && outcome.created ==> Describes(outcome.metadata, pub, env.now)
      ensures outcome.Stored? && pub.origin == Upload ==> outcome.metadata.origin == Upload
    {
      var job := Job.Publish(pub, temp);
      assert HashOf(job) == pub.sha256;
      hide *;
      TakeGuard(t, job);
      Yield(t);
      outcome := PublishGuarded(t, job, env);
    }

    /** From the granted guard on. */
    method PublishGuarded(t: TaskId, job: Job, env: Environment) returns (outcome: Outcome)
      requires Valid() && Mine(t) == Admitted(job) && job.Publish?
      modifies this
      ensures Valid() && old(history) <= history && Mine(t) == Done(outcome)
      ensures outcome.Stored? || outcome == Failed
      ensures outcome.Stored? ==> HashOf(job) in entries.blobs && entries.blobs[HashOf(job)] == outcome.metadata
                                  && Backed(World(), hasher, HashOf(job), outcome.metadata)
      ensures outcome == Failed && env.listingOk && env.probeOk && env.clearOk && env.renameOk ==>
                job.pub.sha256 in World().banned
      ensures outcome.Stored? ==> env.listingOk && (outcome.created ==> env.probeOk && env.renameOk)
      ensures outcome.Stored? ==> exists i: nat ::
                |old(history)| <= i
                && DecidedAt(hasher, history, i, t, job.pub, Incumbents(outcome.metadata, outcome.created))
      ensures outcome.Stored? && outcome.created ==> Describes(outcome.metadata, job.pub, env.now)
      ensures outcome.Stored? && job.pub.origin == Upload ==> outcome.metadata.origin == Upload
    {
      hide *;
      var allowed := EnsureNotQuarantined(t, job, env.listingOk);
      if !allowed {
        return Failed;
      }
      Yield(t);
      outcome := PublishAllowed(t, job, env);
    }

    /** From the passed quarantine check on. */
    method PublishAllowed(t: TaskId, job: Job, env: Environment) returns (outcome: Outcome)
      requires Valid() && Mine(t) == Allowed(job) && job.Publish?
      modifies this
      ensures Valid() && old(history) <= history && Mine(t) == Done(outcome)
      ensures outcome.Stored? || outcome == Failed
      ensures outcome.Stored? ==> HashOf(job) in entries.blobs && entries.blobs[HashOf(job)] == outcome.metadata
                                  && Backed(World(), hasher, HashOf(job), outcome.metadata)
      ensures outcome == Failed ==> !(env.probeOk && env.clearOk && env.renameOk)
      ensures outcome.Stored? && outcome.created ==> env.probeOk && env.renameOk
      ensures outcome.Stored? ==> exists i: nat ::
                |old(history)| <= i
                && DecidedAt(hasher, history, i, t, job.pub, Incumbents(outcome.metadata, outcome.created))
      ensures outcome.Stored? && outcome.created ==> Describes(outcome.metadata, job.pub, env.now)
      ensures outcome.Stored? && job.pub.origin == Upload ==> outcome.metadata.origin == Upload
    {
      hide *;
      ghost var start := |history|;
      var incumbent := FindIncumbent(t, job);
      ghost var decided := history;
      if incumbent.Some? {
        IncumbentIs(incumbent.value, start, t, job.pub);
        return Stored(incumbent.value, false);
      }
      PublishesValidHash(t, job);
      Yield(t);
      var placed := MoveIntoPlace(t, job, env);
      if !placed {
        return Failed;
      }
      Yield(t);
      var stored := PublishMetadata(t, job, env.now);
      DecidedStays(hasher, decided, history, start, t, job.pub, None);
      OwnEntryIs(stored, job.pub, env.now);
      return Stored(stored, true);
    }

    lemma IncumbentIs(m: FileMetadata, i: nat, t: TaskId, pub: Publication)
      requires DecidedAt(hasher, history, i, t, pub, Some(m))
      ensures DecidedAt(hasher, history, i, t, pub, Incumbents(m, false))
      ensures pub.origin == Upload ==> m.origin == Upload
    {
      hide Run;
    }

    lemma OwnEntryIs(m: FileMetadata, pub: Publication, now: u64)
      requires Describes(m, pub, now)
      ensures m.origin == pub.origin && Incumbents(m, true) == None
    {
    }

    /** `remove_indexed_blob`: select the entry, dispose of its file, drop the entry. It reports
        whether an entry was removed; a failed disposal leaves the entry in place. The entry met when
        the index was read decides: if there is none, or it differs from the expected one in location,
        creation time or origin, then nothing at all is changed. */
    method RemoveIndexedBlob(t: TaskId, sha256: string, removal: Removal, expected: Option<FileMetadata>, ioOk: bool)
      returns (outcome: Outcome)
      requires Valid() && Mine(t) == Queued(Job.Remove(sha256, removal, expected)) && sha256 !in guards
      modifies this
      ensures Valid() && old(history) <= history && Mine(t) == Done(outcome)
      ensures outcome == Removed(true) ==>
                sha256 !in entries.blobs && (removal == Quarantine ==> sha256 in World().banned)
      ensures outcome == Failed ==> !ioOk && sha256 in entries.blobs
      ensures outcome.Removed? || outcome == Failed
      ensures exists i: nat, current ::
                |old(history)| <= i && SelectedAt(hasher, history, i, t, sha256, expected, current)
                && FollowsSelection(outcome, i, t, sha256, removal, current, ioOk)
    {
      var job := Job.Remove(sha256, removal, expected);
      assert HashOf(job) == sha256;
      hide *;
      TakeGuard(t, job);
      Yield(t);
      outcome := RemoveGuarded(t, job, ioOk);
    }

    /** From the granted guard on. */
    method RemoveGuarded(t: TaskId, job: Job, ioOk: bool) returns (outcome: Outcome)
      requires Valid() && Mine(t) == Admitted(job) && job.Remove?
      modifies this
      ensures Valid() && old(history) <= history && Mine(t) == Done(outcome)
      ensures outcome == Removed(true) ==>
                HashOf(job) !in entries.blobs && (job.removal == Quarantine ==> HashOf(job) in World().banned)
      ensures outcome == Failed ==> !ioOk && HashOf(job) in entries.blobs
      ensures outcome.Removed? || outcome == Failed
      ensures exists i: nat, current ::
                |old(history)| <= i && SelectedAt(hasher, history, i, t, job.sha256, job.expected, current)
                && FollowsSelection(outcome, i, t, job.sha256, job.removal, current, ioOk)
    {
      hide *;
      ghost var i := |history|;
      var current := SelectEntry(t, job);
      ghost var selected := history;
      if current.None? {
        NothingSelected(i, t, job, ioOk);
        return Removed(false);
      }
      Yield(t);
      outcome := RemoveSelected(t, job, current.value, ioOk);
      SelectedStays(hasher, selected, history, i, t, job.sha256, job.expected, current);
      SomethingSelected(i, t, job, current, ioOk);
    }

    /** What follows from the entry met at event `i`. */
    ghost predicate FollowsSelection(outcome: Outcome, i: nat, t: TaskId, sha256: string, removal: Removal,
                                     current: Option<FileMetadata>, ioOk: bool)
      reads this
    {
      if current.None? then
        && outcome == Removed(false) && i + 1 == |history|
        && entries == Run(EMPTY, hasher, history[..i]).entries && files == Run(EMPTY, hasher, history[..i]).files
      else
        && outcome == (if ioOk then Removed(true) else Failed)
        && exists j: nat :: i < j && DisposedAt(hasher, history, j, t, sha256, removal, current.value, ioOk)
    }

    lemma NothingSelected(i: nat, t: TaskId, job: Job, ioOk: bool)
      requires job.Remove? && i + 1 == |history|
      requires entries == Run(EMPTY, hasher, history[..i]).entries
      requires files == Run(EMPTY, hasher, history[..i]).files
      ensures FollowsSelection(Removed(false), i, t, job.sha256, job.removal, None, ioOk)
    {
      hide Run;
    }

    lemma SomethingSelected(i: nat, t: TaskId, job: Job, current: Option<FileMetadata>, ioOk: bool)
      requires job.Remove? && current.Some?
      requires exists j: nat ::
                 i < j && DisposedAt(hasher, history, j, t, job.sha256, job.removal, current.value, ioOk)
      ensures FollowsSelection(if ioOk then Removed(true) else Failed, i, t, job.sha256, job.removal, current, ioOk)
    {
      hide Run, DisposedAt;
    }

    method RemoveSelected(t: TaskId, job: Job, current: FileMetadata, ioOk: bool) returns (outcome: Outcome)
      requires Valid() && Mine(t) == Disposing(job, current) && job.Remove?
      modifies this
      ensures Valid() && old(history) <= history && Mine(t) == Done(outcome)
      ensures outcome == if ioOk then Removed(true) else Failed
      ensures ioOk ==> HashOf(job) !in entries.blobs && (job.removal == Quarantine ==> HashOf(job) in World().banned)
      ensures !ioOk ==> HashOf(job) in entries.blobs
      ensures exists j: nat :: |old(history)| <= j
                && DisposedAt(hasher, history, j, t, job.sha256, job.removal, current, ioOk)
    {
      hide *;
      ghost var j := |history|;
      var disposed := DisposeFile(t, job, current, ioOk);
      if !disposed {
        return Failed;
      }
      ghost var gone := history;
      Yield(t);
      DropEntry(t, job, current);
      DisposedStays(hasher, gone, history, j, t, job.sha256, job.removal, current, ioOk);
      return Removed(true);
    }

    method SelectEntry(t: TaskId, job: Job) returns (current: Option<FileMetadata>)
      requires Valid() && Mine(t) == Admitted(job) && job.Remove?
      modifies this`guards, this`history
      ensures Valid() && old(history) <= history
      ensures Mine(t) == if current.Some? then Disposing(job, current.value) else Done(Removed(false))
      ensures history == old(history) + [Select(t)] && history[..|old(history)|] == old(history)
      ensures SelectedAt(hasher, history, |old(history)|, t, job.sha256, job.expected, current)
      ensures entries == Run(EMPTY, hasher, old(history)).entries && files == Run(EMPTY, hasher, old(history)).files
    {
      ghost var before := history;
      current := None;
      if job.sha256 in entries.blobs && StillExpected(entries.blobs[job.sha256], job.expected) {
        current := Some(entries.blobs[job.sha256]);
      } else {
        guards := guards - {job.sha256};
      }
      Log(Select(t));
      assert history[..|before|] == before;
    }

    method DisposeFile(t: TaskId, job: Job, current: FileMetadata, ioOk: bool) returns (ok: bool)
      requires Valid() && Mine(t) == Disposing(job, current)
      modifies this`files, this`guards, this`history
      ensures Valid() && old(history) <= history && ok == ioOk && job.Remove?
      ensures Mine(t) == if ok then Disposed(job, current) else Done(Failed)
      ensures ok && job.removal == Quarantine ==> HashOf(job) in World().banned
      ensures !ok ==> HashOf(job) in entries.blobs
      ensures DisposedAt(hasher, history, |old(history)|, t, job.sha256, job.removal, current, ioOk)
    {
      ghost var before := history;
      DisposalPossible(t, job, current);
      DisposesNow(hasher, before, t, job, current, ioOk);
      DisposalMoves(World(), t, job, current, ioOk);
      ApplyDispose(World(), hasher, t, ioOk);
      hide Run, WellPlaced, DisposedAt, DisposeStep, BlobStorage.Apply, Finish;
      ok := ioOk;
      if !ok {
        guards := guards - {job.sha256};
      } else if job.removal == Quarantine {
        var path := current.location.path;
        files := files[Quarantined(path.name) := files[path]] - {path};
      } else {
        files := files - {current.location.path};
      }
      Log(Dispose(t, ioOk));
    }

    lemma DisposalPossible(t: TaskId, job: Job, current: FileMetadata)
      requires Valid() && Mine(t) == Disposing(job, current)
      ensures job.Remove? && HashOf(job) in entries.blobs
      ensures current.location.Local? && current.location.path.Completed? && current.location.path in files
    {
      Sound();
      assert TaskOk(World(), hasher, t) && HashOk(World(), hasher, HashOf(job));
      hide Inv, Run;
      PlacedIsCompleted(job.sha256, current);
    }

    lemma EntryDrops(t: TaskId, job: Job, current: FileMetadata)
      requires Valid() && Mine(t) == Disposed(job, current)
      ensures HashOf(job) !in RemoveIfLocationMatchesStep(entries, HashOf(job), current.location).blobs
      ensures HashOf(job) in entries.blobs && entries.blobs[HashOf(job)].location == current.location
    {
      Sound();
      assert TaskOk(World(), hasher, t);
      hide Inv, Run, OrderRemove;
    }

    method DropEntry(t: TaskId, job: Job, current: FileMetadata)
      requires Valid() && Mine(t) == Disposed(job, current)
      modifies this`entries, this`guards, this`history
      ensures Valid() && old(history) <= history && Mine(t) == Done(Removed(true)) && HashOf(job) !in entries.blobs
      ensures World().banned == old(World()).banned
    {
      EntryDrops(t, job, current);
      hide RemoveIfLocationMatchesStep, Run;
      entries := RemoveIfLocationMatchesStep(entries, HashOf(job), current.location);
      guards := guards - {HashOf(job)};
      Log(Unindex(t));
    }
  }
}

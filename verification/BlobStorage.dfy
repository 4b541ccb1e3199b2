/** Publication, removal and quarantine of blobs on a filesystem-only server, one event per
    await-to-await segment, over the index, the files, and the per-hash guards. */
module BlobStorage {
  import opened Prelude
  import opened FileModel
  import opened BlobName
  import opened BlobIndex
  import MutationLocks

  type TaskId = MutationLocks.TaskId

  /** SHA-256, of which nothing is used but that it is a function. */
  type Hasher = Bytes -> Hash

  datatype Publication = Publication(
    sha256: string, origin: BlobOrigin, extension: Option<string>, mimeType: Option<string>, size: u64,
    expiration: Option<u64>)

  datatype Removal = Requested | Reported | Quarantine | Evicted

  datatype Job =
    | Publish(pub: Publication, temp: string)
    | Remove(sha256: string, removal: Removal, expected: Option<FileMetadata>)

  datatype Outcome =
    | Stored(metadata: FileMetadata, created: bool)
    | Removed(any: bool)
    | Failed

  /** Where one publication or removal stands. All but the first and last two hold the hash's guard. */
  datatype Step =
    | Queued(job: Job)                                  // waiting for the guard
    | Admitted(job: Job)                                // guard held, nothing examined
    | Allowed(job: Job)                                 // not quarantined
    | Placing(job: Job)                                 // no incumbent takes precedence
    | Clearing(job: Job)                                // a leftover file is in the way
    | Renaming(job: Job)                                // the target is free
    | Placed(job: Job)                                  // the bytes are at their final path
    | Superseding(job: Job, displaced: FileMetadata)    // indexed; the displaced copy is to be unlinked
    | Settled(job: Job)                                 // indexed, nothing left to unlink
    | Disposing(job: Job, current: FileMetadata)        // removal: entry read, file in place
    | Disposed(job: Job, current: FileMetadata)         // file unlinked or moved, entry still indexed
    | Done(outcome: Outcome)
    | NotStarted

  datatype World = World(
    entries: Entries,
    files: map<FilePath, Bytes>,
    guards: map<string, TaskId>,
    tasks: map<TaskId, Step>,
    banned: map<string, string>)   // quarantined hashes, with the name each was moved under

  const EMPTY := World(NO_ENTRIES, map[], map[], map[], map[])

  function At(w: World, t: TaskId): Step {
    if t in w.tasks then w.tasks[t] else NotStarted
  }

  predicate IsGuarded(s: Step) {
    !s.Queued? && !s.Done? && !s.NotStarted?
  }

  function HashOf(job: Job): string {
    match job
    case Publish(pub, _) => pub.sha256
    case Remove(sha256, _, _) => sha256
  }

  predicate OwnsTemp(s: Step) {
    (s.Queued? || s.Admitted? || s.Allowed? || s.Placing? || s.Clearing? || s.Renaming?) && s.job.Publish?
  }

  predicate NoSlash(extension: Option<string>) {
    extension.Some? ==> '/' !in extension.value
  }

  function CompletedPath(origin: BlobOrigin, hash: Hash, extension: Option<string>, expiration: Option<u64>): FilePath {
    Completed(origin, hash[..1], hash[1..2], NameOf(hash, expiration, extension))
  }

  function TargetOf(pub: Publication): FilePath
    requires IsValidHash(pub.sha256)
  {
    CompletedPath(pub.origin, pub.sha256, pub.extension, pub.expiration)
  }

  function MetadataOf(pub: Publication, location: FileLocation, now: u64): FileMetadata {
    FileMetadata(location, pub.extension, pub.mimeType, pub.size, now, None, pub.expiration, pub.origin)
  }

  predicate InQuarantine(files: map<FilePath, Bytes>, sha256: string) {
    exists p :: p in files && p.Quarantined? && QuarantineNameMatches(sha256, p.name)
  }

  // ----- steps -----

  function Advance(w: World, t: TaskId, s: Step): World {
    w.(tasks := w.tasks[t := s])
  }

  /** The function returns: the guard is released and a temporary file still owned is unlinked. */
  function Finish(w: World, t: TaskId, outcome: Outcome): World {
    var s := At(w, t);
    w.(files := if OwnsTemp(s) then w.files - {Temp(s.job.temp)} else w.files,
       guards := if IsGuarded(s) then w.guards - {HashOf(s.job)} else w.guards,
       tasks := w.tasks[t := Done(outcome)])
  }

  /** A caller hands over a completed temporary file whose bytes it has hashed and counted. */
  ghost predicate MayPublish(w: World, h: Hasher, pub: Publication, temp: string, bytes: Bytes) {
    Temp(temp) !in w.files && h(bytes) == pub.sha256 && |bytes| == pub.size && NoSlash(pub.extension)
  }

  ghost function BeginPublishStep(w: World, h: Hasher, t: TaskId, pub: Publication, temp: string, bytes: Bytes): World {
    if At(w, t) == NotStarted && MayPublish(w, h, pub, temp, bytes)
    then w.(files := w.files[Temp(temp) := bytes], tasks := w.tasks[t := Queued(Job.Publish(pub, temp))])
    else w
  }

  function BeginRemoveStep(w: World, t: TaskId, sha256: string, removal: Removal,
                           expected: Option<FileMetadata>): World
  {
    if At(w, t) == NotStarted then Advance(w, t, Queued(Job.Remove(sha256, removal, expected))) else w
  }

  function AcquireStep(w: World, t: TaskId): World {
    match At(w, t)
    case Queued(job) =>
      if HashOf(job) in w.guards then w
      else w.(guards := w.guards[HashOf(job) := t], tasks := w.tasks[t := Admitted(job)])
    case _ => w
  }

  /** `ensure_not_quarantined`: the directory listing may fail. */
  function CheckStep(w: World, t: TaskId, ioOk: bool): World {
    match At(w, t)
    case Admitted(job) =>
      if job.Remove? then w
      else if !ioOk || InQuarantine(w.files, job.pub.sha256) then Finish(w, t, Failed)
      else Advance(w, t, Allowed(job))
    case _ => w
  }

  /** An incumbent keeps its place unless an upload meets a cached copy. */
  function IncumbentStep(w: World, t: TaskId): World {
    match At(w, t)
    case Allowed(job) =>
      if job.Remove? then w
      else
        var blobs, hash := w.entries.blobs, job.pub.sha256;
        if hash in blobs && (job.pub.origin == UpstreamCache || blobs[hash].origin == Upload)
          then Finish(w, t, Stored(blobs[hash], false))
        else Advance(w, t, Placing(job))
    case _ => w
  }

  /** Create the parent directories and look at the target. */
  function ProbeStep(w: World, t: TaskId, ioOk: bool): World {
    match At(w, t)
    case Placing(job) =>
      if job.Remove? || !IsValidHash(job.pub.sha256) then w
      else if !ioOk then Finish(w, t, Failed)
      else if TargetOf(job.pub) in w.files then Advance(w, t, Clearing(job))
      else Advance(w, t, Renaming(job))
    case _ => w
  }

  function ClearStep(w: World, t: TaskId, ioOk: bool): World {
    match At(w, t)
    case Clearing(job) =>
      if job.Remove? || !IsValidHash(job.pub.sha256) then w
      else if !ioOk then Finish(w, t, Failed)
      else Advance(w.(files := w.files - {TargetOf(job.pub)}), t, Renaming(job))
    case _ => w
  }

  function RenameStep(w: World, t: TaskId, ioOk: bool): World {
    match At(w, t)
    case Renaming(job) =>
      if job.Remove? || !IsValidHash(job.pub.sha256) then w
      else if !ioOk || Temp(job.temp) !in w.files then Finish(w, t, Failed)
      else Advance(w.(files := w.files[TargetOf(job.pub) := w.files[Temp(job.temp)]] - {Temp(job.temp)}), t,
                   Placed(job))
    case _ => w
  }

  /** `publish_metadata` up to the removal of a displaced copy. */
  function IndexStep(w: World, t: TaskId, now: u64): World {
    match At(w, t)
    case Placed(job) =>
      if job.Remove? || !IsValidHash(job.pub.sha256) then w
      else
        var (entries, result) := PublishStep(w.entries, job.pub.sha256,
                                             MetadataOf(job.pub, Local(TargetOf(job.pub)), now));
        if result.Retained? then Finish(w, t, Stored(result.existing, false))
        else Advance(w.(entries := entries), t, if result.displaced.Some? then Superseding(job, result.displaced.value)
                     else Settled(job))
    case _ => w
  }

  function Unlinked(files: map<FilePath, Bytes>, location: FileLocation): map<FilePath, Bytes> {
    if location.Local? then files - {location.path} else files
  }

  function SupersedeStep(w: World, t: TaskId): World {
    match At(w, t)
    case Superseding(job, displaced) => Advance(w.(files := Unlinked(w.files, displaced.location)), t, Settled(job))
    case _ => w
  }

  function ReturnStep(w: World, t: TaskId): World {
    match At(w, t)
    case Settled(job) =>
      if HashOf(job) in w.entries.blobs then Finish(w, t, Stored(w.entries.blobs[HashOf(job)], true)) else w
    case _ => w
  }

  predicate StillExpected(current: FileMetadata, expected: Option<FileMetadata>) {
    expected.Some? ==>
      current.location == expected.value.location && current.createdAt == expected.value.createdAt
        && current.origin == expected.value.origin
  }

  function SelectStep(w: World, t: TaskId): World {
    match At(w, t)
    case Admitted(job) =>
      if job.Publish? then w
      else if job.sha256 !in w.entries.blobs || !StillExpected(w.entries.blobs[job.sha256], job.expected)
        then Finish(w, t, Removed(false))
      else Advance(w, t, Disposing(job, w.entries.blobs[job.sha256]))
    case _ => w
  }

  /** Unlink the file, or move it into quarantine. Moving a missing file fails; unlinking one does not. */
  function DisposeStep(w: World, t: TaskId, ioOk: bool): World {
    match At(w, t)
    case Disposing(job, current) =>
      if job.Publish? || !current.location.Local? || !current.location.path.Completed? then w
      else if !ioOk then Finish(w, t, Failed)
      else if job.removal != Quarantine
        then Advance(w.(files := w.files - {current.location.path}), t, Disposed(job, current))
      else if current.location.path !in w.files then Finish(w, t, Failed)
      else
        var path := current.location.path;
        Advance(w.(files := w.files[Quarantined(path.name) := w.files[path]] - {path},
                   banned := w.banned[job.sha256 := path.name]),
                t, Disposed(job, current))
    case _ => w
  }

  function UnindexStep(w: World, t: TaskId): World {
    match At(w, t)
    case Disposed(job, current) =>
      var blobs := w.entries.blobs;
      var matches := HashOf(job) in blobs && blobs[HashOf(job)].location == current.location;
      Finish(w.(entries := RemoveIfLocationMatchesStep(w.entries, HashOf(job), current.location)), t, Removed(matches))
    case _ => w
  }

  datatype Event =
    | BeginPublish(t: TaskId, pub: Publication, temp: string, bytes: Bytes)
    | BeginRemove(t: TaskId, sha256: string, removal: Removal, expected: Option<FileMetadata>)
    | Acquire(t: TaskId)
    | Check(t: TaskId, ioOk: bool)
    | Incumbent(t: TaskId)
    | Probe(t: TaskId, ioOk: bool)
    | Clear(t: TaskId, ioOk: bool)
    | Rename(t: TaskId, ioOk: bool)
    | Index(t: TaskId, now: u64)
    | Supersede(t: TaskId)
    | Return(t: TaskId)
    | Select(t: TaskId)
    | Dispose(t: TaskId, ioOk: bool)
    | Unindex(t: TaskId)

  ghost function Apply(w: World, h: Hasher, e: Event): World {
    match e
    case BeginPublish(t, pub, temp, bytes) => BeginPublishStep(w, h, t, pub, temp, bytes)
    case BeginRemove(t, sha256, removal, expected) => BeginRemoveStep(w, t, sha256, removal, expected)
    case Acquire(t) => AcquireStep(w, t)
    case Check(t, ioOk) => CheckStep(w, t, ioOk)
    case Incumbent(t) => IncumbentStep(w, t)
    case Probe(t, ioOk) => ProbeStep(w, t, ioOk)
    case Clear(t, ioOk) => ClearStep(w, t, ioOk)
    case Rename(t, ioOk) => RenameStep(w, t, ioOk)
    case Index(t, now) => IndexStep(w, t, now)
    case Supersede(t) => SupersedeStep(w, t)
    case Return(t) => ReturnStep(w, t)
    case Select(t) => SelectStep(w, t)
    case Dispose(t, ioOk) => DisposeStep(w, t, ioOk)
    case Unindex(t) => UnindexStep(w, t)
  }

  ghost function Run(w: World, h: Hasher, events: seq<Event>): World {
    if events == [] then w else Apply(Run(w, h, events[..|events| - 1]), h, events[|events| - 1])
  }

  // ----- the invariant -----

  /** The entry points to the place its own properties determine. */
  ghost predicate WellPlaced(hash: string, m: FileMetadata) {
    IsValidHash(hash) && NoSlash(m.extension)
      && m.location == Local(CompletedPath(m.origin, hash, m.extension, m.expiration))
  }

  /** The file the entry points to is there, has its size, and hashes to its key. */
  ghost predicate Backed(w: World, h: Hasher, hash: string, m: FileMetadata) {
    m.location.Local? && m.location.path in w.files && h(w.files[m.location.path]) == hash
      && |w.files[m.location.path]| == m.size
  }

  /** A removal has disposed of the hash's file and is about to drop the entry. */
  ghost predicate Leaving(w: World, hash: string) {
    hash in w.guards && At(w, w.guards[hash]).Disposed?
  }

  ghost predicate HashOk(w: World, h: Hasher, hash: string) {
    && (hash in w.entries.blobs ==>
          WellPlaced(hash, w.entries.blobs[hash]) && (Leaving(w, hash) || Backed(w, h, hash, w.entries.blobs[hash])))
    && (hash in w.guards ==> IsGuarded(At(w, w.guards[hash])) && HashOf(At(w, w.guards[hash]).job) == hash)
    && (hash in w.banned ==>
          IsValidHash(hash) && Quarantined(w.banned[hash]) in w.files && QuarantineNameMatches(hash, w.banned[hash]))
    && (hash in w.banned ==> hash !in w.entries.blobs || Leaving(w, hash))
  }

  /** The publication will not displace an upload, nor a cached copy by another one. */
  ghost predicate MayReplace(w: World, pub: Publication) {
    pub.sha256 in w.entries.blobs ==> pub.origin == Upload && w.entries.blobs[pub.sha256].origin == UpstreamCache
  }

  ghost predicate TempOk(w: World, h: Hasher, pub: Publication, temp: string) {
    Temp(temp) in w.files && h(w.files[Temp(temp)]) == pub.sha256 && |w.files[Temp(temp)]| == pub.size
      && NoSlash(pub.extension)
  }

  ghost predicate PhaseOk(w: World, h: Hasher, s: Step) {
    match s
    case Allowed(job) => job.Publish? && job.pub.sha256 !in w.banned
    case Placing(job) => job.Publish? && job.pub.sha256 !in w.banned && MayReplace(w, job.pub)
    case Clearing(job) => job.Publish? && job.pub.sha256 !in w.banned && MayReplace(w, job.pub)
    case Renaming(job) => job.Publish? && job.pub.sha256 !in w.banned && MayReplace(w, job.pub)
    case Placed(job) =>
      && job.Publish? && job.pub.sha256 !in w.banned && MayReplace(w, job.pub) && IsValidHash(job.pub.sha256)
      && NoSlash(job.pub.extension)
      && Backed(w, h, job.pub.sha256, MetadataOf(job.pub, Local(TargetOf(job.pub)), 0))
    case Superseding(job, displaced) =>
      && job.Publish? && job.pub.sha256 in w.entries.blobs && w.entries.blobs[job.pub.sha256].origin == Upload
      && WellPlaced(job.pub.sha256, displaced) && displaced.origin == UpstreamCache
    case Settled(job) => job.Publish? && job.pub.sha256 in w.entries.blobs
    case Disposing(job, current) => job.Remove? && job.sha256 in w.entries.blobs
      && w.entries.blobs[job.sha256] == current
    case Disposed(job, current) =>
      && job.Remove? && job.sha256 in w.entries.blobs && w.entries.blobs[job.sha256] == current
      && WellPlaced(job.sha256, current) && current.location.path !in w.files
    case _ => true
  }

  ghost predicate TaskOk(w: World, h: Hasher, t: TaskId) {
    var s := At(w, t);
    && (IsGuarded(s) ==> HashOf(s.job) in w.guards && w.guards[HashOf(s.job)] == t)
    && (OwnsTemp(s) ==> TempOk(w, h, s.job.pub, s.job.temp))
    && PhaseOk(w, h, s)
  }

  /** Each temporary file belongs to exactly one publication. */
  ghost predicate TempsOwned(w: World) {
    && (forall t, u :: OwnsTemp(At(w, t)) && OwnsTemp(At(w, u)) && At(w, t).job.temp == At(w, u).job.temp ==> t == u)
    && (forall temp :: Temp(temp) in w.files ==> exists t :: OwnsTemp(At(w, t)) && At(w, t).job.temp == temp)
  }

  /** Only banned hashes have names in quarantine. */
  ghost predicate QuarantineOk(w: World) {
    forall name :: Quarantined(name) in w.files ==> |name| >= HASH_LEN && name[..HASH_LEN] in w.banned
  }

  ghost predicate Inv(w: World, h: Hasher) {
    (forall hash :: HashOk(w, h, hash)) && (forall t :: TaskOk(w, h, t)) && TempsOwned(w) && QuarantineOk(w)
  }

  // ----- paths -----

  lemma PathsApart(o1: BlobOrigin, h1: Hash, x1: Option<string>, e1: Option<u64>, o2: BlobOrigin, h2: Hash,
                   x2: Option<string>, e2: Option<u64>)
    requires CompletedPath(o1, h1, x1, e1) == CompletedPath(o2, h2, x2, e2)
    ensures o1 == o2 && h1 == h2 && x1 == x2 && e1 == e2
  {
    NameInjective(h1, e1, x1, h2, e2, x2);
  }

  /** Entries of different hashes, or of different origins, never share a file. */
  lemma EntriesApart(h1: string, m1: FileMetadata, h2: string, m2: FileMetadata)
    requires WellPlaced(h1, m1) && WellPlaced(h2, m2) && (h1 != h2 || m1.origin != m2.origin)
    ensures m1.location != m2.location
  {
    if m1.location == m2.location {
      PathsApart(m1.origin, h1, m1.extension, m1.expiration, m2.origin, h2, m2.extension, m2.expiration);
    }
  }

  /** The quarantine directory refuses exactly the banned hashes. */
  lemma QuarantineRefusesExactlyBanned(w: World, h: Hasher, hash: string)
    requires Inv(w, h) && IsValidHash(hash)
    ensures InQuarantine(w.files, hash) <==> hash in w.banned
  {
    assert HashOk(w, h, hash);
    if hash in w.banned {
      assert QuarantineNameMatches(hash, Quarantined(w.banned[hash]).name);
    }
    if p :| p in w.files && p.Quarantined? && QuarantineNameMatches(hash, p.name) {
      assert Quarantined(p.name) in w.files;
      assert p.name[..HASH_LEN] == hash;
    }
  }

  // ----- frames -----

  ghost predicate SameFile(w: World, w': World, p: FilePath) {
    (p in w'.files <==> p in w.files) && (p in w.files ==> w'.files[p] == w.files[p])
  }

  /** A step of task `t` on behalf of `hash` that leaves everything else in place. */
  ghost predicate Touches(w: World, w': World, t: TaskId, hash: string) {
    && (forall u :: u != t ==> At(w', u) == At(w, u))
    && (forall g :: g != hash ==>
          (g in w'.guards <==> g in w.guards) && (g in w.guards ==> w'.guards[g] == w.guards[g]))
    && (forall g :: g != hash ==>
          (g in w'.entries.blobs <==> g in w.entries.blobs)
          && (g in w.entries.blobs ==> w'.entries.blobs[g] == w.entries.blobs[g]))
    && (forall g :: g != hash ==>
          (g in w'.banned <==> g in w.banned) && (g in w.banned ==> w'.banned[g] == w.banned[g]))
    && (forall g, m :: g != hash && WellPlaced(g, m) ==> SameFile(w, w', m.location.path))
    && (forall name :: Quarantined(name) in w.files ==> Quarantined(name) in w'.files)
    && (forall u :: u != t && OwnsTemp(At(w, u)) && Temp(At(w, u).job.temp) in w.files ==>
          Temp(At(w, u).job.temp) in w'.files && w'.files[Temp(At(w, u).job.temp)] == w.files[Temp(At(w, u).job.temp)])
    && (IsGuarded(At(w, t)) ==> HashOf(At(w, t).job) == hash)
  }

  lemma OtherHashKept(w: World, w': World, h: Hasher, t: TaskId, hash: string, g: string)
    requires Inv(w, h) && Touches(w, w', t, hash) && g != hash
    ensures HashOk(w', h, g)
  {
    assert HashOk(w, h, g);
    assert TaskOk(w, h, t);
    if g in w.guards {
      assert w.guards[g] != t;
    }
  }

  lemma OtherTaskKept(w: World, w': World, h: Hasher, t: TaskId, hash: string, u: TaskId)
    requires TaskOk(w, h, u) && Touches(w, w', t, hash) && u != t
             && (IsGuarded(At(w, u)) ==> HashOf(At(w, u).job) != hash)
    ensures TaskOk(w', h, u)
  {
    var s := At(w, u);
    match s {
      case Placed(job) =>
        assert WellPlaced(job.pub.sha256, MetadataOf(job.pub, Local(TargetOf(job.pub)), 0));
      case _ =>
    }
  }

  /** A step is checked at its own task and its own hash; everything else follows from the frame. */
  lemma StepKeeps(w: World, w': World, h: Hasher, t: TaskId, hash: string)
    requires Inv(w, h) && Touches(w, w', t, hash) && (IsGuarded(At(w, t)) || hash !in w.guards)
    requires HashOk(w', h, hash) && TaskOk(w', h, t) && TempsOwned(w') && QuarantineOk(w')
    ensures Inv(w', h)
  {
    assert TaskOk(w, h, t);
    forall g ensures HashOk(w', h, g) {
      if g != hash {
        OtherHashKept(w, w', h, t, hash, g);
      }
    }
    forall u ensures TaskOk(w', h, u) {
      if u != t {
        assert TaskOk(w, h, u);
        OtherTaskKept(w, w', h, t, hash, u);
      }
    }
  }

  /** The same temporary files exist, owned by the same tasks. */
  lemma TempsKept(w: World, w': World, t: TaskId)
    requires TempsOwned(w) && forall u :: u != t ==> At(w', u) == At(w, u)
    requires forall temp :: Temp(temp) in w'.files <==> Temp(temp) in w.files
    requires OwnsTemp(At(w', t)) == OwnsTemp(At(w, t))
             && (OwnsTemp(At(w, t)) ==> At(w', t).job.temp == At(w, t).job.temp)
    ensures TempsOwned(w')
  {
    forall temp | Temp(temp) in w'.files ensures exists u :: OwnsTemp(At(w', u)) && At(w', u).job.temp == temp {
      var u :| OwnsTemp(At(w, u)) && At(w, u).job.temp == temp;
      assert OwnsTemp(At(w', u)) && At(w', u).job.temp == temp;
    }
  }

  /** Task `t` gave up its temporary file, and the file is gone. */
  lemma TempGone(w: World, w': World, t: TaskId)
    requires TempsOwned(w) && forall u :: u != t ==> At(w', u) == At(w, u)
    requires OwnsTemp(At(w, t)) && !OwnsTemp(At(w', t))
    requires forall temp :: Temp(temp) in w'.files <==> Temp(temp) in w.files && temp != At(w, t).job.temp
    ensures TempsOwned(w')
  {
    forall temp | Temp(temp) in w'.files ensures exists u :: OwnsTemp(At(w', u)) && At(w', u).job.temp == temp {
      var u :| OwnsTemp(At(w, u)) && At(w, u).job.temp == temp;
      assert OwnsTemp(At(w', u)) && At(w', u).job.temp == temp;
    }
  }

  lemma AdvanceKeeps(w: World, h: Hasher, t: TaskId, s: Step)
    requires Inv(w, h) && IsGuarded(At(w, t)) && IsGuarded(s) && s.job == At(w, t).job
             && OwnsTemp(s) == OwnsTemp(At(w, t))
    requires PhaseOk(w, h, s) && !At(w, t).Disposed?
    ensures Inv(Advance(w, t, s), h)
  {
    var w', hash := Advance(w, t, s), HashOf(s.job);
    assert TaskOk(w, h, t) && HashOk(w, h, hash);
    TempsKept(w, w', t);
    StepKeeps(w, w', h, t, hash);
  }

  lemma FinishTouches(w: World, t: TaskId, outcome: Outcome)
    requires TempsOwned(w) && IsGuarded(At(w, t))
    ensures Touches(w, Finish(w, t, outcome), t, HashOf(At(w, t).job)) && TempsOwned(Finish(w, t, outcome))
  {
    if OwnsTemp(At(w, t)) {
      TempGone(w, Finish(w, t, outcome), t);
    } else {
      TempsKept(w, Finish(w, t, outcome), t);
    }
  }

  lemma FinishKeeps(w: World, h: Hasher, t: TaskId, outcome: Outcome)
    requires Inv(w, h) && IsGuarded(At(w, t)) && !At(w, t).Disposed?
    ensures Inv(Finish(w, t, outcome), h)
  {
    var w', hash := Finish(w, t, outcome), HashOf(At(w, t).job);
    assert TaskOk(w, h, t) && HashOk(w, h, hash);
    FinishTouches(w, t, outcome);
    hide Touches, TempsOwned;
    StepKeeps(w, w', h, t, hash);
  }

  // ----- the steps keep the invariant -----

  lemma BeginPublishKeeps(w: World, h: Hasher, t: TaskId, pub: Publication, temp: string, bytes: Bytes)
    requires Inv(w, h)
    ensures Inv(BeginPublishStep(w, h, t, pub, temp, bytes), h)
  {
    var w' := BeginPublishStep(w, h, t, pub, temp, bytes);
    if w' != w {
      BeginTouches(w, w', h, t);
      TempAdded(w, w', h, t, temp);
      hide TempsOwned;
      BeginKeeps(w, w', h, t);
    }
  }

  ghost predicate OnlyBegins(w: World, w': World, t: TaskId) {
    && At(w, t) == NotStarted && At(w', t).Queued? && (forall u :: u != t ==> At(w', u) == At(w, u))
    && w'.entries == w.entries && w'.guards == w.guards && w'.banned == w.banned
    && (forall p :: p in w.files ==> p in w'.files && w'.files[p] == w.files[p])
    && (forall p :: p in w'.files && !p.Temp? ==> p in w.files)
  }

  lemma BeginTouches(w: World, w': World, h: Hasher, t: TaskId)
    requires OnlyBegins(w, w', t)
    ensures forall hash :: Touches(w, w', t, hash)
  {
  }

  lemma TempAdded(w: World, w': World, h: Hasher, t: TaskId, temp: string)
    requires Inv(w, h) && OnlyBegins(w, w', t) && OwnsTemp(At(w', t)) && At(w', t).job.temp == temp
             && Temp(temp) !in w.files
    requires forall p :: p in w'.files <==> p in w.files || p == Temp(temp)
    ensures TempsOwned(w')
  {
    forall u | u != t && OwnsTemp(At(w, u)) ensures At(w, u).job.temp != temp {
      assert TaskOk(w, h, u);
    }
    forall other | Temp(other) in w'.files ensures exists u :: OwnsTemp(At(w', u)) && At(w', u).job.temp == other {
      if other == temp {
        assert OwnsTemp(At(w', t));
      } else {
        var u :| OwnsTemp(At(w, u)) && At(w, u).job.temp == other;
        assert OwnsTemp(At(w', u));
      }
    }
  }

  lemma BeginKeeps(w: World, w': World, h: Hasher, t: TaskId)
    requires Inv(w, h) && OnlyBegins(w, w', t) && TaskOk(w', h, t) && TempsOwned(w')
    ensures Inv(w', h)
  {
    BeginTouches(w, w', h, t);
    forall g ensures HashOk(w', h, g) {
      assert HashOk(w, h, g) && TaskOk(w, h, t);
    }
    forall u ensures TaskOk(w', h, u) {
      if u != t {
        assert TaskOk(w, h, u);
        var s := At(w, u);
        var other := if IsGuarded(s) then HashOf(s.job) + "'" else "";
        OtherTaskKept(w, w', h, t, other, u);
      }
    }
  }

  lemma BeginRemoveKeeps(w: World, h: Hasher, t: TaskId, sha256: string, removal: Removal,
                         expected: Option<FileMetadata>)
    requires Inv(w, h)
    ensures Inv(BeginRemoveStep(w, t, sha256, removal, expected), h)
  {
    var w' := BeginRemoveStep(w, t, sha256, removal, expected);
    if w' != w {
      TempsKept(w, w', t);
      BeginKeeps(w, w', h, t);
    }
  }

  lemma AcquireKeeps(w: World, h: Hasher, t: TaskId)
    requires Inv(w, h)
    ensures Inv(AcquireStep(w, t), h)
  {
    var w' := AcquireStep(w, t);
    if w' != w {
      var hash := HashOf(At(w, t).job);
      assert TaskOk(w, h, t) && HashOk(w, h, hash);
      TempsKept(w, w', t);
      assert Touches(w, w', t, hash) by { hide HashOk, TaskOk, WellPlaced; }
      hide Touches, TempsOwned;
      StepKeeps(w, w', h, t, hash);
    }
  }

  lemma CheckKeeps(w: World, h: Hasher, t: TaskId, ioOk: bool)
    requires Inv(w, h)
    ensures Inv(CheckStep(w, t, ioOk), h)
  {
    assert TaskOk(w, h, t);
    match At(w, t) {
      case Admitted(job) =>
        if job.Publish? {
          if !ioOk || InQuarantine(w.files, job.pub.sha256) {
            FinishKeeps(w, h, t, Failed);
          } else {
            if IsValidHash(job.pub.sha256) {
              QuarantineRefusesExactlyBanned(w, h, job.pub.sha256);
            }
            AdvanceKeeps(w, h, t, Allowed(job));
          }
        }
      case _ =>
    }
  }

  lemma IncumbentKeeps(w: World, h: Hasher, t: TaskId)
    requires Inv(w, h)
    ensures Inv(IncumbentStep(w, t), h)
  {
    assert TaskOk(w, h, t);
    match At(w, t) {
      case Allowed(job) =>
        var blobs, hash := w.entries.blobs, job.pub.sha256;
        if hash in blobs && (job.pub.origin == UpstreamCache || blobs[hash].origin == Upload) {
          FinishKeeps(w, h, t, Stored(blobs[hash], false));
        } else {
          AdvanceKeeps(w, h, t, Placing(job));
        }
      case _ =>
    }
  }

  lemma ProbeKeeps(w: World, h: Hasher, t: TaskId, ioOk: bool)
    requires Inv(w, h)
    ensures Inv(ProbeStep(w, t, ioOk), h)
  {
    assert TaskOk(w, h, t);
    match At(w, t) {
      case Placing(job) =>
        FinishKeeps(w, h, t, Failed);
        AdvanceKeeps(w, h, t, Clearing(job));
        AdvanceKeeps(w, h, t, Renaming(job));
      case _ =>
    }
  }

  /** The publication's target belongs to no other hash, and to no entry it may replace. */
  lemma TargetIsFree(w: World, h: Hasher, pub: Publication)
    requires Inv(w, h) && IsValidHash(pub.sha256) && NoSlash(pub.extension)
    ensures forall g, m :: WellPlaced(g, m) && (g != pub.sha256 || m.origin != pub.origin) ==>
              m.location.path != TargetOf(pub)
    ensures WellPlaced(pub.sha256, MetadataOf(pub, Local(TargetOf(pub)), 0))
  {
    var mine := MetadataOf(pub, Local(TargetOf(pub)), 0);
    assert WellPlaced(pub.sha256, mine);
    forall g, m | WellPlaced(g, m)
      && (g != pub.sha256 || m.origin != pub.origin) ensures m.location.path != TargetOf(pub) {
      EntriesApart(g, m, pub.sha256, mine);
    }
  }

  /** Only the files change, at the target and among the task's own temporary files. */
  ghost predicate OnlyAtTarget(w: World, w': World, t: TaskId, pub: Publication)
    requires IsValidHash(pub.sha256)
  {
    && IsGuarded(At(w, t)) && IsGuarded(At(w', t)) && At(w, t).job.Publish? && At(w, t).job.pub == pub
    && At(w', t).job == At(w, t).job
    && (forall u :: u != t ==> At(w', u) == At(w, u))
    && w'.entries == w.entries && w'.guards == w.guards && w'.banned == w.banned
    && (forall p :: p in w.files && p != TargetOf(pub) && p != Temp(At(w, t).job.temp) ==>
          p in w'.files && w'.files[p] == w.files[p])
    && (forall p :: p in w'.files && p != TargetOf(pub) ==> p in w.files)
  }

  lemma AtTargetTouches(w: World, w': World, h: Hasher, t: TaskId, pub: Publication)
    requires Inv(w, h) && IsValidHash(pub.sha256) && NoSlash(pub.extension) && OnlyAtTarget(w, w', t, pub)
             && OwnsTemp(At(w, t))
    ensures Touches(w, w', t, pub.sha256)
  {
    TargetIsFree(w, h, pub);
    assert TempsOwned(w);
    hide HashOk, TaskOk, Inv, TempsOwned, QuarantineOk, CompletedPath, NoSlash;
    assert TargetOf(pub).Completed? by { TargetIsCompleted(pub); }
    forall u | u != t && OwnsTemp(At(w, u)) ensures At(w, u).job.temp != At(w, t).job.temp {
      TempsDiffer(w, t, u);
    }
    forall g, m | g != pub.sha256 && WellPlaced(g, m) ensures SameFile(w, w', m.location.path) {
      assert m.location.path != TargetOf(pub);
      PlacedIsCompleted(g, m);
    }
  }

  lemma TargetIsCompleted(pub: Publication)
    requires IsValidHash(pub.sha256)
    ensures TargetOf(pub).Completed?
  {
  }

  lemma PlacedIsCompleted(g: string, m: FileMetadata)
    requires WellPlaced(g, m)
    ensures m.location.Local? && m.location.path.Completed?
  {
  }

  lemma TempsDiffer(w: World, t: TaskId, u: TaskId)
    requires TempsOwned(w) && t != u && OwnsTemp(At(w, t)) && OwnsTemp(At(w, u))
    ensures At(w, t).job.temp != At(w, u).job.temp
  {
  }

  /** The hash itself stays in order: what is indexed for it lives elsewhere. */
  lemma AtTargetHashOk(w: World, w': World, h: Hasher, t: TaskId, pub: Publication)
    requires Inv(w, h) && IsValidHash(pub.sha256) && NoSlash(pub.extension) && OnlyAtTarget(w, w', t, pub)
    requires MayReplace(w, pub) && !At(w', t).Disposed? && !At(w, t).Disposed?
    ensures HashOk(w', h, pub.sha256)
  {
    TargetIsFree(w, h, pub);
    assert TaskOk(w, h, t) && HashOk(w, h, pub.sha256);
    hide CompletedPath;
  }

  lemma ClearedOk(w: World, h: Hasher, t: TaskId)
    requires Inv(w, h) && At(w, t).Clearing? && At(w, t).job.Publish? && IsValidHash(At(w, t).job.pub.sha256)
    ensures var w', pub := ClearStep(w, t, true), At(w, t).job.pub;
            && NoSlash(pub.extension) && MayReplace(w, pub) && OnlyAtTarget(w, w', t, pub) && OwnsTemp(At(w, t))
            && !At(w', t).Disposed? && TempsOwned(w') && QuarantineOk(w')
  {
    assert TaskOk(w, h, t);
    hide CompletedPath, Inv, Backed;
    TargetIsCompleted(At(w, t).job.pub);
    TempsKept(w, ClearStep(w, t, true), t);
    hide TempsOwned;
  }

  lemma ClearedTaskOk(w: World, h: Hasher, t: TaskId)
    requires Inv(w, h) && At(w, t).Clearing? && At(w, t).job.Publish? && IsValidHash(At(w, t).job.pub.sha256)
    ensures TaskOk(ClearStep(w, t, true), h, t)
  {
    assert TaskOk(w, h, t);
    hide CompletedPath, Inv;
    TargetIsCompleted(At(w, t).job.pub);
  }

  lemma ClearKeeps(w: World, h: Hasher, t: TaskId, ioOk: bool)
    requires Inv(w, h)
    ensures Inv(ClearStep(w, t, ioOk), h)
  {
    if At(w, t).Clearing? && At(w, t).job.Publish? && IsValidHash(At(w, t).job.pub.sha256) {
      var w', pub := ClearStep(w, t, ioOk), At(w, t).job.pub;
      if !ioOk {
        FinishKeeps(w, h, t, Failed);
      } else {
        assert IsGuarded(At(w, t)) && HashOf(At(w, t).job) == pub.sha256;
        hide *;
        ClearedOk(w, h, t);
        ClearedTaskOk(w, h, t);
        AtTargetTouches(w, w', h, t, pub);
        AtTargetHashOk(w, w', h, t, pub);
        StepKeeps(w, w', h, t, pub.sha256);
      }
    }
  }

  lemma RenamedOk(w: World, h: Hasher, t: TaskId)
    requires Inv(w, h) && At(w, t).Renaming? && At(w, t).job.Publish? && IsValidHash(At(w, t).job.pub.sha256)
             && Temp(At(w, t).job.temp) in w.files
    ensures var w', pub := RenameStep(w, t, true), At(w, t).job.pub;
            && NoSlash(pub.extension) && MayReplace(w, pub) && OnlyAtTarget(w, w', t, pub) && OwnsTemp(At(w, t))
            && !At(w', t).Disposed? && TempsOwned(w') && QuarantineOk(w')
  {
    assert TaskOk(w, h, t);
    hide CompletedPath, Inv, Backed;
    TargetIsCompleted(At(w, t).job.pub);
    TempGone(w, RenameStep(w, t, true), t);
    hide TempsOwned;
  }

  lemma RenamedTaskOk(w: World, h: Hasher, t: TaskId)
    requires Inv(w, h) && At(w, t).Renaming? && At(w, t).job.Publish? && IsValidHash(At(w, t).job.pub.sha256)
             && Temp(At(w, t).job.temp) in w.files
    ensures TaskOk(RenameStep(w, t, true), h, t)
  {
    assert TaskOk(w, h, t);
    hide CompletedPath, Inv;
    TargetIsCompleted(At(w, t).job.pub);
  }

  lemma RenameKeeps(w: World, h: Hasher, t: TaskId, ioOk: bool)
    requires Inv(w, h)
    ensures Inv(RenameStep(w, t, ioOk), h)
  {
    if At(w, t).Renaming? && At(w, t).job.Publish? && IsValidHash(At(w, t).job.pub.sha256) {
      var w', pub := RenameStep(w, t, ioOk), At(w, t).job.pub;
      if !ioOk || Temp(At(w, t).job.temp) !in w.files {
        FinishKeeps(w, h, t, Failed);
      } else {
        assert IsGuarded(At(w, t)) && HashOf(At(w, t).job) == pub.sha256;
        hide *;
        RenamedOk(w, h, t);
        RenamedTaskOk(w, h, t);
        AtTargetTouches(w, w', h, t, pub);
        AtTargetHashOk(w, w', h, t, pub);
        StepKeeps(w, w', h, t, pub.sha256);
      }
    }
  }

  /** The incumbent never wins at this point: `Retained` is unreachable. */
  lemma IndexPublishes(w: World, h: Hasher, t: TaskId, now: u64)
    requires Inv(w, h) && At(w, t).Placed?
    ensures var job := At(w, t).job;
            && job.Publish? && IsValidHash(job.pub.sha256)
            && var m := MetadataOf(job.pub, Local(TargetOf(job.pub)), now);
               && PublishStep(w.entries, job.pub.sha256, m).1.Published?
               && IndexStep(w, t, now).entries.blobs == w.entries.blobs[job.pub.sha256 := m]
  {
    assert TaskOk(w, h, t);
  }

  lemma IndexTouches(w: World, h: Hasher, t: TaskId, now: u64)
    requires Inv(w, h) && At(w, t).Placed?
    ensures Touches(w, IndexStep(w, t, now), t, HashOf(At(w, t).job))
  {
    IndexPublishes(w, h, t, now);
    hide Inv, PublishStep, TargetOf, WellPlaced;
  }

  lemma IndexedOk(w: World, h: Hasher, t: TaskId, now: u64)
    requires Inv(w, h) && At(w, t).Placed?
    ensures var w' := IndexStep(w, t, now);
            HashOk(w', h, HashOf(At(w, t).job)) && TaskOk(w', h, t) && TempsOwned(w') && QuarantineOk(w')
  {
    assert TaskOk(w, h, t);
    var w', job := IndexStep(w, t, now), At(w, t).job;
    IndexPublishes(w, h, t, now);
    TargetIsFree(w, h, job.pub);
    assert HashOk(w, h, job.pub.sha256);
    TempsKept(w, w', t);
    hide CompletedPath, InsertStep, Inv, TempsOwned;
  }

  lemma IndexKeeps(w: World, h: Hasher, t: TaskId, now: u64)
    requires Inv(w, h)
    ensures Inv(IndexStep(w, t, now), h)
  {
    if At(w, t).Placed? {
      IndexedOk(w, h, t, now);
      IndexTouches(w, h, t, now);
      assert IsGuarded(At(w, t));
      hide *;
      StepKeeps(w, IndexStep(w, t, now), h, t, HashOf(At(w, t).job));
    }
  }

  lemma SupersedeTouches(w: World, h: Hasher, t: TaskId)
    requires Inv(w, h) && At(w, t).Superseding?
    ensures Touches(w, SupersedeStep(w, t), t, HashOf(At(w, t).job))
  {
    assert TaskOk(w, h, t);
    var displaced, hash := At(w, t).displaced, At(w, t).job.pub.sha256;
    OthersElsewhere(hash, displaced);
    PlacedIsCompleted(hash, displaced);
    hide Inv, TaskOk, CompletedPath;
    forall g, m | g != hash && WellPlaced(g, m) ensures SameFile(w, SupersedeStep(w, t), m.location.path) {
      PlacedIsCompleted(g, m);
    }
    hide WellPlaced, SameFile;
  }

  lemma SupersededOk(w: World, h: Hasher, t: TaskId)
    requires Inv(w, h) && At(w, t).Superseding?
    ensures var w' := SupersedeStep(w, t);
            HashOk(w', h, HashOf(At(w, t).job)) && TaskOk(w', h, t) && TempsOwned(w') && QuarantineOk(w')
  {
    assert TaskOk(w, h, t);
    var displaced, hash := At(w, t).displaced, At(w, t).job.pub.sha256;
    assert HashOk(w, h, hash);
    EntriesApart(hash, displaced, hash, w.entries.blobs[hash]);
    PlacedIsCompleted(hash, displaced);
    TempsKept(w, SupersedeStep(w, t), t);
    hide CompletedPath, Inv, TempsOwned;
  }

  lemma SupersedeKeeps(w: World, h: Hasher, t: TaskId)
    requires Inv(w, h)
    ensures Inv(SupersedeStep(w, t), h)
  {
    if At(w, t).Superseding? {
      SupersededOk(w, h, t);
      SupersedeTouches(w, h, t);
      assert IsGuarded(At(w, t));
      hide *;
      StepKeeps(w, SupersedeStep(w, t), h, t, HashOf(At(w, t).job));
    }
  }

  lemma OthersElsewhere(hash: string, m: FileMetadata)
    requires WellPlaced(hash, m)
    ensures forall g, other :: g != hash && WellPlaced(g, other) ==> other.location.path != m.location.path
  {
    forall g, other | g != hash && WellPlaced(g, other) ensures other.location.path != m.location.path {
      EntriesApart(g, other, hash, m);
    }
  }

  lemma ReturnKeeps(w: World, h: Hasher, t: TaskId)
    requires Inv(w, h)
    ensures Inv(ReturnStep(w, t), h)
  {
    if At(w, t).Settled? && HashOf(At(w, t).job) in w.entries.blobs {
      FinishKeeps(w, h, t, Stored(w.entries.blobs[HashOf(At(w, t).job)], true));
    }
  }

  lemma SelectKeeps(w: World, h: Hasher, t: TaskId)
    requires Inv(w, h)
    ensures Inv(SelectStep(w, t), h)
  {
    match At(w, t) {
      case Admitted(job) =>
        if job.Remove? {
          if job.sha256 !in w.entries.blobs || !StillExpected(w.entries.blobs[job.sha256], job.expected) {
            FinishKeeps(w, h, t, Removed(false));
          } else {
            AdvanceKeeps(w, h, t, Disposing(job, w.entries.blobs[job.sha256]));
          }
        }
      case _ =>
    }
  }

  /** Unlinking or quarantining the file of the entry under removal. */
  ghost predicate OnlyDisposes(w: World, w': World, t: TaskId, hash: string, current: FileMetadata) {
    && At(w, t).Disposing? && At(w', t) == Disposed(At(w, t).job, current) && At(w, t).job.Remove?
    && At(w, t).job.sha256 == hash
    && (forall u :: u != t ==> At(w', u) == At(w, u))
    && w'.entries == w.entries && w'.guards == w.guards
    && (forall g :: g != hash ==>
          (g in w'.banned <==> g in w.banned) && (g in w.banned ==> w'.banned[g] == w.banned[g]))
    && current.location.Local?
    && (forall p :: p in w.files && p != current.location.path ==>
          p in w'.files && (!p.Quarantined? ==> w'.files[p] == w.files[p]))
    && (forall p :: p in w'.files && !p.Quarantined? ==> p in w.files)
  }

  lemma DisposeTouches(w: World, w': World, h: Hasher, t: TaskId, hash: string, current: FileMetadata)
    requires Inv(w, h) && WellPlaced(hash, current) && OnlyDisposes(w, w', t, hash, current)
    ensures Touches(w, w', t, hash) && TempsOwned(w')
  {
    PlacedIsCompleted(hash, current);
    OthersElsewhere(hash, current);
    TempsKept(w, w', t);
    hide HashOk, TaskOk, Inv, TempsOwned, QuarantineOk, CompletedPath, NoSlash;
    forall g, m | g != hash && WellPlaced(g, m) ensures SameFile(w, w', m.location.path) {
      PlacedIsCompleted(g, m);
    }
  }

  lemma DisposeMoves(w: World, h: Hasher, t: TaskId, ioOk: bool)
    requires Inv(w, h) && At(w, t).Disposing? && At(DisposeStep(w, t, ioOk), t).Disposed?
    ensures var w', hash, current := DisposeStep(w, t, ioOk), HashOf(At(w, t).job), At(w, t).current;
            && WellPlaced(hash, current) && OnlyDisposes(w, w', t, hash, current)
            && (forall g :: g in w.banned ==> g in w'.banned)
            && (forall name :: Quarantined(name) in w'.files ==>
                  Quarantined(name) in w.files || (name == current.location.path.name && hash in w'.banned))
  {
    assert TaskOk(w, h, t) && HashOk(w, h, HashOf(At(w, t).job));
    hide Inv, CompletedPath, TaskOk, Backed;
  }

  lemma DisposedTaskOk(w: World, h: Hasher, t: TaskId, ioOk: bool)
    requires Inv(w, h) && At(w, t).Disposing? && At(DisposeStep(w, t, ioOk), t).Disposed?
    ensures TaskOk(DisposeStep(w, t, ioOk), h, t)
  {
    assert TaskOk(w, h, t) && HashOk(w, h, HashOf(At(w, t).job));
    hide Inv, CompletedPath, Backed;
  }

  lemma DisposeOutcomes(w: World, h: Hasher, t: TaskId, ioOk: bool)
    requires Inv(w, h) && At(w, t).Disposing?
    ensures DisposeStep(w, t, ioOk) == Finish(w, t, Failed) || At(DisposeStep(w, t, ioOk), t).Disposed?
  {
    assert TaskOk(w, h, t) && HashOk(w, h, HashOf(At(w, t).job));
    hide Inv, CompletedPath;
  }

  lemma DisposeKeeps(w: World, h: Hasher, t: TaskId, ioOk: bool)
    requires Inv(w, h)
    ensures Inv(DisposeStep(w, t, ioOk), h)
  {
    if At(w, t).Disposing? {
      var w', hash := DisposeStep(w, t, ioOk), HashOf(At(w, t).job);
      DisposeOutcomes(w, h, t, ioOk);
      FinishKeeps(w, h, t, Failed);
      if At(w', t).Disposed? {
        assert QuarantineOk(w);
        hide *;
        DisposeMoves(w, h, t, ioOk);
        DisposedTaskOk(w, h, t, ioOk);
        DisposeTouches(w, w', h, t, hash, At(w, t).current);
        QuarantineGrows(w, w', hash, At(w, t).current);
        DisposedHashOk(w, h, t, ioOk);
        GuardedDisposing(w, t);
        StepKeeps(w, w', h, t, hash);
      }
    }
  }

  lemma GuardedDisposing(w: World, t: TaskId)
    ensures At(w, t).Disposing? ==> IsGuarded(At(w, t))
  {
  }

  lemma DisposedHashOk(w: World, h: Hasher, t: TaskId, ioOk: bool)
    requires Inv(w, h) && At(w, t).Disposing? && DisposeStep(w, t, ioOk) != w
             && At(DisposeStep(w, t, ioOk), t).Disposed?
    ensures HashOk(DisposeStep(w, t, ioOk), h, HashOf(At(w, t).job))
  {
    assert TaskOk(w, h, t) && HashOk(w, h, HashOf(At(w, t).job));
    var current := At(w, t).current;
    QuarantineMatchesOwnHash(At(w, t).job.sha256, At(w, t).job.sha256, current.expiration, current.extension);
    hide NameOf, QuarantineNameMatches, Inv;
  }

  lemma QuarantineGrows(w: World, w': World, hash: string, current: FileMetadata)
    requires QuarantineOk(w) && WellPlaced(hash, current)
    requires forall g :: g in w.banned ==> g in w'.banned
    requires forall name :: Quarantined(name) in w'.files ==>
               Quarantined(name) in w.files || (name == current.location.path.name && hash in w'.banned)
    ensures QuarantineOk(w')
  {
  }

  lemma UnindexTouches(w: World, t: TaskId, hash: string)
    requires At(w, t).Disposed? && HashOf(At(w, t).job) == hash
    ensures Touches(w, UnindexStep(w, t), t, hash)
  {
    hide OrderRemove, WellPlaced;
  }

  lemma UnindexKeeps(w: World, h: Hasher, t: TaskId)
    requires Inv(w, h)
    ensures Inv(UnindexStep(w, t), h)
  {
    assert TaskOk(w, h, t);
    match At(w, t) {
      case Disposed(job, current) =>
        var w', hash := UnindexStep(w, t), job.sha256;
        assert HashOk(w, h, hash);
        TempsKept(w, w', t);
        UnindexTouches(w, t, hash);
        hide Touches, TempsOwned, OrderRemove;
        StepKeeps(w, w', h, t, hash);
      case _ =>
    }
  }
}

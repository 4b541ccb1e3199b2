/** Storage under the real lock map: publications and removals wait for the mutex of their hash, in
    its queue, and give it up when they end. */
module GuardedStorage {
  import opened Prelude
  import opened FileModel
  import opened BlobName
  import opened BlobIndex
  import opened BlobStorage
  import opened BlobStorageTheorems
  import Locks = MutationLocks

  datatype Joint = Joint(locks: Locks.LockState, store: World)

  datatype Move =
    | Prune
    | Ask(t: TaskId)                 // `lock` up to the upgrade of the hash's mutex
    | Join(t: TaskId)
    | Grant(t: TaskId)
    | Work(e: BlobStorage.Event)     // any step of storage but the acquisition, which is the grant

  const START := Joint(Locks.UNLOCKED, EMPTY)

  /** The step ends the function, and with it the guard's life. */
  predicate Released(w: World, w': World, t: TaskId) {
    IsGuarded(At(w, t)) && !IsGuarded(At(w', t))
  }

  ghost function Next(j: Joint, h: Hasher, m: Move): Joint {
    match m
    case Prune => j.(locks := Locks.PruneStep(j.locks))
    case Ask(t) =>
      if At(j.store, t).Queued? then j.(locks := Locks.AttachStep(j.locks, t, HashOf(At(j.store, t).job))) else j
    case Join(t) => j.(locks := Locks.JoinStep(j.locks, t))
    case Grant(t) =>
      if Locks.MayEnter(j.locks, t) then Joint(Locks.GrantStep(j.locks, t), AcquireStep(j.store, t)) else j
    case Work(e) =>
      if e.Acquire? then j
      else
        var store := BlobStorage.Apply(j.store, h, e);
        Joint(if Released(j.store, store, e.t) then Locks.LeaveStep(j.locks, e.t) else j.locks, store)
  }

  ghost function Reach(h: Hasher, moves: seq<Move>): Joint {
    if moves == [] then START else Next(Reach(h, moves[..|moves| - 1]), h, moves[|moves| - 1])
  }

  // ----- each component runs as it does alone -----

  lemma LocksExtend(events: seq<Locks.Event>, e: Locks.Event)
    ensures Locks.Reach(events + [e]) == Locks.Apply(Locks.Reach(events), e)
  {
    assert (events + [e])[..|events|] == events;
  }

  lemma StoreExtends(h: Hasher, events: seq<BlobStorage.Event>, e: BlobStorage.Event)
    ensures Run(EMPTY, h, events + [e]) == BlobStorage.Apply(Run(EMPTY, h, events), h, e)
  {
    assert (events + [e])[..|events|] == events;
  }

  /** Every joint run is a run of the lock map beside a run of storage, so what is proved of either
      holds here. */
  lemma {:induction false} Components(h: Hasher, moves: seq<Move>)
    returns (locking: seq<Locks.Event>, storing: seq<BlobStorage.Event>)
    ensures Reach(h, moves) == Joint(Locks.Reach(locking), Run(EMPTY, h, storing))
  {
    locking, storing := [], [];
    if moves != [] {
      var n := |moves| - 1;
      locking, storing := Components(h, moves[..n]);
      locking, storing := OneMore(h, Reach(h, moves[..n]), moves[n], locking, storing);
    }
  }

  lemma OneMore(h: Hasher, j: Joint, m: Move, locking: seq<Locks.Event>, storing: seq<BlobStorage.Event>)
    returns (locking': seq<Locks.Event>, storing': seq<BlobStorage.Event>)
    requires j == Joint(Locks.Reach(locking), Run(EMPTY, h, storing))
    ensures Next(j, h, m) == Joint(Locks.Reach(locking'), Run(EMPTY, h, storing'))
  {
    locking', storing' := locking, storing;
    hide BlobStorage.Apply, Released, Run, Locks.Reach;
    match m {
      case Prune => locking' := locking + [Locks.Prune];
      case Ask(t) =>
        if At(j.store, t).Queued? {
          locking' := locking + [Locks.Attach(t, HashOf(At(j.store, t).job))];
        }
      case Join(t) => locking' := locking + [Locks.Join(t)];
      case Grant(t) =>
        if Locks.MayEnter(j.locks, t) {
          locking', storing' := locking + [Locks.Grant(t)], storing + [Acquire(t)];
          AcquireIsAnEvent(j.store, h, t);
        }
      case Work(e) =>
        if !e.Acquire? {
          storing' := storing + [e];
          if Released(j.store, BlobStorage.Apply(j.store, h, e), e.t) {
            locking' := locking + [Locks.Leave(e.t)];
          }
        }
    }
    if locking' != locking {
      LocksExtend(locking, locking'[|locking|]);
    }
    if storing' != storing {
      StoreExtends(h, storing, storing'[|storing|]);
    }
  }

  lemma AcquireIsAnEvent(w: World, h: Hasher, t: TaskId)
    ensures BlobStorage.Apply(w, h, Acquire(t)) == AcquireStep(w, t)
  {
  }

  // ----- the guards of storage are the holders of the lock map -----

  ghost predicate GuardsAgree(j: Joint) {
    forall t, hash :: Locks.Holds(j.locks, t, hash) <==> hash in j.store.guards && j.store.guards[hash] == t
  }

  /** Whoever is on the way to a mutex is a queued publication or removal of that mutex's hash. */
  ghost predicate WaitersQueued(j: Joint) {
    forall t :: Locks.At(j.locks, t).Attached? || Locks.At(j.locks, t).Waiting? ==>
                  At(j.store, t).Queued? && HashOf(At(j.store, t).job) == Locks.At(j.locks, t).hash
  }

  /** What a step of task `t` other than an acquisition may do to the guards: drop its own at the end. */
  ghost predicate MovesGuards(w: World, w': World, t: TaskId) {
    && w'.guards == (if Released(w, w', t) then w.guards - {HashOf(At(w, t).job)} else w.guards)
    && (forall u :: u != t ==> At(w', u) == At(w, u))
    && (At(w, t).Queued? ==> At(w', t) == At(w, t))
  }

  lemma AdmissionMovesGuards(w: World, h: Hasher, e: BlobStorage.Event)
    requires e.Check? || e.Incumbent?
    ensures MovesGuards(w, BlobStorage.Apply(w, h, e), e.t)
  {
    hide InQuarantine;
  }

  lemma PlacingMovesGuards(w: World, h: Hasher, e: BlobStorage.Event)
    requires e.Probe? || e.Clear? || e.Rename?
    ensures MovesGuards(w, BlobStorage.Apply(w, h, e), e.t)
  {
    hide TargetOf;
  }

  lemma IndexingMovesGuards(w: World, h: Hasher, e: BlobStorage.Event)
    requires e.Index? || e.Supersede? || e.Return?
    ensures MovesGuards(w, BlobStorage.Apply(w, h, e), e.t)
  {
    hide TargetOf, PublishStep, MetadataOf;
  }

  lemma SelectMovesGuards(w: World, t: TaskId)
    ensures MovesGuards(w, SelectStep(w, t), t)
  {
    hide StillExpected;
  }

  lemma DisposeMovesGuards(w: World, t: TaskId, ioOk: bool)
    ensures MovesGuards(w, DisposeStep(w, t, ioOk), t)
  {
  }

  lemma UnindexMovesGuards(w: World, t: TaskId)
    ensures MovesGuards(w, UnindexStep(w, t), t)
  {
    hide RemoveIfLocationMatchesStep;
  }

  lemma WorkMovesGuards(w: World, h: Hasher, e: BlobStorage.Event)
    requires !e.Acquire?
    ensures MovesGuards(w, BlobStorage.Apply(w, h, e), e.t)
  {
    match e {
      case BeginPublish(t, pub, temp, bytes) => hide MayPublish;
      case BeginRemove(_, _, _, _) =>
      case Index(_, _) => IndexingMovesGuards(w, h, e);
      case Supersede(_) => IndexingMovesGuards(w, h, e);
      case Return(_) => IndexingMovesGuards(w, h, e);
      case Select(t) => SelectMovesGuards(w, t);
      case Dispose(t, ioOk) => DisposeMovesGuards(w, t, ioOk);
      case Unindex(t) => UnindexMovesGuards(w, t);
      case Check(_, _) => AdmissionMovesGuards(w, h, e);
      case Incumbent(_) => AdmissionMovesGuards(w, h, e);
      case _ => PlacingMovesGuards(w, h, e);
    }
  }

  lemma WorkKeeps(j: Joint, h: Hasher, e: BlobStorage.Event)
    requires !e.Acquire? && Inv(j.store, h) && GuardsAgree(j) && WaitersQueued(j)
    ensures GuardsAgree(Next(j, h, Work(e))) && WaitersQueued(Next(j, h, Work(e)))
  {
    hide BlobStorage.Apply, Inv, Locks.Without, Locks.LeaveStep;
    var t, store := e.t, BlobStorage.Apply(j.store, h, e);
    WorkMovesGuards(j.store, h, e);
    if Released(j.store, store, t) {
      var hash := HashOf(At(j.store, t).job);
      OwnGuardOnly(j.store, h, t);
      LeavingAgrees(j, store, t, hash);
    }
  }

  /** A guarded task has the guard of its own hash and no other. */
  lemma OwnGuardOnly(w: World, h: Hasher, t: TaskId)
    requires Inv(w, h) && IsGuarded(At(w, t))
    ensures forall g :: g in w.guards && w.guards[g] == t <==> g == HashOf(At(w, t).job)
  {
    assert TaskOk(w, h, t);
    forall g | g in w.guards && w.guards[g] == t ensures g == HashOf(At(w, t).job) {
      assert HashOk(w, h, g);
    }
  }

  lemma LeavingAgrees(j: Joint, store: World, t: TaskId, hash: string)
    requires GuardsAgree(j) && WaitersQueued(j) && store.guards == j.store.guards - {hash}
    requires forall g :: g in j.store.guards && j.store.guards[g] == t <==> g == hash
    requires forall u :: u != t ==> At(store, u) == At(j.store, u)
    ensures GuardsAgree(Joint(Locks.LeaveStep(j.locks, t), store))
            && WaitersQueued(Joint(Locks.LeaveStep(j.locks, t), store))
  {
    assert Locks.Holds(j.locks, t, hash);
    var locks := Locks.LeaveStep(j.locks, t);
    assert forall u :: Locks.At(locks, u) == if u == t then Locks.Idle else Locks.At(j.locks, u);
    hide Locks.LeaveStep, Locks.At;
    forall u, g ensures Locks.Holds(locks, u, g) <==> g in store.guards && store.guards[g] == u {
      assert Locks.Holds(j.locks, u, g) <==> g in j.store.guards && j.store.guards[g] == u;
    }
  }

  /** A waiter whose turn has come finds no guard on its hash. */
  lemma TurnMeansFree(j: Joint, t: TaskId)
    requires Locks.Coherent(j.locks) && GuardsAgree(j) && WaitersQueued(j) && Locks.MayEnter(j.locks, t)
    ensures At(j.store, t).Queued? && HashOf(At(j.store, t).job) == Locks.At(j.locks, t).hash
    ensures Locks.At(j.locks, t).hash !in j.store.guards
  {
    var hash := Locks.At(j.locks, t).hash;
    if hash in j.store.guards {
      var u := j.store.guards[hash];
      assert Locks.Holds(j.locks, u, hash);
      Locks.SameHashSameMutex(j.locks, t, u);
    }
  }

  lemma GrantAgrees(j: Joint, h: Hasher, t: TaskId)
    requires Locks.Coherent(j.locks) && GuardsAgree(j) && WaitersQueued(j)
    ensures GuardsAgree(Next(j, h, Grant(t))) && WaitersQueued(Next(j, h, Grant(t)))
  {
    if Locks.MayEnter(j.locks, t) {
      TurnMeansFree(j, t);
      var j' := Next(j, h, Grant(t));
      hide Locks.MayEnter, Locks.Coherent, Locks.Without;
      assert Locks.At(j.locks, t).Waiting? && Locks.GrantStep(j.locks, t) == j'.locks;
      assert forall u :: u != t ==> Locks.At(j'.locks, u) == Locks.At(j.locks, u) && At(j'.store, u) == At(j.store, u);
      forall u, g ensures Locks.Holds(j'.locks, u, g) <==> g in j'.store.guards && j'.store.guards[g] == u {
        assert Locks.Holds(j.locks, u, g) <==> g in j.store.guards && j.store.guards[g] == u;
        assert Locks.Holds(j.locks, t, g) <==> g in j.store.guards && j.store.guards[g] == t;
      }
    }
  }

  lemma LockMoveAgrees(j: Joint, h: Hasher, m: Move)
    requires (m.Prune? || m.Ask? || m.Join?) && GuardsAgree(j) && WaitersQueued(j)
    ensures GuardsAgree(Next(j, h, m)) && WaitersQueued(Next(j, h, m))
  {
    var j' := Next(j, h, m);
    hide Locks.StrongCount, Locks.Retained;
    assert forall u :: || Locks.At(j'.locks, u) == Locks.At(j.locks, u)
                       || (m == Ask(u) && Locks.At(j.locks, u).Idle? && Locks.At(j'.locks, u).Attached?)
                       || (m == Join(u) && Locks.At(j.locks, u).Attached? && Locks.At(j'.locks, u).Waiting?);
    forall u, g ensures Locks.Holds(j'.locks, u, g) <==> g in j'.store.guards && j'.store.guards[g] == u {
      assert Locks.Holds(j.locks, u, g) <==> g in j.store.guards && j.store.guards[g] == u;
    }
  }

  /** The guard table that storage is proved with is, in every joint run, exactly the table of holders
      of the lock map. */
  lemma {:induction false} GuardsAreTheHolders(h: Hasher, moves: seq<Move>)
    ensures GuardsAgree(Reach(h, moves)) && WaitersQueued(Reach(h, moves))
  {
    if moves != [] {
      var n := |moves| - 1;
      var j, m := Reach(h, moves[..n]), moves[n];
      GuardsAreTheHolders(h, moves[..n]);
      var locking, storing := Components(h, moves[..n]);
      Locks.EveryRunIsCoherent(locking);
      EmptyIsSound(h);
      EveryRunIsSound(EMPTY, h, storing);
      hide Next, GuardsAgree, WaitersQueued, Inv, Locks.Coherent, Run, Locks.Reach;
      match m {
        case Grant(t) => GrantAgrees(j, h, t);
        case Work(e) =>
          if e.Acquire? {
            IdleWork(j, h, e);
          } else {
            WorkKeeps(j, h, e);
          }
        case _ => LockMoveAgrees(j, h, m);
      }
    }
  }

  lemma IdleWork(j: Joint, h: Hasher, e: BlobStorage.Event)
    requires e.Acquire?
    ensures Next(j, h, Work(e)) == j
  {
  }

  /** A grant of the mutex is an acquisition of the guard: the waiting task proceeds if and only if
      nobody holds its hash or asked for it earlier, and then no other guard of the hash exists. */
  lemma GrantAdmits(h: Hasher, moves: seq<Move>, t: TaskId)
    requires Locks.At(Reach(h, moves).locks, t).Waiting?
    ensures var j, j' := Reach(h, moves), Next(Reach(h, moves), h, Grant(t));
            && At(j.store, t).Queued?
            && (At(j'.store, t) == Admitted(At(j.store, t).job) <==> forall u :: !Locks.AheadOf(j.locks, u, t))
            && (At(j'.store, t).Admitted? ==> HashOf(At(j.store, t).job) !in j.store.guards
                                              && j'.store.guards == j.store.guards[HashOf(At(j.store, t).job) := t])
  {
    var j := Reach(h, moves);
    GuardsAreTheHolders(h, moves);
    var locking, storing := Components(h, moves);
    Locks.EveryRunIsCoherent(locking);
    Locks.MayEnterWhenNobodyAhead(j.locks, t);
    if Locks.MayEnter(j.locks, t) {
      TurnMeansFree(j, t);
    }
    hide Locks.AheadOf, Locks.Coherent, Locks.MayEnter, Reach, GuardsAgree;
  }

  /** Stated without guards: in every joint run, an indexed hash whose mutex nobody holds has its file
      where its metadata says, with its size and its digest. */
  lemma UnlockedBlobsAreOnDisk(h: Hasher, moves: seq<Move>, hash: string)
    ensures var j := Reach(h, moves);
            hash in j.store.entries.blobs && (forall t :: !Locks.Holds(j.locks, t, hash)) ==>
              IsValidHash(hash)
              && var m := j.store.entries.blobs[hash];
                 var path := CompletedPath(m.origin, hash, m.extension, m.expiration);
                 m.location == Local(path) && path in j.store.files && h(j.store.files[path]) == hash
                   && |j.store.files[path]| == m.size
  {
    var j := Reach(h, moves);
    GuardsAreTheHolders(h, moves);
    var locking, storing := Components(h, moves);
    if hash in j.store.guards {
      assert Locks.Holds(j.locks, j.store.guards[hash], hash);
    } else {
      IndexedBlobsAreOnDisk(h, storing, hash);
    }
  }
}

/** One lock per blob hash, kept alive only by its users: a map of weak references to mutexes. */
module MutationLocks {
  import opened Prelude

  type MutexId = nat
  type TaskId = nat

  /** A task on its way to, waiting for, or holding a mutex owns one strong reference to it. */
  datatype Phase =
    | Idle
    | Attached(hash: string, mutex: MutexId)   // mutex in hand, not yet in its queue
    | Waiting(hash: string, mutex: MutexId)    // in the queue
    | Holding(hash: string, mutex: MutexId)

  datatype LockState = LockState(
    locks: map<string, MutexId>,   // weak: an entry does not keep its mutex alive
    users: map<TaskId, Phase>,     // the strong references
    locked: set<MutexId>,
    queue: seq<TaskId>,            // all waiting tasks, in the order in which they began to wait
    next: MutexId)                 // mutexes allocated so far

  const UNLOCKED := LockState(map[], map[], {}, [], 0)

  function At(s: LockState, t: TaskId): Phase {
    if t in s.users then s.users[t] else Idle
  }

  predicate Uses(p: Phase, m: MutexId) {
    !p.Idle? && p.mutex == m
  }

  function StrongCount(s: LockState, m: MutexId): nat {
    |set t | t in s.users && Uses(s.users[t], m)|
  }

  function Without(queue: seq<TaskId>, t: TaskId): seq<TaskId> {
    if queue == [] then []
    else if queue[0] == t then Without(queue[1..], t)
    else [queue[0]] + Without(queue[1..], t)
  }

  /** `u` began to wait before `t`. */
  ghost predicate Before(queue: seq<TaskId>, u: TaskId, t: TaskId) {
    exists i, j :: 0 <= i < j < |queue| && queue[i] == u && queue[j] == t
  }

  // ----- the steps -----

  /** The map under its own lock: drop the dead entries. */
  function Retained(s: LockState): map<string, MutexId> {
    map h | h in s.locks && StrongCount(s, s.locks[h]) > 0 :: s.locks[h]
  }

  function PruneStep(s: LockState): LockState {
    s.(locks := Retained(s))
  }

  /** Upgrade the entry for `hash`, or put a new mutex in its place. */
  function AttachStep(s: LockState, t: TaskId, hash: string): LockState {
    if !At(s, t).Idle? then s
    else if hash in s.locks && StrongCount(s, s.locks[hash]) > 0
      then s.(users := s.users[t := Attached(hash, s.locks[hash])])
    else s.(locks := s.locks[hash := s.next], users := s.users[t := Attached(hash, s.next)], next := s.next + 1)
  }

  /** The task asks for its mutex. Between attaching and this, others may have asked first. */
  function JoinStep(s: LockState, t: TaskId): LockState {
    match At(s, t)
    case Attached(hash, m) => s.(users := s.users[t := Waiting(hash, m)], queue := s.queue + [t])
    case _ => s
  }

  /** The mutex is fair: it goes to the first in its queue, and only while nobody holds it. */
  ghost predicate MayEnter(s: LockState, t: TaskId) {
    && At(s, t).Waiting? && At(s, t).mutex !in s.locked
    && forall u :: Before(s.queue, u, t) ==> !Uses(At(s, u), At(s, t).mutex)
  }

  ghost function GrantStep(s: LockState, t: TaskId): LockState {
    if !MayEnter(s, t) then s
    else
      s.(users := s.users[t := Holding(At(s, t).hash, At(s, t).mutex)],
         locked := s.locked + {At(s, t).mutex},
         queue := Without(s.queue, t))
  }

  /** The guard, or the wait for it, is dropped. */
  function LeaveStep(s: LockState, t: TaskId): LockState {
    match At(s, t)
    case Idle => s
    case Attached(_, _) => s.(users := s.users - {t})
    case Waiting(_, _) => s.(users := s.users - {t}, queue := Without(s.queue, t))
    case Holding(_, m) => s.(users := s.users - {t}, locked := s.locked - {m})
  }

  datatype Event = Prune | Attach(t: TaskId, hash: string) | Join(t: TaskId) | Grant(t: TaskId) | Leave(t: TaskId)

  ghost function Apply(s: LockState, e: Event): LockState {
    match e
    case Prune => PruneStep(s)
    case Attach(t, hash) => AttachStep(s, t, hash)
    case Join(t) => JoinStep(s, t)
    case Grant(t) => GrantStep(s, t)
    case Leave(t) => LeaveStep(s, t)
  }

  ghost function Reach(events: seq<Event>): LockState {
    if events == [] then UNLOCKED else Apply(Reach(events[..|events| - 1]), events[|events| - 1])
  }

  // ----- the invariant -----

  /** Everyone interested in a hash shares the one mutex its entry points to. */
  ghost predicate Shared(s: LockState) {
    forall t :: !At(s, t).Idle? ==> At(s, t).hash in s.locks && s.locks[At(s, t).hash] == At(s, t).mutex
  }

  /** No two hashes share a mutex, and no mutex is allocated twice. */
  ghost predicate Separate(s: LockState) {
    && (forall h :: h in s.locks ==> s.locks[h] < s.next)
    && (forall h, g :: h in s.locks && g in s.locks && s.locks[h] == s.locks[g] ==> h == g)
  }

  /** A mutex is locked exactly while one task holds it. */
  ghost predicate Exclusive(s: LockState) {
    && (forall m :: m in s.locked <==> exists t :: At(s, t).Holding? && At(s, t).mutex == m)
    && (forall t, u :: At(s, t).Holding? && At(s, u).Holding? && At(s, t).mutex == At(s, u).mutex ==> t == u)
  }

  /** The queue lists each waiting task once, and nobody else. */
  ghost predicate Lined(s: LockState) {
    && (forall t :: t in s.queue <==> At(s, t).Waiting?)
    && (forall i, j :: 0 <= i < j < |s.queue| ==> s.queue[i] != s.queue[j])
  }

  ghost predicate Coherent(s: LockState) {
    Shared(s) && Separate(s) && Exclusive(s) && Lined(s)
  }

  lemma {:induction false} WithoutKeepsOrder(queue: seq<TaskId>, t: TaskId)
    ensures forall u :: u in Without(queue, t) <==> u in queue && u != t
    ensures forall u, v :: Before(Without(queue, t), u, v) <==> Before(queue, u, v) && u != t && v != t
  {
    if queue != [] {
      var rest := queue[1..];
      WithoutKeepsOrder(rest, t);
      forall u, v ensures Before(Without(queue, t), u, v) <==> Before(queue, u, v) && u != t && v != t {
        BeforeCons(queue[0], rest, u, v);
        BeforeCons(queue[0], Without(rest, t), u, v);
        assert queue == [queue[0]] + rest;
      }
    }
  }

  lemma BeforeCons(first: TaskId, rest: seq<TaskId>, u: TaskId, v: TaskId)
    ensures Before([first] + rest, u, v) <==> Before(rest, u, v) || (u == first && v in rest)
  {
    var all := [first] + rest;
    if Before(rest, u, v) {
      var i, j :| 0 <= i < j < |rest| && rest[i] == u && rest[j] == v;
      assert all[i + 1] == u && all[j + 1] == v;
    }
    if u == first && v in rest {
      var j :| 0 <= j < |rest| && rest[j] == v;
      assert all[0] == u && all[j + 1] == v;
    }
    if Before(all, u, v) {
      var i, j :| 0 <= i < j < |all| && all[i] == u && all[j] == v;
      assert rest[j - 1] == v && (i > 0 ==> rest[i - 1] == u);
    }
  }

  lemma BeforeAppend(queue: seq<TaskId>, last: TaskId, u: TaskId, v: TaskId)
    ensures Before(queue + [last], u, v) <==> Before(queue, u, v) || (v == last && u in queue)
  {
    var all := queue + [last];
    if Before(queue, u, v) {
      var i, j :| 0 <= i < j < |queue| && queue[i] == u && queue[j] == v;
      assert all[i] == u && all[j] == v;
    }
    if v == last && u in queue {
      var i :| 0 <= i < |queue| && queue[i] == u;
      assert all[i] == u && all[|queue|] == v;
    }
    if Before(all, u, v) {
      var i, j :| 0 <= i < j < |all| && all[i] == u && all[j] == v;
      assert queue[i] == u && (j < |queue| ==> queue[j] == v);
    }
  }

  lemma DistinctByOrder(queue: seq<TaskId>)
    ensures (forall i, j :: 0 <= i < j < |queue| ==> queue[i] != queue[j]) <==> forall u :: !Before(queue, u, u)
  {
    if i, j :| 0 <= i < j < |queue| && queue[i] == queue[j] {
      assert Before(queue, queue[i], queue[i]);
    }
  }

  lemma CountsUsers(s: LockState, m: MutexId)
    ensures StrongCount(s, m) > 0 <==> exists t :: Uses(At(s, t), m)
  {
    var users := set t | t in s.users && Uses(s.users[t], m);
    if t: TaskId :| Uses(At(s, t), m) {
      assert t in users;
    }
    if users != {} {
      var t :| t in users;
      assert Uses(At(s, t), m);
    }
  }

  lemma PruneKeeps(s: LockState)
    requires Coherent(s)
    ensures Coherent(PruneStep(s))
  {
    hide StrongCount;
    var after := PruneStep(s);
    forall t ensures At(after, t) == At(s, t) {}
    forall t | !At(after, t).Idle?
      ensures At(after, t).hash in after.locks && after.locks[At(after, t).hash] == At(after, t).mutex
    {
      CountsUsers(s, At(s, t).mutex);
      assert Uses(At(s, t), At(s, t).mutex);
    }
  }

  lemma AttachKeeps(s: LockState, t: TaskId, hash: string)
    requires Coherent(s)
    ensures Coherent(AttachStep(s, t, hash))
  {
    hide StrongCount;
    var after := AttachStep(s, t, hash);
    forall u ensures At(after, u) == At(s, u)
      || (u == t && At(s, t).Idle? && At(after, t).Attached? && At(after, t).hash == hash) {}
    if At(s, t).Idle? && !(hash in s.locks && StrongCount(s, s.locks[hash]) > 0) {
      forall u | !At(s, u).Idle? ensures At(s, u).hash != hash {
        CountsUsers(s, At(s, u).mutex);
        assert Uses(At(s, u), At(s, u).mutex);
      }
    }
  }

  /** The holders, and hence exclusion, are not touched by a task that holds nothing before or after. */
  lemma HoldersStay(s: LockState, after: LockState, t: TaskId)
    requires Exclusive(s) && after.locked == s.locked && !At(s, t).Holding? && !At(after, t).Holding?
    requires forall u :: u != t ==> At(after, u) == At(s, u)
    ensures Exclusive(after)
  {
    forall m ensures m in after.locked <==> exists u :: At(after, u).Holding? && At(after, u).mutex == m {
      if u :| At(s, u).Holding? && At(s, u).mutex == m {
        assert At(after, u).Holding? && At(after, u).mutex == m;
      }
    }
  }

  lemma JoinKeeps(s: LockState, t: TaskId)
    requires Coherent(s)
    ensures Coherent(JoinStep(s, t))
  {
    var after := JoinStep(s, t);
    if At(s, t).Attached? {
      forall u ensures u != t ==> At(after, u) == At(s, u) {}
      HoldersStay(s, after, t);
    }
  }

  lemma DequeueKeeps(s: LockState, after: LockState, t: TaskId)
    requires Lined(s) && after.queue == Without(s.queue, t) && !At(after, t).Waiting?
    requires forall u :: u != t ==> At(after, u) == At(s, u)
    ensures Lined(after)
  {
    WithoutKeepsOrder(s.queue, t);
    DistinctByOrder(s.queue);
    DistinctByOrder(after.queue);
  }

  lemma GrantKeeps(s: LockState, t: TaskId)
    requires Coherent(s)
    ensures Coherent(GrantStep(s, t))
  {
    var after := GrantStep(s, t);
    if MayEnter(s, t) {
      hide MayEnter;
      assert At(after, t) == Holding(At(s, t).hash, At(s, t).mutex);
      forall u ensures u != t ==> At(after, u) == At(s, u) {}
      DequeueKeeps(s, after, t);
      hide Lined, Before;
      forall m ensures m in after.locked <==> exists u :: At(after, u).Holding? && At(after, u).mutex == m {
        if u :| At(s, u).Holding? && At(s, u).mutex == m {
          assert At(after, u).Holding? && At(after, u).mutex == m;
        }
      }
    }
  }

  lemma LeaveKeeps(s: LockState, t: TaskId)
    requires Coherent(s)
    ensures Coherent(LeaveStep(s, t))
  {
    var after := LeaveStep(s, t);
    forall u ensures At(after, u) == if u == t then Idle else At(s, u) {}
    if At(s, t).Waiting? {
      DequeueKeeps(s, after, t);
    }
    hide Before, Without;
    if At(s, t).Holding? {
      forall m ensures m in after.locked <==> exists u :: At(after, u).Holding? && At(after, u).mutex == m {
        if u :| At(s, u).Holding? && At(s, u).mutex == m && u != t {
          assert At(after, u).Holding? && At(after, u).mutex == m;
        }
      }
    } else {
      HoldersStay(s, after, t);
    }
  }

  lemma EventKeeps(s: LockState, e: Event)
    requires Coherent(s)
    ensures Coherent(Apply(s, e))
  {
    hide Coherent;
    match e {
      case Prune => PruneKeeps(s);
      case Attach(t, hash) => AttachKeeps(s, t, hash);
      case Join(t) => JoinKeeps(s, t);
      case Grant(t) => GrantKeeps(s, t);
      case Leave(t) => LeaveKeeps(s, t);
    }
  }

  lemma {:induction false} EveryRunIsCoherent(events: seq<Event>)
    ensures Coherent(Reach(events))
  {
    if events == [] {
      assert forall t :: At(UNLOCKED, t).Idle?;
    } else {
      hide Coherent, Apply;
      EveryRunIsCoherent(events[..|events| - 1]);
      EventKeeps(Reach(events[..|events| - 1]), events[|events| - 1]);
    }
  }

  // ----- what callers rely on -----

  predicate Holds(s: LockState, t: TaskId, hash: string) {
    At(s, t).Holding? && At(s, t).hash == hash
  }

  /** In every interleaving, at most one task holds the guard of a hash, although entries are dropped
      and re-created. */
  lemma AtMostOneHolder(events: seq<Event>, hash: string, t: TaskId, u: TaskId)
    requires Holds(Reach(events), t, hash) && Holds(Reach(events), u, hash)
    ensures t == u
  {
    EveryRunIsCoherent(events);
  }

  /** The holder of a task's hash, and those who began to wait for it earlier. */
  ghost predicate AheadOf(s: LockState, u: TaskId, t: TaskId) {
    && At(s, t).Waiting?
    && (Holds(s, u, At(s, t).hash) || (At(s, u).Waiting? && At(s, u).hash == At(s, t).hash && Before(s.queue, u, t)))
  }

  lemma SameHashSameMutex(s: LockState, t: TaskId, u: TaskId)
    requires Coherent(s) && !At(s, t).Idle? && !At(s, u).Idle?
    ensures At(s, t).hash == At(s, u).hash <==> At(s, t).mutex == At(s, u).mutex
  {
  }

  lemma MayEnterWhenNobodyAhead(s: LockState, t: TaskId)
    requires Coherent(s) && At(s, t).Waiting?
    ensures MayEnter(s, t) <==> forall u :: !AheadOf(s, u, t)
  {
    forall u | !At(s, u).Idle? ensures At(s, t).hash == At(s, u).hash <==> Uses(At(s, u), At(s, t).mutex) {
      SameHashSameMutex(s, t, u);
    }
    if At(s, t).mutex in s.locked {
      var u :| At(s, u).Holding? && At(s, u).mutex == At(s, t).mutex;
      assert AheadOf(s, u, t);
    }
    forall u | Before(s.queue, u, t) ensures AheadOf(s, u, t) <==> Uses(At(s, u), At(s, t).mutex) {
      assert At(s, u).Waiting?;
    }
    forall u | AheadOf(s, u, t) ensures !MayEnter(s, t) {
      assert At(s, u).Holding? ==> At(s, u).mutex in s.locked;
    }
  }

  /** A waiter is granted the guard exactly when nobody holds its own hash and nobody began to wait
      for it earlier: holders of other hashes, and leftovers of earlier mutexes, never block it. */
  lemma GrantedExactlyInTurn(events: seq<Event>, t: TaskId, hash: string)
    requires var s := Reach(events); At(s, t).Waiting? && At(s, t).hash == hash
    ensures var s := Reach(events); Holds(GrantStep(s, t), t, hash) <==> forall u :: !AheadOf(s, u, t)
  {
    var s := Reach(events);
    EveryRunIsCoherent(events);
    MayEnterWhenNobodyAhead(s, t);
    hide MayEnter, AheadOf;
  }

  /** While a task waits, nobody gets ahead of it who was not ahead of it before, and whoever is
      granted the guard of its hash was ahead of it. */
  lemma NobodyOvertakes(s: LockState, e: Event, t: TaskId, u: TaskId)
    requires Coherent(s) && At(s, t).Waiting? && At(Apply(s, e), t).Waiting? && AheadOf(Apply(s, e), u, t)
    ensures AheadOf(s, u, t)
  {
    var after := Apply(s, e);
    assert At(after, t) == At(s, t);
    hide StrongCount, Without, Before, Retained;
    match e {
      case Prune =>
      case Attach(v, hash) =>
      case Join(v) => BeforeAppend(s.queue, v, u, t);
      case Grant(v) => GrantOvertakesNobody(s, v, t, u);
      case Leave(v) =>
        WithoutKeepsOrder(s.queue, v);
        assert At(after, u) == if u == v then Idle else At(s, u);
    }
  }

  lemma GrantOvertakesNobody(s: LockState, v: TaskId, t: TaskId, u: TaskId)
    requires Coherent(s) && At(s, t).Waiting? && At(GrantStep(s, v), t).Waiting? && AheadOf(GrantStep(s, v), u, t)
    ensures AheadOf(s, u, t)
  {
    WithoutKeepsOrder(s.queue, v);
    if MayEnter(s, v) {
      if u == v {
        SameHashSameMutex(s, t, v);
        OneBeforeTheOther(s.queue, t, v);
      }
      hide Coherent, Before, Without;
      assert u != v ==> At(GrantStep(s, v), u) == At(s, u);
    }
  }

  lemma OneBeforeTheOther(queue: seq<TaskId>, t: TaskId, u: TaskId)
    requires t in queue && u in queue && t != u
    ensures Before(queue, t, u) || Before(queue, u, t)
  {
    var i :| 0 <= i < |queue| && queue[i] == t;
    var j :| 0 <= j < |queue| && queue[j] == u;
  }

  ghost predicate WaitsThroughout(before: seq<Event>, more: seq<Event>, t: TaskId) {
    forall i :: 0 <= i <= |more| ==> At(Reach(before + more[..i]), t).Waiting?
  }

  /** First come, first served: however long a task waits, only those who were ahead of it when it
      began to wait can ever be ahead of it, so only they can be served before it. */
  lemma {:induction false} FirstComeFirstServed(before: seq<Event>, more: seq<Event>, t: TaskId, u: TaskId)
    requires WaitsThroughout(before, more, t) && AheadOf(Reach(before + more), u, t)
    ensures AheadOf(Reach(before), u, t)
    decreases |more|
  {
    if more == [] {
      assert before + more == before;
    } else {
      hide AheadOf, Coherent, Apply, At;
      var n := |more| - 1;
      var events := before + more[..n];
      assert (before + more)[..|before + more| - 1] == events && (before + more)[|before + more| - 1] == more[n];
      EveryRunIsCoherent(events);
      assert more[..|more|] == more;
      NobodyOvertakes(Reach(events), more[n], t, u);
      forall i | 0 <= i <= n ensures At(Reach(before + more[..n][..i]), t).Waiting? {
        assert more[..n][..i] == more[..i];
      }
      FirstComeFirstServed(before, more[..n], t, u);
    }
  }

  /** Seen from outside, the lock map is a table of holders: granting adds one, in turn, leaving
      removes it, and nothing else changes it. */
  lemma RefinesHolderTable(events: seq<Event>, e: Event, u: TaskId, hash: string)
    ensures var s, after := Reach(events), Apply(Reach(events), e);
            Holds(after, u, hash) <==>
            if e.Grant? && e.t == u then Holds(s, u, hash)
              || (At(s, u).Waiting? && At(s, u).hash == hash && forall v :: !AheadOf(s, v, u))
            else if e.Leave? && e.t == u then false
            else Holds(s, u, hash)
  {
    var s, after := Reach(events), Apply(Reach(events), e);
    hide StrongCount, AheadOf;
    if e.Grant? && e.t == u {
      if At(s, u).Waiting? {
        GrantedExactlyInTurn(events, u, At(s, u).hash);
      }
    } else {
      assert At(after, u) == At(s, u) || (e.Leave? && e.t == u) || (At(s, u).Idle? && At(after, u).Attached?)
             || (At(s, u).Attached? && At(after, u).Waiting?);
    }
  }

  // ----- the object -----

  /** Some task has the mutex in hand, waits for it, or holds it. */
  ghost predicate InUse(s: LockState, m: MutexId) {
    exists t :: t in s.users && !s.users[t].Idle? && s.users[t].mutex == m
  }

  lemma CountedIsUsed(s: LockState)
    ensures forall m :: StrongCount(s, m) > 0 <==> InUse(s, m)
  {
    forall m ensures StrongCount(s, m) > 0 <==> InUse(s, m) {
      var users := set t | t in s.users && Uses(s.users[t], m);
      if InUse(s, m) {
        var t :| t in s.users && !s.users[t].Idle? && s.users[t].mutex == m;
        assert t in users;
      }
      if |users| > 0 {
        var t :| t in users;
      }
    }
  }

  class BlobMutationLocks {
    var state: LockState

    constructor ()
      ensures state == UNLOCKED
    {
      state := UNLOCKED;
    }

    /** The part of `lock` that runs under the map's own mutex. The queue of the returned mutex comes next. */
    method Attach(t: TaskId, sha256: string) returns (lock: MutexId)
      requires At(state, t).Idle?
      modifies this
      ensures state == AttachStep(PruneStep(old(state)), t, sha256)
      ensures At(state, t) == Attached(sha256, lock)
      ensures lock == if sha256 in old(state).locks && InUse(old(state), old(state).locks[sha256])
                      then old(state).locks[sha256] else old(state).next
      ensures forall h :: h in state.locks <==>
                h == sha256 || (h in old(state).locks && InUse(old(state), old(state).locks[h]))
      ensures state.locks[sha256] == lock
              && forall h :: h in state.locks && h != sha256 ==> state.locks[h] == old(state).locks[h]
      ensures state.users == old(state).users[t := Attached(sha256, lock)]
      ensures state.locked == old(state).locked && state.queue == old(state).queue
    {
      Retain();
      CountedIsUsed(old(state));
      if sha256 in state.locks && StrongCount(state, state.locks[sha256]) > 0 {
        lock := state.locks[sha256];
      } else {
        lock := state.next;
        state := state.(locks := state.locks[sha256 := lock], next := lock + 1);
      }
      state := state.(users := state.users[t := Attached(sha256, lock)]);
    }

    method Retain()
      modifies this
      ensures state == PruneStep(old(state))
      ensures forall h :: h in state.locks <==> h in old(state).locks && InUse(old(state), old(state).locks[h])
      ensures forall h :: h in state.locks ==> state.locks[h] == old(state).locks[h]
      ensures state == old(state).(locks := state.locks)
    {
      CountedIsUsed(state);
      var entries := state.locks;
      var left := entries.Keys;
      while left != {}
        invariant left <= entries.Keys
        invariant state == old(state).(locks := state.locks)
        invariant forall h ::
                    h in state.locks <==> h in entries && (h in left || StrongCount(old(state), entries[h]) > 0)
        invariant forall h :: h in state.locks ==> state.locks[h] == entries[h]
        decreases left
      {
        var h :| h in left;
        if StrongCount(state, entries[h]) == 0 {
          state := state.(locks := state.locks - {h});
        }
        left := left - {h};
      }
      assert state.locks == Retained(old(state));
    }
  }
}

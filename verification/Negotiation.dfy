/** Electing one leader per key for an upstream lookup, and retiring its entry by pointer identity. */
module Negotiation {
  import opened Prelude

  type TaskId = nat

  /** The identity of one shared negotiation object. */
  type NegotiationId = nat

  datatype Phase = Pending | Ready | Failed

  /** A leader's guard: armed, or already past sending the outcome and about to remove the entry. It
      stays armed for its destructor until the removal is through. */
  datatype Guard = Armed(n: NegotiationId) | Sent(n: NegotiationId)

  datatype Negotiation = Negotiation(key: string, leader: TaskId, phase: Phase)

  datatype State = State(
    entries: map<string, NegotiationId>,
    all: seq<Negotiation>,                 // every object ever created, by identity
    guards: map<TaskId, Guard>,
    removals: set<NegotiationId>)          // spawned by destructors, not yet run

  datatype Claim = Leader(n: NegotiationId) | Follower(n: NegotiationId)

  const IDLE := State(map[], [], map[], {})

  function PhaseAt(s: State, n: NegotiationId): Phase {
    if n < |s.all| then s.all[n].phase else Failed
  }

  // ----- steps -----

  /** `claim_upstream_negotiation`, under the map's write lock. */
  function ClaimStep(s: State, t: TaskId, key: string): (State, Claim) {
    if key in s.entries && PhaseAt(s, s.entries[key]) != Failed then (s, Follower(s.entries[key]))
    else
      var n := |s.all|;
      (s.(entries := s.entries[key := n], all := s.all + [Negotiation(key, t, Pending)],
          guards := s.guards[t := Armed(n)]), Leader(n))
  }

  function WithPhase(s: State, n: NegotiationId, phase: Phase): State {
    if n < |s.all| then s.(all := s.all[n := s.all[n].(phase := phase)]) else s
  }

  /** `finish`, up to its await. */
  function SendStep(s: State, t: TaskId, phase: Phase): State {
    if t in s.guards && s.guards[t].Armed? && phase != Pending
    then WithPhase(s, s.guards[t].n, phase).(guards := s.guards[t := Sent(s.guards[t].n)])
    else s
  }

  /** `remove_negotiation`: the entry goes only if it still is this very negotiation. */
  function RemoveEntry(s: State, n: NegotiationId): State {
    if n < |s.all| && s.all[n].key in s.entries && s.entries[s.all[n].key] == n
      then s.(entries := s.entries - {s.all[n].key}) else s
  }

  function FinishStep(s: State, t: TaskId): State {
    if t in s.guards && s.guards[t].Sent? then RemoveEntry(s, s.guards[t].n).(guards := s.guards - {t}) else s
  }

  /** The guard is dropped, before `finish` or in the middle of it. */
  function DropStep(s: State, t: TaskId): State {
    if t in s.guards then
      var n := s.guards[t].n;
      WithPhase(s, n, Failed).(guards := s.guards - {t}, removals := s.removals + {n})
    else s
  }

  function SpawnedStep(s: State, n: NegotiationId): State {
    if n in s.removals then RemoveEntry(s, n).(removals := s.removals - {n}) else s
  }

  datatype Event =
    | Ask(t: TaskId, key: string)
    | Send(t: TaskId, phase: Phase)
    | Finish(t: TaskId)
    | Drop(t: TaskId)
    | Spawned(n: NegotiationId)

  function Apply(s: State, e: Event): State {
    match e
    case Ask(t, key) => if t in s.guards then s else ClaimStep(s, t, key).0
    case Send(t, phase) => SendStep(s, t, phase)
    case Finish(t) => FinishStep(s, t)
    case Drop(t) => DropStep(s, t)
    case Spawned(n) => SpawnedStep(s, n)
  }

  function Run(events: seq<Event>): State {
    if events == [] then IDLE else Apply(Run(events[..|events| - 1]), events[|events| - 1])
  }

  // ----- the invariant -----

  ghost predicate EntryOk(s: State, key: string) {
    key in s.entries ==>
      var n := s.entries[key];
      && n < |s.all| && s.all[n].key == key
      && (s.all[n].phase != Pending ==> n in s.removals || GuardOf(s, n) == Some(Sent(n)))
  }

  function GuardOf(s: State, n: NegotiationId): Option<Guard>
    requires n < |s.all|
  {
    if s.all[n].leader in s.guards then Some(s.guards[s.all[n].leader]) else None
  }

  ghost predicate NegotiationOk(s: State, n: NegotiationId) {
    n < |s.all| && s.all[n].phase == Pending ==>
      s.all[n].key in s.entries && s.entries[s.all[n].key] == n && GuardOf(s, n) == Some(Armed(n))
  }

  ghost predicate GuardOk(s: State, t: TaskId) {
    t in s.guards ==>
      && s.guards[t].n < |s.all| && s.all[s.guards[t].n].leader == t
      && (s.guards[t].Armed? <==> s.all[s.guards[t].n].phase == Pending)
  }

  ghost predicate Inv(s: State) {
    && (forall key :: EntryOk(s, key)) && (forall n :: NegotiationOk(s, n)) && (forall t :: GuardOk(s, t))
    && (forall n :: n in s.removals ==> n < |s.all| && s.all[n].phase == Failed)
  }

  lemma StepIsSound(s: State, e: Event)
    requires Inv(s)
    ensures Inv(Apply(s, e))
  {
    match e {
      case Ask(t, key) => AskIsSound(s, t, key);
      case Send(t, phase) => SendIsSound(s, t, phase);
      case Finish(t) => FinishIsSound(s, t);
      case Drop(t) => DropIsSound(s, t);
      case Spawned(n) => SpawnedIsSound(s, n);
    }
  }

  lemma AskIsSound(s: State, t: TaskId, key: string)
    requires Inv(s)
    ensures Inv(Apply(s, Ask(t, key)))
  {
    var s' := Apply(s, Ask(t, key));
    if s' != s {
      assert EntryOk(s, key) && GuardOk(s, t);
      forall n ensures NegotiationOk(s', n) {
        assert NegotiationOk(s, n);
      }
      forall k ensures EntryOk(s', k) {
        assert EntryOk(s, k);
      }
      forall u ensures GuardOk(s', u) {
        assert GuardOk(s, u);
      }
    }
  }

  lemma SendIsSound(s: State, t: TaskId, phase: Phase)
    requires Inv(s)
    ensures Inv(SendStep(s, t, phase))
  {
    var s' := SendStep(s, t, phase);
    assert GuardOk(s, t);
    forall n ensures NegotiationOk(s', n) {
      assert NegotiationOk(s, n);
    }
    forall k ensures EntryOk(s', k) {
      assert EntryOk(s, k);
    }
    forall u ensures GuardOk(s', u) {
      assert GuardOk(s, u);
    }
  }

  lemma FinishIsSound(s: State, t: TaskId)
    requires Inv(s)
    ensures Inv(FinishStep(s, t))
  {
    var s' := FinishStep(s, t);
    assert GuardOk(s, t);
    forall n ensures NegotiationOk(s', n) {
      assert NegotiationOk(s, n);
    }
    forall k ensures EntryOk(s', k) {
      assert EntryOk(s, k);
    }
    forall u ensures GuardOk(s', u) {
      assert GuardOk(s, u);
    }
  }

  lemma DropIsSound(s: State, t: TaskId)
    requires Inv(s)
    ensures Inv(DropStep(s, t))
  {
    var s' := DropStep(s, t);
    assert GuardOk(s, t);
    forall n ensures NegotiationOk(s', n) {
      assert NegotiationOk(s, n);
    }
    forall k ensures EntryOk(s', k) {
      assert EntryOk(s, k);
    }
    forall u ensures GuardOk(s', u) {
      assert GuardOk(s, u);
    }
  }

  lemma SpawnedIsSound(s: State, n: NegotiationId)
    requires Inv(s)
    ensures Inv(SpawnedStep(s, n))
  {
    var s' := SpawnedStep(s, n);
    forall m ensures NegotiationOk(s', m) {
      assert NegotiationOk(s, m);
    }
    forall k ensures EntryOk(s', k) {
      assert EntryOk(s, k);
    }
    forall u ensures GuardOk(s', u) {
      assert GuardOk(s, u);
    }
  }

  lemma {:induction false} EveryRunIsSound(events: seq<Event>)
    ensures Inv(Run(events))
  {
    if events != [] {
      hide Inv, Apply;
      EveryRunIsSound(events[..|events| - 1]);
      StepIsSound(Run(events[..|events| - 1]), events[|events| - 1]);
    }
  }

  // ----- what followers rely on -----

  /** At most one negotiation per key is pending; it is the one the map hands out, and its leader's
      guard is alive, so somebody will announce an outcome. */
  lemma OnePendingPerKey(events: seq<Event>, m: NegotiationId, n: NegotiationId)
    ensures var s := Run(events);
            m < |s.all| && n < |s.all| && s.all[m].phase == Pending && s.all[n].phase == Pending
              && s.all[m].key == s.all[n].key ==>
              && m == n && s.all[m].key in s.entries && s.entries[s.all[m].key] == m
              && s.all[m].leader in s.guards && s.guards[s.all[m].leader] == Armed(m)
  {
    EveryRunIsSound(events);
    assert NegotiationOk(Run(events), m) && NegotiationOk(Run(events), n);
    hide Run;
  }

  /** A claim makes its caller the leader exactly when no live negotiation is listed; otherwise it
      hands out the listed one. */
  lemma ClaimElectsOne(events: seq<Event>, t: TaskId, key: string)
    ensures var s := Run(events); var (s', claim) := ClaimStep(s, t, key);
            && (claim.Follower? <==> key in s.entries && PhaseAt(s, s.entries[key]) != Failed)
            && (claim.Follower? ==> s' == s && claim.n == s.entries[key])
            && (claim.Leader? ==> (forall n :: 0 <= n < |s.all| && s.all[n].key == key ==> s.all[n].phase != Pending)
                                  && key in s'.entries && s'.entries[key] == claim.n
                                  && s'.all[claim.n] == Negotiation(key, t, Pending))
  {
    var s := Run(events);
    EveryRunIsSound(events);
    hide Run;
    assert EntryOk(s, key);
    forall n | 0 <= n < |s.all| && s.all[n].key == key && !(key in s.entries && PhaseAt(s, s.entries[key]) != Failed)
      ensures s.all[n].phase != Pending
    {
      assert NegotiationOk(s, n);
    }
  }

  /** A phase never returns to pending, and what a negotiation is about never changes. */
  lemma NeverPendingAgain(events: seq<Event>, e: Event, n: NegotiationId)
    ensures var s, s' := Run(events), Apply(Run(events), e);
            n < |s.all| ==>
              && n < |s'.all| && s'.all[n].key == s.all[n].key
              && (s'.all[n].phase == Pending ==> s.all[n].phase == Pending)
  {
    hide Run;
  }

  /** A phase is what its own leader made it: the outcome it sent, or failure when its guard is dropped. */
  lemma PhaseMovesByLeader(s: State, e: Event, n: NegotiationId)
    requires Inv(s) && n < |s.all|
    ensures var s' := Apply(s, e);
            && n < |s'.all| && s'.all[n].leader == s.all[n].leader && s'.all[n].key == s.all[n].key
            && (s'.all[n].phase != s.all[n].phase ==>
                  && s.all[n].leader in s.guards && s.guards[s.all[n].leader].n == n
                  && ((s.all[n].phase == Pending && e == Send(s.all[n].leader, s'.all[n].phase))
                      || (s'.all[n].phase == Failed && e == Drop(s.all[n].leader))))
            && (e.Drop? && e.t in s.guards && s.guards[e.t].n == n ==> s'.all[n].phase == Failed)
            && (e.Send? && e.t in s.guards && s.guards[e.t] == Armed(n) && e.phase != Pending ==>
                  s'.all[n].phase == e.phase)
  {
    if !e.Spawned? {
      assert GuardOk(s, e.t);
    }
  }

  /** At event `i` the leader, holding the guard of this negotiation, sent this outcome, or, for a
      failure, let go of the guard. */
  ghost predicate CausedAt(events: seq<Event>, i: nat, n: NegotiationId, leader: TaskId, phase: Phase) {
    && i < |events| && leader in Run(events[..i]).guards && Run(events[..i]).guards[leader].n == n
    && (events[i] == Send(leader, phase) || (phase == Failed && events[i] == Drop(leader)))
  }

  /** In every run a negotiation that is no longer pending has its cause: its own leader sent that very
      outcome, or, for a failure, let go of its guard. */
  lemma {:induction false} OutcomeHasItsCause(events: seq<Event>, n: NegotiationId) returns (i: nat)
    requires n < |Run(events).all| && Run(events).all[n].phase != Pending
    ensures CausedAt(events, i, n, Run(events).all[n].leader, Run(events).all[n].phase)
  {
    i := |events| - 1;
    SomeEvent(events, n);
    var front, e := events[..i], events[i];
    assert front + [e] == events;
    RunOn(front, e);
    hide *;
    if n < |Run(front).all| {
      PhaseMovesByLeader(Run(front), e, n);
      var was, now := Run(front).all[n], Run(events).all[n];
      if was.phase == now.phase {
        i := OutcomeHasItsCause(front, n);
        CausedStays(front, e, i, n, now.leader, now.phase);
      } else {
        CausedNow(front, e, n, now.leader, now.phase);
      }
    } else {
      NewNegotiationsArePending(Run(front), e, n);
    }
  }

  lemma SomeEvent(events: seq<Event>, n: NegotiationId)
    requires n < |Run(events).all|
    ensures events != []
  {
  }

  lemma RunOn(front: seq<Event>, e: Event)
    ensures Run(front + [e]) == Apply(Run(front), e) && Inv(Run(front))
  {
    EveryRunIsSound(front);
    assert (front + [e])[..|front|] == front;
    hide Inv;
  }

  lemma CausedStays(front: seq<Event>, e: Event, i: nat, n: NegotiationId, leader: TaskId, phase: Phase)
    requires CausedAt(front, i, n, leader, phase)
    ensures CausedAt(front + [e], i, n, leader, phase)
  {
    hide Run;
    assert (front + [e])[..i] == front[..i];
  }

  lemma CausedNow(front: seq<Event>, e: Event, n: NegotiationId, leader: TaskId, phase: Phase)
    requires leader in Run(front).guards && Run(front).guards[leader].n == n
    requires e == Send(leader, phase) || (phase == Failed && e == Drop(leader))
    ensures CausedAt(front + [e], |front|, n, leader, phase)
  {
    hide Run;
    assert (front + [e])[..|front|] == front;
  }

  lemma NewNegotiationsArePending(s: State, e: Event, n: NegotiationId)
    requires |s.all| <= n < |Apply(s, e).all|
    ensures Apply(s, e).all[n].phase == Pending
  {
  }

  /** A late removal takes away its own entry or nothing: other keys, and a newer negotiation for the
      same key, stay listed. */
  lemma RemovalsTakeTheirOwn(events: seq<Event>, e: Event, key: string)
    ensures var s, s' := Run(events), Apply(Run(events), e);
            key in s.entries && (key !in s'.entries || s'.entries[key] != s.entries[key]) ==>
              || (e.Finish? && e.t in s.guards && s.guards[e.t] == Sent(s.entries[key]))
              || (e.Spawned? && e.n == s.entries[key])
              || (e.Ask? && e.key == key && PhaseAt(s, s.entries[key]) == Failed)
  {
    EveryRunIsSound(events);
    assert EntryOk(Run(events), key);
    hide Run;
  }

  lemma PendingIsGuarded(s: State, n: NegotiationId)
    requires Inv(s)
    ensures PhaseAt(s, n) == Pending ==> s.guards != map[]
  {
    assert NegotiationOk(s, n);
  }

  /** Nothing is forgotten: with no guard alive and no spawned removal outstanding, the map is empty. */
  lemma QuietMapIsEmpty(events: seq<Event>)
    ensures Run(events).guards == map[] && Run(events).removals == {} ==> Run(events).entries == map[]
  {
    var s := Run(events);
    EveryRunIsSound(events);
    hide Run;
    if s.guards == map[] && s.removals == {} {
      forall key ensures key !in s.entries {
        assert EntryOk(s, key);
        if key in s.entries {
          PendingIsGuarded(s, s.entries[key]);
        }
      }
      assert s.entries.Keys == {};
    }
  }

  // ----- the objects -----

  class Negotiations {
    var state: State

    constructor ()
      ensures state == IDLE
    {
      state := IDLE;
    }

    method ClaimUpstreamNegotiation(t: TaskId, key: string) returns (claim: Claim)
      requires key in state.entries ==> state.entries[key] < |state.all|
      modifies this
      ensures (state, claim) == ClaimStep(old(state), t, key)
      ensures claim.Follower? <==>
              key in old(state).entries && old(state).all[old(state).entries[key]].phase != Failed
      ensures claim.Follower? ==> state == old(state) && claim.n == old(state).entries[key]
      ensures claim.Leader? ==>
                && claim.n == |old(state).all| && state.all == old(state).all + [Negotiation(key, t, Pending)]
                && state.entries == old(state).entries[key := claim.n]
                && state.guards == old(state).guards[t := Armed(claim.n)] && state.removals == old(state).removals
    {
      if key in state.entries {
        var existing := state.entries[key];
        if state.all[existing].phase != Failed {
          return Follower(existing);
        }
        state := state.(entries := state.entries - {key});
      }
      var negotiation := |state.all|;
      state := state.(all := state.all + [Negotiation(key, t, Pending)]);
      state := state.(entries := state.entries[key := negotiation], guards := state.guards[t := Armed(negotiation)]);
      assert state.entries == old(state).entries[key := negotiation];
      return Leader(negotiation);
    }

    method RemoveNegotiation(n: NegotiationId)
      requires n < |state.all|
      modifies this
      ensures state == RemoveEntry(old(state), n)
      ensures state.all == old(state).all && state.guards == old(state).guards
              && state.removals == old(state).removals
      ensures forall key :: key in old(state).entries ==>
                && (key in state.entries <==> key != state.all[n].key || old(state).entries[key] != n)
                && (key in state.entries ==> state.entries[key] == old(state).entries[key])
      ensures state.entries.Keys <= old(state).entries.Keys
    {
      var key := state.all[n].key;
      if key in state.entries && state.entries[key] == n {
        state := state.(entries := state.entries - {key});
      }
    }

    /** `finish`: announce the outcome, then remove the entry and disarm. */
    method Finish(t: TaskId, phase: Phase)
      requires t in state.guards && state.guards[t].Armed? && state.guards[t].n < |state.all| && phase != Pending
      modifies this
      ensures state == FinishStep(SendStep(old(state), t, phase), t)
      ensures var n, was := old(state).guards[t].n, old(state).all;
              && |state.all| == |was| && state.all[n].phase == phase
              && state.all[n].key == was[n].key && state.all[n].leader == was[n].leader
              && (forall other :: 0 <= other < |was| && other != n ==> state.all[other] == was[other])
              && (forall key :: key in old(state).entries ==>
                    && (key in state.entries <==> key != was[n].key || old(state).entries[key] != n)
                    && (key in state.entries ==> state.entries[key] == old(state).entries[key]))
      ensures state.entries.Keys <= old(state).entries.Keys
      ensures state.guards == old(state).guards - {t} && state.removals == old(state).removals
    {
      var n := state.guards[t].n;
      state := state.(all := state.all[n := state.all[n].(phase := phase)], guards := state.guards[t := Sent(n)]);
      RemoveNegotiation(n);
      state := state.(guards := state.guards - {t});
    }

    /** The destructor of an armed guard: announce failure and leave the removal to a spawned task. */
    method Drop(t: TaskId)
      requires t in state.guards && state.guards[t].n < |state.all|
      modifies this
      ensures state == DropStep(old(state), t)
      ensures var n, was := old(state).guards[t].n, old(state).all;
              && |state.all| == |was| && state.all[n].phase == Failed
              && state.all[n].key == was[n].key && state.all[n].leader == was[n].leader
              && (forall other :: 0 <= other < |was| && other != n ==> state.all[other] == was[other])
              && state.removals == old(state).removals + {n}
      ensures state.entries == old(state).entries && state.guards == old(state).guards - {t}
    {
      var n := state.guards[t].n;
      state := state.(all := state.all[n := state.all[n].(phase := Failed)]);
      state := state.(guards := state.guards - {t}, removals := state.removals + {n});
    }
  }
}

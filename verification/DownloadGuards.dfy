/** Downloads that followers can attach to: the map of handles, and the guards that retire them. */
module DownloadGuards {
  import opened Prelude
  import opened TailFollower

  type TaskId = nat

  /** The identity of one shared download handle. */
  type HandleId = nat

  /** A guard in the hands of `run_download`: nothing announced, outcome announced, `finish` past its
      send. The destructor acts in all three. */
  datatype Guard = Armed(d: HandleId) | Announced(d: HandleId) | Sent(d: HandleId)

  datatype Handle = Handle(key: string, owner: TaskId, phase: Phase)

  datatype State = State(entries: map<string, HandleId>, all: seq<Handle>, guards: map<TaskId, Guard>,
                         removals: set<HandleId>)

  const IDLE := State(map[], [], map[], {})

  function PhaseAt(s: State, d: HandleId): Phase {
    if d < |s.all| then s.all[d].phase else Failed
  }

  function WithPhase(s: State, d: HandleId, phase: Phase): State {
    if d < |s.all| then s.(all := s.all[d := s.all[d].(phase := phase)]) else s
  }

  /** `prepare_download_state`: the handle is inserted over whatever the key was mapped to. */
  function PrepareStep(s: State, t: TaskId, key: string): State {
    if t in s.guards then s
    else s.(entries := s.entries[key := |s.all|], all := s.all + [Handle(key, t, Running)],
            guards := s.guards[t := Armed(|s.all|)])
  }

  /** `run_download` announces the outcome. */
  function AnnounceStep(s: State, t: TaskId, phase: Phase): State {
    if t in s.guards && s.guards[t].Armed? && phase != Running
    then WithPhase(s, s.guards[t].d, phase).(guards := s.guards[t := Announced(s.guards[t].d)])
    else s
  }

  /** `finish` sends the same outcome again. */
  function SendStep(s: State, t: TaskId): State {
    if t in s.guards && s.guards[t].Announced? then s.(guards := s.guards[t := Sent(s.guards[t].d)]) else s
  }

  function RemoveHandle(s: State, d: HandleId): State {
    if d < |s.all| && s.all[d].key in s.entries && s.entries[s.all[d].key] == d
      then s.(entries := s.entries - {s.all[d].key}) else s
  }

  function FinishStep(s: State, t: TaskId): State {
    if t in s.guards && s.guards[t].Sent? then RemoveHandle(s, s.guards[t].d).(guards := s.guards - {t}) else s
  }

  /** The destructor fails a download that is still running, and only that. */
  function DropStep(s: State, t: TaskId): State {
    if t in s.guards then
      var d := s.guards[t].d;
      (if PhaseAt(s, d) == Running then WithPhase(s, d, Failed) else s).(guards := s.guards - {t},
              removals := s.removals + {d})
    else s
  }

  function SpawnedStep(s: State, d: HandleId): State {
    if d in s.removals then RemoveHandle(s, d).(removals := s.removals - {d}) else s
  }

  datatype Event =
    | Prepare(t: TaskId, key: string) | Announce(t: TaskId, phase: Phase) | Send(t: TaskId) | Finish(t: TaskId)
    | Drop(t: TaskId) | Spawned(d: HandleId)

  function Apply(s: State, e: Event): State {
    match e
    case Prepare(t, key) => PrepareStep(s, t, key)
    case Announce(t, phase) => AnnounceStep(s, t, phase)
    case Send(t) => SendStep(s, t)
    case Finish(t) => FinishStep(s, t)
    case Drop(t) => DropStep(s, t)
    case Spawned(d) => SpawnedStep(s, d)
  }

  function Run(events: seq<Event>): State {
    if events == [] then IDLE else Apply(Run(events[..|events| - 1]), events[|events| - 1])
  }

  ghost predicate HandleOk(s: State, d: HandleId) {
    d < |s.all| && s.all[d].phase == Running ==> s.all[d].owner in s.guards && s.guards[s.all[d].owner] == Armed(d)
  }

  ghost predicate GuardOk(s: State, t: TaskId) {
    t in s.guards ==>
      s.guards[t].d < |s.all| && s.all[s.guards[t].d].owner == t
        && (s.guards[t].Armed? <==> s.all[s.guards[t].d].phase == Running)
  }

  /** A listed handle is the newest for its key, and somebody will remove it. */
  ghost predicate EntryOk(s: State, key: string) {
    key in s.entries ==>
      var d := s.entries[key];
      && d < |s.all| && s.all[d].key == key
      && (d in s.removals || (s.all[d].owner in s.guards && s.guards[s.all[d].owner].d == d))
      && forall later :: d < later < |s.all| ==> s.all[later].key != key
  }

  ghost predicate Inv(s: State) {
    (forall d :: HandleOk(s, d)) && (forall t :: GuardOk(s, t)) && (forall key :: EntryOk(s, key))
    && forall d :: d in s.removals ==> d < |s.all|
  }

  lemma HandlesKept(s: State, e: Event, d: HandleId)
    requires Inv(s)
    ensures HandleOk(Apply(s, e), d)
  {
    assert HandleOk(s, d);
    if !e.Spawned? {
      assert GuardOk(s, e.t);
    }
  }

  lemma GuardsKept(s: State, e: Event, t: TaskId)
    requires Inv(s)
    ensures GuardOk(Apply(s, e), t)
  {
    assert GuardOk(s, t);
    if !e.Spawned? {
      assert GuardOk(s, e.t);
    }
  }

  lemma EntriesKept(s: State, e: Event, key: string)
    requires Inv(s)
    ensures EntryOk(Apply(s, e), key)
  {
    assert EntryOk(s, key);
    if !e.Spawned? {
      assert GuardOk(s, e.t);
    }
  }

  lemma StepIsSound(s: State, e: Event)
    requires Inv(s)
    ensures Inv(Apply(s, e))
  {
    var s' := Apply(s, e);
    if e.Drop? {
      assert GuardOk(s, e.t);
    }
    assert forall d :: d in s'.removals ==> d < |s'.all|;
    hide Apply, HandleOk, GuardOk, EntryOk;
    forall d ensures HandleOk(s', d) {
      HandlesKept(s, e, d);
    }
    forall t ensures GuardOk(s', t) {
      GuardsKept(s, e, t);
    }
    forall key ensures EntryOk(s', key) {
      EntriesKept(s, e, key);
    }
  }

  lemma {:induction false} EveryRunIsSound(events: seq<Event>)
    ensures Inv(Run(events))
  {
    if events != [] {
      EveryRunIsSound(events[..|events| - 1]);
      hide Inv, Apply;
      StepIsSound(Run(events[..|events| - 1]), events[|events| - 1]);
    }
  }

  /** A download whose guard is gone is not running: however its task ended, followers are released. */
  lemma NoRunningWithoutGuard(events: seq<Event>, d: HandleId)
    ensures var s := Run(events);
            d < |s.all| && s.all[d].phase == Running ==>
                s.all[d].owner in s.guards && s.guards[s.all[d].owner] == Armed(d)
  {
    EveryRunIsSound(events);
    assert HandleOk(Run(events), d);
    hide Run;
  }

  /** A terminal phase never changes. */
  lemma TerminalPhasesStay(events: seq<Event>, e: Event, d: HandleId)
    ensures var s := Run(events);
            d < |s.all| && s.all[d].phase != Running ==> PhaseAt(Apply(s, e), d) == s.all[d].phase
  {
    EveryRunIsSound(events);
    var s := Run(events);
    hide Run;
    if e.Announce? {
      assert GuardOk(s, e.t);
    }
  }

  /** A phase moves only by its own task: from running to the outcome it announces, or to failed when
      its guard is dropped first. */
  lemma PhaseMovesByOwner(s: State, e: Event, d: HandleId)
    requires Inv(s) && d < |s.all|
    ensures var s' := Apply(s, e);
            && d < |s'.all| && s'.all[d].owner == s.all[d].owner && s'.all[d].key == s.all[d].key
            && (s'.all[d].phase != s.all[d].phase ==>
                  && s.all[d].phase == Running
                  && s.all[d].owner in s.guards && s.guards[s.all[d].owner] == Armed(d)
                  && (e == Event.Announce(s.all[d].owner, s'.all[d].phase)
                      || (e == Drop(s.all[d].owner) && s'.all[d].phase == Failed)))
  {
    if !e.Spawned? {
      assert GuardOk(s, e.t);
    }
  }

  /** A drop fails the download that is still running under the dropped guard, leaves a finished one as
      it is, and touches no other handle and no entry of the map. */
  lemma DropIsExact(s: State, t: TaskId)
    requires t in s.guards && s.guards[t].d < |s.all|
    ensures var d, s' := s.guards[t].d, DropStep(s, t);
            && |s'.all| == |s.all|
            && s'.all[d].phase == (if s.all[d].phase == Running then Failed else s.all[d].phase)
            && s'.all[d].key == s.all[d].key && s'.all[d].owner == s.all[d].owner
            && (forall other :: 0 <= other < |s.all| && other != d ==> s'.all[other] == s.all[other])
            && s'.entries == s.entries && s'.guards == s.guards - {t} && s'.removals == s.removals + {d}
  {
  }

  /** At event `i` the task holding the handle's armed guard announced this outcome, or, for a failure,
      let go of the guard. */
  ghost predicate CausedAt(events: seq<Event>, i: nat, d: HandleId, owner: TaskId, phase: Phase) {
    && i < |events| && owner in Run(events[..i]).guards && Run(events[..i]).guards[owner] == Armed(d)
    && (events[i] == Event.Announce(owner, phase) || (phase == Failed && events[i] == Drop(owner)))
  }

  /** In every run a handle that is no longer running has its cause: its own task announced that very
      outcome, or, for a failure, let go of its guard. Nobody else's doing completes a download. */
  lemma {:induction false} OutcomeHasItsCause(events: seq<Event>, d: HandleId) returns (i: nat)
    requires d < |Run(events).all| && Run(events).all[d].phase != Running
    ensures CausedAt(events, i, d, Run(events).all[d].owner, Run(events).all[d].phase)
  {
    i := |events| - 1;
    SomeEvent(events, d);
    var front, e := events[..i], events[i];
    assert front + [e] == events;
    RunOn(front, e);
    hide *;
    if d < |Run(front).all| {
      PhaseMovesByOwner(Run(front), e, d);
      var was, now := Run(front).all[d], Run(events).all[d];
      if was.phase == now.phase {
        i := OutcomeHasItsCause(front, d);
        CausedStays(front, e, i, d, now.owner, now.phase);
      } else {
        CausedNow(front, e, d, now.owner, now.phase);
      }
    } else {
      NewHandlesRun(Run(front), e, d);
    }
  }

  lemma SomeEvent(events: seq<Event>, d: HandleId)
    requires d < |Run(events).all|
    ensures events != []
  {
  }

  lemma RunOn(front: seq<Event>, e: Event)
    ensures Run(front + [e]) == Apply(Run(front), e) && Inv(Run(front))
  {
    EveryRunIsSound(front);
    assert (front + [e])[..|front|] == front;
    hide Inv;
  }

  lemma CausedStays(front: seq<Event>, e: Event, i: nat, d: HandleId, owner: TaskId, phase: Phase)
    requires CausedAt(front, i, d, owner, phase)
    ensures CausedAt(front + [e], i, d, owner, phase)
  {
    hide Run;
    assert (front + [e])[..i] == front[..i];
  }

  lemma CausedNow(front: seq<Event>, e: Event, d: HandleId, owner: TaskId, phase: Phase)
    requires owner in Run(front).guards && Run(front).guards[owner] == Armed(d)
    requires e == Event.Announce(owner, phase) || (phase == Failed && e == Drop(owner))
    ensures CausedAt(front + [e], |front|, d, owner, phase)
  {
    hide Run;
    assert (front + [e])[..|front|] == front;
  }

  lemma NewHandlesRun(s: State, e: Event, d: HandleId)
    requires |s.all| <= d < |Apply(s, e).all|
    ensures Apply(s, e).all[d].phase == Running
  {
  }

  /** A removal, however late, takes away the guard's own handle or nothing; a newer download under the
      same key stays listed until its own guard retires it. */
  lemma RemovalsTakeTheirOwn(events: seq<Event>, e: Event, key: string)
    ensures var s, s' := Run(events), Apply(Run(events), e);
            key in s.entries && (key !in s'.entries || s'.entries[key] != s.entries[key]) ==>
              || (e.Finish? && e.t in s.guards && s.guards[e.t] == Sent(s.entries[key]))
              || (e.Spawned? && e.d == s.entries[key])
              || (e.Prepare? && e.key == key)
  {
    EveryRunIsSound(events);
    assert EntryOk(Run(events), key);
    hide Run;
  }

  /** With no guard alive and no removal outstanding, no handle is listed. */
  lemma QuietMapIsEmpty(events: seq<Event>)
    ensures Run(events).guards == map[] && Run(events).removals == {} ==> Run(events).entries == map[]
  {
    var s := Run(events);
    EveryRunIsSound(events);
    hide Run;
    forall key ensures s.guards == map[] && s.removals == {} ==> key !in s.entries {
      assert EntryOk(s, key);
    }
    assert s.guards == map[] && s.removals == {} ==> s.entries.Keys == {};
  }

  // ----- the objects -----

  class Downloads {
    var state: State

    constructor ()
      ensures state == IDLE
    {
      state := IDLE;
    }

    method PrepareDownloadState(t: TaskId, key: string) returns (handle: HandleId)
      requires t !in state.guards
      modifies this
      ensures state == PrepareStep(old(state), t, key) && handle == |old(state).all|
      ensures state.all == old(state).all + [Handle(key, t, Running)]
      ensures state.entries == old(state).entries[key := handle] && state.removals == old(state).removals
      ensures state.guards == old(state).guards[t := Armed(handle)]
    {
      handle := |state.all|;
      state := state.(all := state.all + [Handle(key, t, Running)]);
      state := state.(entries := state.entries[key := handle]);
      state := state.(guards := state.guards[t := Armed(handle)]);
    }

    /** The destructor of an armed guard: a download still running has failed, one that has an outcome
        keeps it, and nothing else changes until the spawned removal runs. */
    method Drop(t: TaskId)
      requires t in state.guards && state.guards[t].d < |state.all|
      modifies this
      ensures state == DropStep(old(state), t)
      ensures var d, was := old(state).guards[t].d, old(state).all;
              && |state.all| == |was|
              && state.all[d].phase == (if was[d].phase == Running then Failed else was[d].phase)
              && state.all[d].key == was[d].key && state.all[d].owner == was[d].owner
              && (forall other :: 0 <= other < |was| && other != d ==> state.all[other] == was[other])
              && state.removals == old(state).removals + {d}
      ensures state.entries == old(state).entries && state.guards == old(state).guards - {t}
    {
      var d := state.guards[t].d;
      if state.all[d].phase == Running {
        state := state.(all := state.all[d := state.all[d].(phase := Failed)]);
      }
      state := state.(guards := state.guards - {t}, removals := state.removals + {d});
    }
  }
}

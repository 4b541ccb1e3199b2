/** The download writer and the tailing stream as they run, interleaved with each other at every await. */
module DownloadTail {
  import opened Prelude
  import opened TailFollower
  import RangeHeader

  predicate IsOf(e: Event, id: FollowerId) {
    !IsWriters(e) && e.id == id
  }

  /** Between two moments of the run, only the writer and other followers took steps. */
  ghost predicate OthersThan(before: seq<Event>, after: seq<Event>, id: FollowerId) {
    before <= after && forall i :: |before| <= i < |after| ==> !IsOf(after[i], id)
  }

  /** Between two moments of the run, only followers took steps. */
  ghost predicate FollowersOnly(before: seq<Event>, after: seq<Event>) {
    before <= after && forall i :: |before| <= i < |after| ==> !IsWriters(after[i])
  }

  ghost predicate SameFollower(w: World, w': World, id: FollowerId) {
    (id in w'.followers <==> id in w.followers) && (id in w.followers ==> w'.followers[id] == w.followers[id])
  }

  lemma {:induction false} OthersLeaveFollower(terms: Terms, before: seq<Event>, after: seq<Event>, id: FollowerId)
    requires OthersThan(before, after, id)
    ensures SameFollower(Run(terms, before), Run(terms, after), id)
    decreases |after|
  {
    if |after| == |before| {
      assert after == before;
    } else {
      var n := |after| - 1;
      assert before <= after[..n] && !IsOf(after[n], id);
      OthersLeaveFollower(terms, before, after[..n], id);
      OtherStep(Run(terms, after[..n]), terms, after[n], id);
      hide Apply;
    }
  }

  lemma OtherStep(w: World, terms: Terms, e: Event, id: FollowerId)
    requires !IsOf(e, id)
    ensures SameFollower(w, Apply(w, terms, e), id)
  {
  }

  lemma FollowerStepLeavesWriter(w: World, terms: Terms, e: Event)
    requires !IsWriters(e)
    ensures Apply(w, terms, e) == w.(followers := Apply(w, terms, e).followers)
  {
  }

  lemma {:induction false} FollowersLeaveWriter(terms: Terms, before: seq<Event>, after: seq<Event>)
    requires FollowersOnly(before, after)
    ensures Run(terms, after) == Run(terms, before).(followers := Run(terms, after).followers)
    decreases |after|
  {
    if |after| == |before| {
      assert after == before;
    } else {
      var n := |after| - 1;
      assert before <= after[..n] && !IsWriters(after[n]);
      FollowersLeaveWriter(terms, before, after[..n]);
      FollowerStepLeavesWriter(Run(terms, after[..n]), terms, after[n]);
      hide Apply;
    }
  }

  /** How many of the events are steps of follower `id`. */
  ghost function OwnSteps(events: seq<Event>, id: FollowerId): nat {
    if events == [] then 0
    else OwnSteps(events[..|events| - 1], id) + (if IsOf(events[|events| - 1], id) then 1 else 0)
  }

  lemma OneMoreStep(events: seq<Event>, e: Event, id: FollowerId)
    ensures OwnSteps(events + [e], id) == OwnSteps(events, id) + (if IsOf(e, id) then 1 else 0)
  {
    assert (events + [e])[..|events|] == events;
  }

  lemma {:induction false} OthersTakeNoSteps(before: seq<Event>, after: seq<Event>, id: FollowerId)
    requires OthersThan(before, after, id)
    ensures OwnSteps(after, id) == OwnSteps(before, id)
    decreases |after|
  {
    if |after| == |before| {
      assert after == before;
    } else {
      var n := |after| - 1;
      assert before <= after[..n] && !IsOf(after[n], id);
      OthersTakeNoSteps(before, after[..n], id);
    }
  }

  /** Why a follower that has delivered up to `position` may break off: its read failed, the download
      failed, or it is complete and shorter than the bound. */
  predicate MayBreak(readOk: bool, progress: Progress, position: nat, end: Option<nat>) {
    !readOk || progress.phase == Failed || (progress.phase == Complete && end.Some? && position < end.value)
  }

  /** While the channel is open or has news, a parked follower is not stranded: the error that a closed
      channel without news would cause never occurs. */
  lemma NeverStranded(terms: Terms, events: seq<Event>, id: FollowerId)
    ensures var w := Run(terms, events);
            id in w.followers && w.followers[id].state == Parked && w.followers[id].seen == w.version ==> !w.closed
  {
    EveryRunIsSound(terms, events);
    var w := Run(terms, events);
    hide Run;
    if id in w.followers {
      assert FollowerOk(w.followers[id], w);
    }
  }

  lemma TurnLeavesProgress(w: World, terms: Terms, id: FollowerId)
    ensures Apply(w, terms, Turn(id)) == w.(followers := Apply(w, terms, Turn(id)).followers)
    ensures id in w.followers && w.followers[id].state == Polling ==>
              id in Apply(w, terms, Turn(id)).followers
                && Apply(w, terms, Turn(id)).followers[id] == Turned(w.followers[id], w)
  {
    hide Turned;
  }

  class Download {
    const terms: Terms
    var file: Bytes
    var progress: Progress
    var version: nat
    var closed: bool
    ghost var history: seq<Event>

    ghost function World(): World
      reads this
    {
      Run(terms, history)
    }

    ghost predicate Valid()
      reads this
    {
      World().file == file && World().progress == progress && World().version == version && World().closed == closed
    }

    constructor (terms: Terms)
      ensures Valid() && history == [] && this.terms == terms
    {
      this.terms := terms;
      file, progress, version, closed, history := [], Progress(0, Running), 0, false, [];
    }

    /** An await of follower `id`: the writer and other followers may take steps. */
    method AwaitAsFollower(ghost id: FollowerId)
      requires Valid()
      modifies this
      ensures Valid() && OthersThan(old(history), history, id)
    {
    }

    /** An await of the writer: followers may take steps. */
    method AwaitAsWriter()
      requires Valid()
      modifies this`history
      ensures Valid() && FollowersOnly(old(history), history)
    {
    }

    ghost method Log(e: Event)
      requires Apply(World(), terms, e).file == file && Apply(World(), terms, e).progress == progress
      requires Apply(World(), terms, e).version == version && Apply(World(), terms, e).closed == closed
      modifies this`history
      ensures Valid() && history == old(history) + [e] && World() == Apply(old(World()), terms, e)
    {
      hide Run, Apply;
      RunExtends(terms, history, e);
      history := history + [e];
    }

    // ----- the writer -----

    method YieldAsWriter()
      requires Valid()
      modifies this`history
      ensures Valid() && old(history) <= history && World().writer == old(World()).writer
    {
      ghost var before := history;
      AwaitAsWriter();
      FollowersLeaveWriter(terms, before, history);
    }

    method GiveUp(partial: Bytes)
      requires Valid() && World().writer != Ended
      modifies this`file, this`progress, this`version, this`history
      ensures Valid() && old(history) <= history && World().writer == Ended
              && progress == old(progress).(phase := Failed)
      ensures file == old(file) + partial
    {
      file := file + partial;
      progress, version := progress.(phase := Failed), version + 1;
      Log(Fail(partial));
    }

    /** Append one part of the body, then announce it. */
    method AppendPart(part: Bytes, writeOk: bool, partial: Bytes) returns (ok: bool)
      requires Valid() && World().writer == Reading && |file| <= terms.maxSize && !Declines(terms)
      modifies this`file, this`progress, this`version, this`history
      ensures Valid() && old(history) <= history
      ensures ok <==> writeOk && |old(file)| + |part| <= terms.maxSize
      ensures ok ==> World().writer == Reading && progress == Progress(|file|, Running)
      ensures ok ==> file == old(file) + part && |file| <= terms.maxSize
      ensures !ok ==> World().writer == Ended && progress.phase == Failed
    {
      SoundWriter();
      ok := writeOk && |file| + |part| <= terms.maxSize;
      if !ok {
        GiveUp(if writeOk then [] else partial);
        return;
      }
      file := file + part;
      Log(Write(part));
      YieldAsWriter();
      progress, version := Progress(|file|, Running), version + 1;
      Log(Announce);
    }

    lemma SoundWriter()
      requires Valid()
      ensures WriterOk(World(), terms)
    {
      EveryRunIsSound(terms, history);
    }

    /** The body of `run_download` after the connection. `failedWrite` is the index of a part whose write
        fails, leaving `partial` in the file. The download completes exactly when the declared length is
        within the limit, every part arrives, is written and stays within it, the body meets its terms,
        and storage takes it. */
    method RunDownload(parts: seq<Bytes>, streamOk: bool, failedWrite: Option<nat>, partial: Bytes, acceptOk: bool)
      returns (phase: Phase)
      requires Valid() && history == []
      modifies this
      ensures Valid() && progress.phase == phase && (phase == Complete || phase == Failed)
      ensures phase == Complete <==>
              streamOk && !(failedWrite.Some? && failedWrite.value < |parts|) && acceptOk
              && |Flatten(parts)| <= terms.maxSize && terms.matches(Flatten(parts))
              && (terms.expectedLen.Some? ==> |Flatten(parts)| == terms.expectedLen.value)
      ensures phase == Complete ==> file == Flatten(parts) && progress.written == |file|
    {
      assert World() == FRESH;
      if Declines(terms) {
        GiveUp([]);
        return Failed;
      }
      assert parts[..0] == [] && Flatten(parts[..0]) == [];
      for i := 0 to |parts|
        invariant Valid() && World().writer == Reading && file == Flatten(parts[..i]) && |file| <= terms.maxSize
        invariant failedWrite.Some? ==> i <= failedWrite.value
        invariant progress == Progress(|file|, Running)
      {
        FlattenPart(parts, i);
        YieldAsWriter();
        var ok := AppendPart(parts[i], failedWrite != Some(i), partial);
        if !ok {
          return Failed;
        }
      }
      assert parts[..|parts|] == parts;
      YieldAsWriter();
      phase := Conclude(streamOk, acceptOk);
    }

    method Conclude(bodyOk: bool, acceptOk: bool) returns (phase: Phase)
      requires Valid() && World().writer == Reading && progress == Progress(|file|, Running)
      modifies this
      ensures Valid() && progress == Progress(|file|, phase) && file == old(file)
      ensures phase == if bodyOk && acceptOk && Meets(terms, file) then Complete else Failed
    {
      phase := Failed;
      assert file + [] == file;
      if !bodyOk {
        GiveUp([]);
        return;
      }
      if !Meets(terms, file) {
        progress, version := progress.(phase := Failed), version + 1;
        Log(EndOfBody);
        return;
      }
      Log(EndOfBody);
      YieldAsWriter();
      if !acceptOk {
        GiveUp([]);
        return;
      }
      phase := Complete;
      progress, version := progress.(phase := Complete), version + 1;
      Log(Accept);
    }

    // ----- a follower -----

    method YieldAsFollower(ghost id: FollowerId)
      requires Valid()
      modifies this
      ensures Valid() && old(history) <= history && OwnSteps(history, id) == OwnSteps(old(history), id)
      ensures (id in World().followers <==> id in old(World()).followers)
      ensures id in World().followers ==> World().followers[id] == old(World()).followers[id]
    {
      ghost var before := history;
      AwaitAsFollower(id);
      OthersLeaveFollower(terms, before, history, id);
      OthersTakeNoSteps(before, history, id);
    }

    /** The state machine's record of follower `id` is this. */
    ghost predicate Records(id: FollowerId, start: nat, end: Option<nat>, position: nat, seen: nat, emitted: Bytes,
                            state: FollowerState)
      reads this
    {
      id in World().followers && World().followers[id] == Follower(start, end, position, seen, emitted, state)
    }

    /** The tailing stream, observed for at most `turns` turns of its loop, of which `failedRead` may be
        one whose read fails. It is the follower of the state machine: it has taken a step in every turn
        it did not end before, and has produced what that follower has. What it has produced is always
        the file from `start` on; a clean end means the bound was reached, or, without a bound, that the
        download is complete and verified; and it breaks off only for the three causes. */
    method Tail(id: FollowerId, start: nat, end: Option<nat>, turns: nat, failedRead: Option<nat>)
      returns (emitted: Bytes, outcome: FollowerState)
      requires Valid() && id !in World().followers
      modifies this
      ensures Valid()
      ensures exists position, seen :: Records(id, start, end, position, seen, emitted, outcome)
      ensures outcome == Polling || outcome == Parked ==>
                OwnSteps(history, id) == OwnSteps(old(history), id) + 1 + turns
      ensures outcome == Broken ==>
                MayBreak(!(failedRead.Some? && failedRead.value < turns), progress, start + |emitted|, end)
      ensures emitted != [] ==> start + |emitted| <= |file| && emitted == file[start..start + |emitted|]
      ensures outcome == Clean && end.Some? && start <= end.value ==> start + |emitted| == end.value
      ensures outcome == Clean && end.None? ==>
                progress.phase == Complete && Meets(terms, file) && start + |emitted| >= |file|
    {
      var seen := Subscribe(id, start, end);
      var position := start;
      emitted, outcome := [], Polling;
      hide *;
      for turn := 0 to turns
        invariant Valid() && Records(id, start, end, position, seen, emitted, outcome)
        invariant OwnSteps(history, id) == OwnSteps(old(history), id) + 1 + turn
        invariant outcome == Polling || outcome == Parked
      {
        KeepsRecord(id);
        YieldAsFollower(id);
        KeepsRecord(id);
        if outcome == Parked {
          outcome := Wake(id, start, end, position, seen, emitted);
        } else {
          position, seen, emitted, outcome := TakeTurn(id, start, end, position, seen, emitted,
                                                       failedRead != Some(turn));
        }
        if outcome == Clean || outcome == Broken {
          WhatWasDelivered(id, start, end, position, seen, emitted, outcome);
          BreaksForCause(failedRead, turn, turns, progress, position, end);
          return;
        }
      }
      WhatWasDelivered(id, start, end, position, seen, emitted, outcome);
    }

    /** A record is a statement about the follower, and its field values are determined by it. */
    lemma KeepsRecord(id: FollowerId)
      ensures id in World().followers ==>
                var f := World().followers[id];
                forall start, end, position, seen, emitted, state ::
                  Records(id, start, end, position, seen, emitted, state)
                  <==> f == Follower(start, end, position, seen, emitted, state)
      ensures id !in World().followers ==>
                forall start, end, position, seen, emitted, state ::
                    !Records(id, start, end, position, seen, emitted, state)
    {
    }

    method Subscribe(id: FollowerId, start: nat, end: Option<nat>) returns (seen: nat)
      requires Valid() && id !in World().followers
      modifies this`history
      ensures Valid() && Records(id, start, end, start, seen, [], Polling)
      ensures OwnSteps(history, id) == OwnSteps(old(history), id) + 1
    {
      seen := version;
      OneMoreStep(history, Attach(id, start, end), id);
      Log(Attach(id, start, end));
    }

    method Wake(id: FollowerId, start: nat, end: Option<nat>, position: nat, seen: nat, emitted: Bytes)
      returns (state: FollowerState)
      requires Valid() && Records(id, start, end, position, seen, emitted, Parked)
      modifies this`history
      ensures Valid() && Records(id, start, end, position, seen, emitted, state)
              && (state == Polling || state == Parked)
      ensures OwnSteps(history, id) == OwnSteps(old(history), id) + 1
    {
      NeverStranded(terms, history, id);
      hide Run;
      state := if seen != version then Polling else if closed then Broken else Parked;
      OneMoreStep(history, TailFollower.Wake(id), id);
      Log(TailFollower.Wake(id));
    }

    /** One turn of the loop up to its next await, from a fresh look at the progress. */
    method LookAndRead(start: nat, end: Option<nat>, position: nat, before: nat, emitted: Bytes)
      returns (position': nat, emitted': Bytes, state: FollowerState)
      requires Valid()
      ensures Follower(start, end, position', version, emitted', state)
              == Turned(Follower(start, end, position, before, emitted, Polling), World())
      ensures state == Broken ==> MayBreak(true, progress, position', end)
    {
      SoundWriter();
      hide Run;
      position', emitted', state := position, emitted, Polling;
      var snapshot := progress;
      var available := if end.Some? then Min(end.value, snapshot.written) else snapshot.written;
      if position < available {
        var toRead := Min(CHUNK, available - position);
        emitted' := emitted + file[position..position + toRead];
        position' := position + toRead;
      } else if end.Some? && position >= end.value {
        state := Clean;
      } else {
        match snapshot.phase {
          case Running => state := Parked;
          case Complete => state := if end.Some? then Broken else Clean;
          case Failed => state := Broken;
        }
      }
    }

    method TakeTurn(id: FollowerId, start: nat, end: Option<nat>, position: nat, before: nat, emitted: Bytes,
                    readOk: bool)
      returns (position': nat, seen: nat, emitted': Bytes, state: FollowerState)
      requires Valid() && Records(id, start, end, position, before, emitted, Polling)
      modifies this`history
      ensures Valid() && Records(id, start, end, position', seen, emitted', state)
      ensures OwnSteps(history, id) == OwnSteps(old(history), id) + 1
      ensures state == Broken ==> MayBreak(readOk, progress, position', end)
    {
      hide Run, Turned;
      seen := version;
      if position < (if end.Some? then Min(end.value, progress.written) else progress.written) && !readOk {
        position', emitted', state := position, emitted, Broken;
        OneMoreStep(history, ReadFails(id), id);
        Log(ReadFails(id));
        return;
      }
      position', emitted', state := LookAndRead(start, end, position, before, emitted);
      OneMoreStep(history, Turn(id), id);
      TurnLeavesProgress(World(), terms, id);
      Log(Turn(id));
    }

    lemma BreaksForCause(failedRead: Option<nat>, turn: nat, turns: nat, progress: Progress, position: nat,
                         end: Option<nat>)
      requires turn < turns
      ensures MayBreak(failedRead != Some(turn), progress, position, end) ==>
                MayBreak(!(failedRead.Some? && failedRead.value < turns), progress, position, end)
    {
    }

    lemma WhatWasDelivered(id: FollowerId, start: nat, end: Option<nat>, position: nat, seen: nat, emitted: Bytes,
                           outcome: FollowerState)
      requires Valid() && Records(id, start, end, position, seen, emitted, outcome)
      ensures position == start + |emitted|
      ensures emitted != [] ==> start + |emitted| <= |file| && emitted == file[start..start + |emitted|]
      ensures outcome == Clean && end.Some? && start <= end.value ==> start + |emitted| == end.value
      ensures outcome == Clean && end.None? ==>
                progress.phase == Complete && Meets(terms, file) && start + |emitted| >= |file|
    {
      EveryRunIsSound(terms, history);
      assert FollowerOk(World().followers[id], World());
      hide Run, Meets;
    }
  }

  /** A range request answered from a download in progress: for any header that is granted `s..e`, a
      follower of `s` up to `e + 1` that ends cleanly has delivered exactly the announced
      Content-Length, and those are the bytes of the file in that range. */
  lemma GrantedRangeIsDelivered(terms: Terms, events: seq<Event>, id: FollowerId, header: string, total: u64, s: u64,
                                e: u64)
    requires RangeHeader.ParseRangeHeader(header, total) == RangeHeader.Satisfiable(s, e)
    ensures var w := Run(terms, events);
            id in w.followers && w.followers[id].start == s && w.followers[id].end == Some(e + 1)
              && w.followers[id].state == Clean ==>
              |w.followers[id].emitted| == e - s + 1 && e < |w.file| && w.followers[id].emitted == w.file[s..e + 1]
  {
    hide *;
    RangeHeader.GrantIsInside(header, total);
    BoundedEndIsExact(terms, events, id, s, e);
  }
}

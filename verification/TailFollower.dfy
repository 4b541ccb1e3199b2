/** A download in progress: one writer that appends to a file and announces what is readable, and any
    number of followers that tail the file. One event per await-to-await segment. */
module TailFollower {
  import opened Prelude

  type FollowerId = nat

  datatype Phase = Running | Complete | Failed

  datatype Progress = Progress(written: nat, phase: Phase)

  /** What the download is held to: the declared length, the size limit, and whether a body has the
      hash that was asked for. */
  datatype Terms = Terms(expectedLen: Option<nat>, maxSize: nat, matches: Bytes -> bool)

  datatype Writer =
    | Reading       // waiting for the next part of the body
    | Wrote         // written and flushed, not yet announced
    | Verified      // lengths and hash agree, storage is taking the file
    | Ended

  datatype FollowerState = Polling | Parked | Clean | Broken

  datatype Follower = Follower(start: nat, end: Option<nat>, position: nat, seen: nat, emitted: Bytes,
                               state: FollowerState)

  datatype World = World(
    file: Bytes, progress: Progress,
    version: nat,          // of the watch channel: every send moves it on
    closed: bool,          // the sending side is gone
    writer: Writer, followers: map<FollowerId, Follower>)

  const FRESH := World([], Progress(0, Running), 0, false, Reading, map[])

  const CHUNK := 65536

  // ----- the writer -----

  /** The download is given up; a failed write may have left part of its data in the file. */
  function FailStep(w: World, partial: Bytes): World {
    if w.writer == Ended then w
    else w.(file := w.file + partial, progress := w.progress.(phase := Failed), version := w.version + 1,
            writer := Ended)
  }

  /** A declared length over the limit is refused before anything is read. */
  predicate Declines(terms: Terms) {
    terms.expectedLen.Some? && terms.expectedLen.value > terms.maxSize
  }

  function WriteStep(w: World, terms: Terms, part: Bytes): World {
    if w.writer != Reading then w
    else if Declines(terms) || |w.file| + |part| > terms.maxSize then FailStep(w, [])
    else w.(file := w.file + part, writer := Wrote)
  }

  function AnnounceStep(w: World): World {
    if w.writer != Wrote then w
    else w.(progress := w.progress.(written := |w.file|), version := w.version + 1, writer := Reading)
  }

  predicate Meets(terms: Terms, body: Bytes) {
    (terms.expectedLen.Some? ==> terms.expectedLen.value == |body|) && terms.matches(body)
  }

  function EndOfBodyStep(w: World, terms: Terms): World {
    if w.writer != Reading then w
    else if Meets(terms, w.file) then w.(writer := Verified)
    else FailStep(w, [])
  }

  function AcceptStep(w: World): World {
    if w.writer != Verified then w
    else w.(progress := w.progress.(phase := Complete), version := w.version + 1, writer := Ended)
  }

  /** The guard's `finish` sends the phase that was already set. */
  function FinishStep(w: World): World {
    if w.writer != Ended then w else w.(version := w.version + 1)
  }

  function CloseStep(w: World): World {
    if w.writer != Ended then w else w.(closed := true)
  }

  // ----- followers -----

  function AttachStep(w: World, id: FollowerId, start: nat, end: Option<nat>): World {
    if id in w.followers then w
    else w.(followers := w.followers[id := Follower(start, end, start, w.version, [], Polling)])
  }

  function Available(end: Option<nat>, written: nat): nat {
    if end.Some? then Min(end.value, written) else written
  }

  /** One turn of the loop, from a fresh look at the progress to the next await. */
  function Turned(f: Follower, w: World): Follower {
    var available := Available(f.end, w.progress.written);
    var f := f.(seen := w.version);
    if f.position < available && available <= |w.file| then
      var n := Min(CHUNK, available - f.position);
      f.(emitted := f.emitted + w.file[f.position..f.position + n], position := f.position + n)
    else if f.end.Some? && f.position >= f.end.value then f.(state := Clean)
    else
      match w.progress.phase
      case Running => f.(state := Parked)
      case Complete => f.(state := if f.end.Some? then Broken else Clean)
      case Failed => f.(state := Broken)
  }

  function TurnStep(w: World, id: FollowerId): World {
    if id in w.followers && w.followers[id].state == Polling
      then w.(followers := w.followers[id := Turned(w.followers[id], w)]) else w
  }

  /** A turn whose `read_exact` fails ends the stream with an error. */
  function ReadFailsStep(w: World, id: FollowerId): World {
    if id in w.followers && w.followers[id].state == Polling
       && w.followers[id].position < Available(w.followers[id].end, w.progress.written)
    then w.(followers := w.followers[id := w.followers[id].(seen := w.version, state := Broken)])
    else w
  }

  /** `changed()` resolves when the channel has moved on, and fails when it cannot any more. */
  function WakeStep(w: World, id: FollowerId): World {
    if id in w.followers && w.followers[id].state == Parked then
      var f := w.followers[id];
      if f.seen != w.version then w.(followers := w.followers[id := f.(state := Polling)])
      else if w.closed then w.(followers := w.followers[id := f.(state := Broken)])
      else w
    else w
  }

  datatype Event =
    | Fail(partial: Bytes) | Write(part: Bytes) | Announce | EndOfBody | Accept | Finish | Close
    | Attach(id: FollowerId, start: nat, end: Option<nat>)
    | Turn(id: FollowerId) | ReadFails(id: FollowerId) | Wake(id: FollowerId)

  function Apply(w: World, terms: Terms, e: Event): World {
    match e
    case Fail(partial) => FailStep(w, partial)
    case Write(part) => WriteStep(w, terms, part)
    case Announce => AnnounceStep(w)
    case EndOfBody => EndOfBodyStep(w, terms)
    case Accept => AcceptStep(w)
    case Finish => FinishStep(w)
    case Close => CloseStep(w)
    case Attach(id, start, end) => AttachStep(w, id, start, end)
    case Turn(id) => TurnStep(w, id)
    case ReadFails(id) => ReadFailsStep(w, id)
    case Wake(id) => WakeStep(w, id)
  }

  function Run(terms: Terms, events: seq<Event>): World {
    if events == [] then FRESH else Apply(Run(terms, events[..|events| - 1]), terms, events[|events| - 1])
  }

  // ----- the invariant -----

  ghost predicate WriterOk(w: World, terms: Terms) {
    && w.progress.written <= |w.file| && w.progress.written <= terms.maxSize
    && (w.writer != Ended ==> |w.file| <= terms.maxSize)
    && (Declines(terms) ==> w.progress.written == 0 && w.writer != Wrote)
    && (w.writer == Reading || w.writer == Verified ==> w.progress.written == |w.file|)
    && (w.progress.phase == Running <==> w.writer != Ended)
    && (w.writer == Verified || w.progress.phase == Complete ==> Meets(terms, w.file) && w.progress.written == |w.file|)
    && (w.closed ==> w.writer == Ended)
  }

  /** The follower has delivered exactly the file from its start to its position, and never looked
      past what was announced. */
  ghost predicate Delivered(f: Follower, w: World) {
    || (f.position == f.start && f.emitted == [])
    || (f.start <= f.position <= w.progress.written <= |w.file| && f.emitted == w.file[f.start..f.position])
  }

  ghost predicate FollowerOk(f: Follower, w: World) {
    && Delivered(f, w) && f.seen <= w.version
    && (f.end.Some? && f.position > f.end.value ==> f.position == f.start)
    && (f.state == Clean ==>
          if f.end.Some? then f.position >= f.end.value
          else w.progress.phase == Complete && f.position >= w.progress.written)
    && (f.state == Parked && f.seen == w.version ==>
          w.progress.phase == Running && f.position >= Available(f.end, w.progress.written)
            && (f.end.Some? ==> f.position < f.end.value))
  }

  ghost predicate Inv(w: World, terms: Terms) {
    WriterOk(w, terms) && forall id :: id in w.followers ==> FollowerOk(w.followers[id], w)
  }

  /** What the writer does to everyone else: what was announced stays readable and unchanged. */
  ghost predicate Extends(w: World, w': World) {
    && w.file <= w'.file && w.progress.written <= |w.file| && w.progress.written <= w'.progress.written <= |w'.file|
    && w.version <= w'.version && (w'.version == w.version ==> w'.progress == w.progress)
    && (w.progress.phase != Running ==> w'.progress == w.progress && w'.file == w.file)
  }

  lemma WriterKeepsFollower(f: Follower, w: World, w': World)
    requires FollowerOk(f, w) && Extends(w, w')
    ensures FollowerOk(f, w')
  {
    if f.start <= f.position <= w.progress.written {
      assert w'.file[f.start..f.position] == w.file[f.start..f.position];
    }
  }

  predicate IsWriters(e: Event) {
    !e.Attach? && !e.Turn? && !e.ReadFails? && !e.Wake?
  }

  lemma WriterExtends(w: World, terms: Terms, e: Event)
    requires WriterOk(w, terms) && IsWriters(e)
    ensures Extends(w, Apply(w, terms, e)) && Apply(w, terms, e).followers == w.followers
            && WriterOk(Apply(w, terms, e), terms)
  {
  }

  lemma TurnKeepsFollower(f: Follower, w: World, terms: Terms)
    requires WriterOk(w, terms) && FollowerOk(f, w) && f.state == Polling
    ensures FollowerOk(Turned(f, w), w)
  {
    var available := Available(f.end, w.progress.written);
    if f.position < available {
      var n := Min(CHUNK, available - f.position);
      assert w.file[f.start..f.position] + w.file[f.position..f.position + n] == w.file[f.start..f.position + n];
      assert [] + w.file[f.position..f.position + n] == w.file[f.position..f.position + n];
    }
  }

  lemma WriterStepIsSound(w: World, terms: Terms, e: Event)
    requires Inv(w, terms) && IsWriters(e)
    ensures Inv(Apply(w, terms, e), terms)
  {
    var w' := Apply(w, terms, e);
    WriterExtends(w, terms, e);
    hide Apply, FollowerOk, Extends, WriterOk;
    forall id | id in w'.followers ensures FollowerOk(w'.followers[id], w') {
      WriterKeepsFollower(w.followers[id], w, w');
    }
  }

  /** A follower's step changes its own record only. */
  lemma FollowerStepIsSound(w: World, terms: Terms, e: Event)
    requires Inv(w, terms) && !IsWriters(e)
    ensures Inv(Apply(w, terms, e), terms)
  {
    var w', id := Apply(w, terms, e), e.id;
    assert forall other :: other != id ==> (other in w'.followers <==> other in w.followers)
                                           && (other in w.followers ==> w'.followers[other] == w.followers[other]);
    if e.Turn? && id in w.followers && w.followers[id].state == Polling {
      TurnKeepsFollower(w.followers[id], w, terms);
    }
    assert w' == w.(followers := w'.followers);
    OneFollowerOk(w, terms, e);
    hide Apply, FollowerOk;
    forall other | other in w'.followers ensures FollowerOk(w'.followers[other], w') {
      if other != id {
        SameProgress(w.followers[other], w, w');
      }
    }
  }

  lemma SameProgress(f: Follower, w: World, w': World)
    requires FollowerOk(f, w) && w' == w.(followers := w'.followers)
    ensures FollowerOk(f, w')
  {
  }

  lemma OneFollowerOk(w: World, terms: Terms, e: Event)
    requires Inv(w, terms) && !IsWriters(e)
    ensures var w' := Apply(w, terms, e);
            (e.id in w'.followers ==> FollowerOk(w'.followers[e.id], w')) && WriterOk(w', terms)
  {
    var w', id := Apply(w, terms, e), e.id;
    if id in w.followers {
      SameProgress(w.followers[id], w, w');
      if e.Turn? && w.followers[id].state == Polling {
        TurnKeepsFollower(w.followers[id], w, terms);
        SameProgress(Turned(w.followers[id], w), w, w');
      }
    }
    hide Turned;
  }

  lemma StepIsSound(w: World, terms: Terms, e: Event)
    requires Inv(w, terms)
    ensures Inv(Apply(w, terms, e), terms)
  {
    hide Inv, Apply;
    if IsWriters(e) {
      WriterStepIsSound(w, terms, e);
    } else {
      FollowerStepIsSound(w, terms, e);
    }
  }

  lemma {:induction false} EveryRunIsSound(terms: Terms, events: seq<Event>)
    ensures Inv(Run(terms, events), terms)
  {
    if events != [] {
      hide Inv, Apply;
      EveryRunIsSound(terms, events[..|events| - 1]);
      StepIsSound(Run(terms, events[..|events| - 1]), terms, events[|events| - 1]);
    } else {
      hide Meets;
    }
  }

  // ----- what a client can rely on -----

  /** Every follower, at every moment of every run, has been given exactly the announced part of the
      file from its start to its position. */
  lemma FollowersSeeThePrefix(terms: Terms, events: seq<Event>, id: FollowerId)
    ensures var w := Run(terms, events);
            id in w.followers ==>
              var f := w.followers[id];
              |f.emitted| == f.position - f.start &&
              (f.emitted != [] ==>
                 f.position <= w.progress.written <= |w.file| && f.emitted == w.file[f.start..f.position])
  {
    EveryRunIsSound(terms, events);
    hide Run;
  }

  /** A follower with a bound that ends cleanly has delivered exactly the promised bytes: for a granted
      range `s..e`, as many as the announced Content-Length. */
  lemma BoundedEndIsExact(terms: Terms, events: seq<Event>, id: FollowerId, s: nat, e: nat)
    requires s <= e
    ensures var w := Run(terms, events);
            id in w.followers && w.followers[id].start == s && w.followers[id].end == Some(e + 1)
              && w.followers[id].state == Clean ==>
              |w.followers[id].emitted| == e - s + 1 && e < |w.file| && w.followers[id].emitted == w.file[s..e + 1]
  {
    EveryRunIsSound(terms, events);
    hide Run;
  }

  /** A follower without a bound ends cleanly only when the download is complete, with the whole of a
      body that has the declared length and the requested hash. */
  lemma UnboundedEndIsVerified(terms: Terms, events: seq<Event>, id: FollowerId)
    ensures var w := Run(terms, events);
            id in w.followers && w.followers[id].start == 0 && w.followers[id].end == None
              && w.followers[id].state == Clean ==>
              var body := w.followers[id].emitted;
              && w.progress.phase == Complete && body == w.file
              && terms.matches(body) && (terms.expectedLen.Some? ==> |body| == terms.expectedLen.value)
  {
    EveryRunIsSound(terms, events);
    hide Run;
    var w := Run(terms, events);
    if id in w.followers && w.followers[id].start == 0 {
      assert w.file[0..|w.file|] == w.file;
    }
  }

  /** No follower stays parked once the outcome is known: its wake-up is pending. */
  lemma NoLostWakeup(terms: Terms, events: seq<Event>, id: FollowerId)
    ensures var w := Run(terms, events);
            id in w.followers && w.followers[id].state == Parked &&
            (w.progress.phase != Running
             || w.followers[id].position < Available(w.followers[id].end, w.progress.written))
            ==> WakeStep(w, id).followers[id].state == Polling
  {
    EveryRunIsSound(terms, events);
    hide Run;
  }

  /** Terminal phases never change, and neither does what was announced. */
  lemma TerminalIsFinal(terms: Terms, events: seq<Event>, e: Event)
    ensures var w := Run(terms, events);
            && w.progress.written <= Apply(w, terms, e).progress.written
            && (w.progress.phase != Running ==>
                  Apply(w, terms, e).progress == w.progress && Apply(w, terms, e).file == w.file)
  {
    EveryRunIsSound(terms, events);
    hide Run;
    if IsWriters(e) {
      WriterExtends(Run(terms, events), terms, e);
      hide Apply;
    }
  }

  /** `n` more rounds of one follower: wake up if parked, then take a turn. */
  function Rounds(w: World, id: FollowerId, n: nat): World
    decreases n
  {
    if n == 0 then w else Rounds(Round(w, id), id, n - 1)
  }

  predicate HasEnded(w: World, id: FollowerId) {
    id in w.followers && (w.followers[id].state == Clean || w.followers[id].state == Broken)
  }

  lemma {:induction false} EndedStays(w: World, id: FollowerId, n: nat)
    requires HasEnded(w, id)
    ensures HasEnded(Rounds(w, id, n), id)
  {
    if n > 0 {
      EndedStays(w, id, n - 1);
    }
  }

  function Round(w: World, id: FollowerId): World {
    TurnStep(WakeStep(w, id), id)
  }

  lemma RoundAdvances(w: World, terms: Terms, id: FollowerId)
    requires Inv(w, terms) && w.progress.phase != Running && id in w.followers
    ensures var after := Round(w, id);
            && Inv(after, terms) && after.progress == w.progress && id in after.followers
            && (HasEnded(after, id)
                || (after.followers[id].position > w.followers[id].position
                    && after.followers[id].end == w.followers[id].end
                    && w.followers[id].position < Available(w.followers[id].end, w.progress.written)))
  {
    var woken := WakeStep(w, id);
    assert Apply(w, terms, Wake(id)) == woken && Apply(woken, terms, Turn(id)) == TurnStep(woken, id);
    hide Apply;
    StepIsSound(w, terms, Wake(id));
    StepIsSound(woken, terms, Turn(id));
    WakeResult(w, terms, id);
    assert woken.progress.written <= |woken.file| by { assert WriterOk(woken, terms); }
    hide Inv, WakeStep;
    TurnedMoves(woken.followers[id], woken);
    hide Turned, Available;
  }

  lemma WakeResult(w: World, terms: Terms, id: FollowerId)
    requires Inv(w, terms) && w.progress.phase != Running && id in w.followers
    ensures var f, woken := w.followers[id], WakeStep(w, id);
            && woken.progress == w.progress && woken.file == w.file && id in woken.followers
            && woken.followers[id] == if f.state == Parked then f.(state := Polling) else f
  {
    ParkedCanWake(w, terms, id);
    hide Inv;
  }

  lemma TurnedMoves(f: Follower, w: World)
    requires w.progress.phase != Running && w.progress.written <= |w.file|
    ensures var after := Turned(f, w);
            || after.state == Clean || after.state == Broken
            || (after.position > f.position && after.end == f.end && f.position < Available(f.end, w.progress.written))
  {
  }

  /** Once the outcome is known, a follower ends within one round more than the bytes still ahead of it. */
  lemma {:induction false} FollowerEnds(w: World, terms: Terms, id: FollowerId, n: nat)
    requires Inv(w, terms) && w.progress.phase != Running && id in w.followers
    requires n > 0 && n > Available(w.followers[id].end, w.progress.written) - w.followers[id].position
    ensures HasEnded(Rounds(w, id, n), id)
    decreases n
  {
    RoundAdvances(w, terms, id);
    hide Inv, Round, Available;
    if HasEnded(Round(w, id), id) {
      EndedStays(Round(w, id), id, n - 1);
    } else {
      FollowerEnds(Round(w, id), terms, id, n - 1);
    }
  }

  lemma ParkedCanWake(w: World, terms: Terms, id: FollowerId)
    requires Inv(w, terms) && w.progress.phase != Running && id in w.followers
    ensures w.followers[id].state == Parked ==> w.followers[id].seen != w.version
    ensures w.progress.written <= |w.file|
  {
    assert FollowerOk(w.followers[id], w);
  }

  // ----- when a clean end means a verified body -----

  /** In this state, whatever follower `id` ended cleanly with is part of a complete download that has
      the declared length and the requested hash. */
  ghost predicate VerifiedEnd(w: World, terms: Terms, id: FollowerId, start: nat, end: Option<nat>) {
    id in w.followers && w.followers[id].start == start && w.followers[id].end == end
      && w.followers[id].state == Clean ==>
      w.progress.phase == Complete && Meets(terms, w.file)
  }

  /** A follower of `start..end` is on its way: the writer has announced `body` and reads on. */
  ghost predicate UnderWay(w: World, body: Bytes, start: nat, end: nat) {
    && w.file == body && w.progress == Progress(|body|, Running) && w.writer == Reading && 0 in w.followers
    && var f := w.followers[0];
       && f.start == start && f.end == Some(end) && f.state == Polling && start <= f.position
       && (f.position == start || f.position <= end) && (f.position < end ==> end <= |body|)
       && (if f.position <= |body| then f.emitted == body[start..f.position]
           else f.position == start && f.emitted == [])
  }

  /** A follower of `start..end` has ended cleanly while the writer, having announced `body`, reads on. */
  ghost predicate EndedEarly(w: World, body: Bytes, start: nat, end: nat) {
    && w.file == body && w.progress == Progress(|body|, Running) && w.writer == Reading && 0 in w.followers
    && var f := w.followers[0];
       && f.start == start && f.end == Some(end) && f.state == Clean
       && (start <= end <= |body| ==> f.emitted == body[start..end])
  }

  lemma TurnAdvances(w: World, body: Bytes, start: nat, end: nat)
    requires UnderWay(w, body, start, end) && w.followers[0].position < end
    ensures var after := TurnStep(w, 0);
            UnderWay(after, body, start, end) && after.followers[0].position > w.followers[0].position
  {
    var position := w.followers[0].position;
    var n := Min(CHUNK, end - position);
    assert body[start..position] + body[position..position + n] == body[start..position + n];
  }

  lemma TurnEnds(w: World, body: Bytes, start: nat, end: nat)
    requires UnderWay(w, body, start, end) && w.followers[0].position >= end
    ensures EndedEarly(TurnStep(w, 0), body, start, end)
  {
  }

  lemma TurnIsAnEvent(terms: Terms, events: seq<Event>, id: FollowerId)
    ensures Run(terms, events + [Turn(id)]) == TurnStep(Run(terms, events), id)
  {
    RunExtends(terms, events, Turn(id));
  }

  lemma FollowerIsThere(w: World, body: Bytes, start: nat, end: nat)
    requires UnderWay(w, body, start, end)
    ensures 0 in w.followers
  {
  }

  /** Turn after turn the follower reaches its bound, and ends cleanly while the writer still reads. */
  lemma {:induction false} TurnsReachBound(terms: Terms, events: seq<Event>, body: Bytes, start: nat, end: nat)
    returns (more: seq<Event>)
    requires UnderWay(Run(terms, events), body, start, end) && 0 in Run(terms, events).followers
    ensures EndedEarly(Run(terms, more), body, start, end)
    decreases end - Run(terms, events).followers[0].position
  {
    hide Run, UnderWay, TurnStep, EndedEarly;
    var w := Run(terms, events);
    more := events + [Turn(0)];
    TurnIsAnEvent(terms, events, 0);
    if w.followers[0].position < end {
      TurnAdvances(w, body, start, end);
      FollowerIsThere(TurnStep(w, 0), body, start, end);
      more := TurnsReachBound(terms, more, body, start, end);
    } else {
      TurnEnds(w, body, start, end);
    }
  }

  /** One follower has attached, and a body in one piece has been written and announced. */
  function Announced(body: Bytes, start: nat, end: nat): World {
    World(body, Progress(|body|, Running), 1, false, Reading,
          map[0 := Follower(start, Some(end), start, 0, [], Polling)])
  }

  lemma AttachedFirst(terms: Terms, start: nat, end: nat)
    ensures Run(terms, [Attach(0, start, Some(end))]) == Announced([], start, end).(version := 0)
  {
    assert Run(terms, []) == FRESH;
    RunExtends(terms, [], Attach(0, start, Some(end)));
    assert [] + [Attach(0, start, Some(end))] == [Attach(0, start, Some(end))];
    hide Run;
  }

  lemma WrittenNext(terms: Terms, body: Bytes, start: nat, end: nat)
    requires |body| <= terms.maxSize && !Declines(terms)
    ensures var w := Announced([], start, end).(version := 0);
            Apply(w, terms, Write(body)) == w.(file := body, writer := Wrote)
  {
    assert [] + body == body;
  }

  lemma AnnouncedLast(terms: Terms, body: Bytes, start: nat, end: nat)
    ensures var w := Announced([], start, end).(version := 0);
            Apply(w.(file := body, writer := Wrote), terms, Announce) == Announced(body, start, end)
  {
  }

  lemma AnnouncedRun(terms: Terms, body: Bytes, start: nat, end: nat) returns (events: seq<Event>)
    requires |body| <= terms.maxSize && !Declines(terms)
    ensures Run(terms, events) == Announced(body, start, end)
  {
    hide Run, Apply, Announced;
    var attached := [Attach(0, start, Some(end))];
    events := attached + [Write(body)] + [Announce];
    AttachedFirst(terms, start, end);
    RunExtends(terms, attached, Write(body));
    WrittenNext(terms, body, start, end);
    RunExtends(terms, attached + [Write(body)], Announce);
    AnnouncedLast(terms, body, start, end);
  }

  lemma AnnouncedIsUnderWay(body: Bytes, start: nat, end: nat)
    requires end <= start || end <= |body|
    ensures UnderWay(Announced(body, start, end), body, start, end)
  {
    assert start <= |body| ==> body[start..start] == [];
  }

  /** The run in which a body is announced in one piece and a follower of `start..end` ends cleanly. */
  lemma AnnouncedThenFollowed(terms: Terms, body: Bytes, start: nat, end: nat) returns (events: seq<Event>)
    requires |body| <= terms.maxSize && !Declines(terms) && (end <= start || end <= |body|)
    ensures EndedEarly(Run(terms, events), body, start, end)
  {
    hide Run, UnderWay, EndedEarly;
    var announced := AnnouncedRun(terms, body, start, end);
    AnnouncedIsUnderWay(body, start, end);
    events := TurnsReachBound(terms, announced, body, start, end);
  }

  /** A bound is reached without waiting for the verdict: for every body that fails its terms, of any
      size the limit admits, and for every range `s..e` inside it, there is a run in which a follower
      ends cleanly with exactly those bytes and the download fails afterwards, on that very body. */
  lemma BoundedEndPrecedesVerification(terms: Terms, body: Bytes, s: nat, e: nat) returns (events: seq<Event>)
    requires s <= e < |body| <= terms.maxSize && !Declines(terms) && !Meets(terms, body)
    ensures var w := Run(terms, events);
            && 0 in w.followers && w.followers[0].start == s && w.followers[0].end == Some(e + 1)
            && w.followers[0].state == Clean && w.followers[0].emitted == body[s..e + 1]
            && w.file == body && w.progress.phase == Failed
  {
    var before := AnnouncedThenFollowed(terms, body, s, e + 1);
    events := before + [EndOfBody];
    RunExtends(terms, before, EndOfBody);
    hide Run, Meets;
    assert body + [] == body;
  }

  /** The bound is one no follower starting at `start` ever reaches: beyond the size limit, or of a
      download that is declined. */
  predicate OutOfReach(terms: Terms, start: nat, end: nat) {
    start < end && (Declines(terms) || terms.maxSize < end)
  }

  /** Follower 0 of `start..end` has ended cleanly and the download still runs. */
  ghost predicate CleanWhileRunning(w: World, start: nat, end: nat) {
    && w.progress.phase == Running && w.writer == Reading && 0 in w.followers
    && w.followers[0].start == start && w.followers[0].end == Some(end) && w.followers[0].state == Clean
  }

  lemma NothingToSend(terms: Terms, start: nat, end: nat)
    requires end <= start
    ensures CleanWhileRunning(TurnStep(Announced([], start, end).(version := 0), 0), start, end)
  {
  }

  lemma EarlyIsRunning(w: World, body: Bytes, start: nat, end: nat)
    requires EndedEarly(w, body, start, end)
    ensures CleanWhileRunning(w, start, end)
  {
  }

  /** Every bound within reach is reached in some run before the outcome is known. */
  lemma CleanBeforeOutcome(terms: Terms, start: nat, end: nat) returns (events: seq<Event>)
    requires !OutOfReach(terms, start, end)
    ensures CleanWhileRunning(Run(terms, events), start, end)
  {
    hide Run, TurnStep, Announced, CleanWhileRunning, EndedEarly;
    if end <= start {
      var attached := [Attach(0, start, Some(end))];
      AttachedFirst(terms, start, end);
      TurnIsAnEvent(terms, attached, 0);
      NothingToSend(terms, start, end);
      events := attached + [Turn(0)];
    } else {
      var body := seq(end, i => 0);
      events := AnnouncedThenFollowed(terms, body, start, end);
      EarlyIsRunning(Run(terms, events), body, start, end);
    }
  }

  lemma SoundEndsAreVerified(w: World, terms: Terms, id: FollowerId, start: nat, end: Option<nat>)
    requires Inv(w, terms) && (end.None? || OutOfReach(terms, start, end.value))
    ensures VerifiedEnd(w, terms, id, start, end)
  {
    if id in w.followers {
      assert FollowerOk(w.followers[id], w);
    }
    hide Meets;
  }

  /** When a clean end means a verified body: exactly without a bound, or with one that no download on
      these terms reaches. A caller can tell from the arguments of the stream. */
  lemma CleanEndsVerifiedExactly(terms: Terms, start: nat, end: Option<nat>)
    ensures (forall events, id :: VerifiedEnd(Run(terms, events), terms, id, start, end))
            <==> end.None? || OutOfReach(terms, start, end.value)
  {
    if end.None? || OutOfReach(terms, start, end.value) {
      hide Run, Inv, VerifiedEnd;
      forall events, id ensures VerifiedEnd(Run(terms, events), terms, id, start, end) {
        EveryRunIsSound(terms, events);
        SoundEndsAreVerified(Run(terms, events), terms, id, start, end);
      }
    } else {
      hide Run, OutOfReach;
      var events := CleanBeforeOutcome(terms, start, end.value);
      assert !VerifiedEnd(Run(terms, events), terms, 0, start, end);
    }
  }

  /** In this state, a clean end of such a follower rules out that the download has failed. */
  ghost predicate CannotHaveFailed(w: World, id: FollowerId, start: nat, end: Option<nat>) {
    id in w.followers && w.followers[id].start == start && w.followers[id].end == end
      && w.followers[id].state == Clean ==>
      w.progress.phase != Failed
  }

  lemma VerifiedHasNotFailed(w: World, terms: Terms, id: FollowerId, start: nat, end: Option<nat>)
    requires VerifiedEnd(w, terms, id, start, end)
    ensures CannotHaveFailed(w, id, start, end)
  {
  }

  /** When a clean end rules out a failed download, whatever bodies the terms accept: under exactly the
      same condition. */
  lemma CleanEndRulesOutFailureExactly(terms: Terms, start: nat, end: Option<nat>)
    ensures (forall events, id :: CannotHaveFailed(Run(terms, events), id, start, end))
            <==> end.None? || OutOfReach(terms, start, end.value)
  {
    if end.None? || OutOfReach(terms, start, end.value) {
      hide Run, Inv, VerifiedEnd, CannotHaveFailed;
      forall events, id ensures CannotHaveFailed(Run(terms, events), id, start, end) {
        EveryRunIsSound(terms, events);
        SoundEndsAreVerified(Run(terms, events), terms, id, start, end);
        VerifiedHasNotFailed(Run(terms, events), terms, id, start, end);
      }
    } else {
      hide Run, OutOfReach;
      var before := CleanBeforeOutcome(terms, start, end.value);
      var events := before + [Fail([])];
      RunExtends(terms, before, Fail([]));
      FailureKeepsFollowers(Run(terms, before), terms);
      hide Apply;
      assert !CannotHaveFailed(Run(terms, events), 0, start, end);
    }
  }

  lemma FailureKeepsFollowers(w: World, terms: Terms)
    requires w.writer == Reading
    ensures var after := Apply(w, terms, Fail([])); after.followers == w.followers && after.progress.phase == Failed
  {
  }

  lemma RunExtends(terms: Terms, events: seq<Event>, e: Event)
    ensures Run(terms, events + [e]) == Apply(Run(terms, events), terms, e)
  {
    assert (events + [e])[..|events|] == events;
  }
}

/**
 What every run of the frame-rate change keeps. A monitor reads the action log:
 an operation is accepted only when none is open, its captured streams close
 before anything is reopened, it falls back at most once, and it ends once, with
 the rate its outcome promises.
 */
module ReconfigureRuns {
  import opened Wrappers
  import M = MediaLifecycle
  import opened VideoReconfigure

  /** What the last answer obliges the code to do next. */
  datatype Due = Nothing | MustFail | MustFallBack(kind: M.Kind)

  /**
   The operation a reader of the log believes open: `waiting` are captured streams
   not yet closed, `asked` those whose close was answered before; `videoUp` and
   `audioUp` say what was opened since the acceptance or the fallback.
   */
  datatype Pending = Pending(
    id: nat,
    previous: Rate,
    requested: Rate,
    waiting: set<Descriptor>,
    asked: set<Descriptor>,
    fellBack: bool,
    videoUp: bool,
    audioUp: bool,
    audioDue: bool,
    audioParams: bool,
    canFallBack: bool,
    due: Due)

  datatype Monitor = Monitor(lastId: nat, pending: Option<Pending>)

  function Captured(a: Option<Descriptor>, b: Option<Descriptor>): set<Descriptor> {
    (if a.Some? then {a.value} else {}) + (if b.Some? then {b.value} else {})
  }

  /** Everything that was to be opened is open. */
  predicate AllUp(p: Pending) {
    p.waiting == {} && p.videoUp && (p.audioDue ==> p.audioUp)
  }

  predicate OutcomeFits(p: Pending, outcome: Outcome, rate: Rate) {
    match outcome
    case Applied => p.due == Nothing && AllUp(p) && !p.fellBack && rate == p.requested
    case RolledBack => p.due == Nothing && AllUp(p) && p.fellBack && rate == p.previous
    case Failed => p.due == MustFail && rate == p.previous
  }

  predicate Admits(m: Monitor, a: Action) {
    if a.Accepted? then m.pending.None? && a.id > m.lastId
    else
      && m.pending.Some? && a.id == m.pending.value.id
      && var p := m.pending.value;
      match a
      case CloseAnswered(_, d, _) => p.due == Nothing && d in p.waiting
      case CloseExpired(_, d) => p.due == Nothing && d in p.waiting && d in p.asked
      case OpenAnswered(_, kind, _) =>
        && p.due == Nothing && p.waiting == {}
        && if kind == M.Video then !p.videoUp else kind == M.Audio && p.videoUp && p.audioDue && !p.audioUp
      case Fallback(_, v) => p.due.MustFallBack? && p.waiting == {} && (p.due.kind == M.Video ==> v.None?)
      case Ended(_, outcome, rate) => OutcomeFits(p, outcome, rate)
      case TornDown(_) => true
  }

  /** A close that was refused, or failed, ends the change; a failed state query does not. */
  function AfterClose(p: Pending, d: Descriptor, reply: CloseReply): Pending {
    if reply == StateFailed || (reply == CallFailed && d !in p.asked) then p.(due := MustFail)
    else p.(asked := p.asked + {d}, waiting := if reply == StateClosed then p.waiting - {d} else p.waiting)
  }

  /** A failed open falls back if the change may still do so, and ends it otherwise. */
  function AfterOpen(p: Pending, kind: M.Kind, success: bool): Pending {
    if success then (if kind == M.Video then p.(videoUp := true) else p.(audioUp := true))
    else if p.fellBack || (kind == M.Video && !p.canFallBack) then p.(due := MustFail)
    else p.(due := MustFallBack(kind))
  }

  /** The fallback starts over with the previous rate; after a failed audio open it has the new video to close. */
  function AfterFallback(p: Pending, v: Option<Descriptor>): Pending
    requires p.due.MustFallBack?
  {
    var q := p.(waiting := Captured(v, None), fellBack := true, videoUp := false, audioUp := false,
                canFallBack := false, due := Nothing);
    if p.due.kind == M.Video then q else q.(asked := {}, audioDue := p.audioParams)
  }

  function Advance(m: Monitor, a: Action): Monitor
    requires Admits(m, a)
  {
    match a
    case Accepted(id, previous, requested, v, d, videoParams, audioParams) =>
      Monitor(id, Some(Pending(id, previous, requested, Captured(v, d), {}, false, false, false,
                               d.Some? || audioParams, audioParams, v.Some? || videoParams, Nothing)))
    case CloseAnswered(_, d, reply) => m.(pending := Some(AfterClose(m.pending.value, d, reply)))
    case CloseExpired(_, _) => m.(pending := Some(m.pending.value.(due := MustFail)))
    case OpenAnswered(_, kind, success) => m.(pending := Some(AfterOpen(m.pending.value, kind, success)))
    case Fallback(_, v) => m.(pending := Some(AfterFallback(m.pending.value, v)))
    case Ended(_, _, _) => m.(pending := None)
    case TornDown(_) => m.(pending := None)
  }

  function Read(log: seq<Action>): Option<Monitor>
    decreases |log|
  {
    if log == [] then Some(Monitor(0, None))
    else
      var m := Read(log[..|log| - 1]);
      if m.Some? && Admits(m.value, log[|log| - 1]) then Some(Advance(m.value, log[|log| - 1])) else None
  }

  lemma ReadOne(log: seq<Action>, a: Action)
    requires Read(log).Some? && Admits(Read(log).value, a)
    ensures Read(log + [a]) == Some(Advance(Read(log).value, a))
  {
    assert (log + [a])[..|log|] == log;
  }

  lemma ReadRejects(log: seq<Action>, a: Action)
    requires Read(log).None? || !Admits(Read(log).value, a)
    ensures Read(log + [a]).None?
  {
    assert (log + [a])[..|log|] == log;
  }

  // ------------------------------------------------------------------ invariant

  function Waiting(op: Operation): set<Descriptor> {
    Captured(if op.video.terminal then None else op.video.stream, if op.audio.terminal then None else op.audio.stream)
  }

  predicate KindsRight(op: Operation) {
    && (op.video.stream.Some? ==> op.video.stream.value.kind == M.Video)
    && (op.audio.stream.Some? ==> op.audio.stream.value.kind == M.Audio)
  }

  function Sent(op: Operation): set<Descriptor> {
    Captured(if op.video.sent then op.video.stream else None, if op.audio.sent then op.audio.stream else None)
  }

  function PendingOf(op: Operation): Pending {
    Pending(op.id, op.previous, op.requested, Waiting(op), Sent(op), op.rollback, op.videoOpened, op.audioOpened,
            ReopensAudio(op), op.hadAudioParams, !op.rollback && (op.video.stream.Some? || op.hadVideoParams), Nothing)
  }

  /** The operation as the log knows it: the copy the tick works on, or the stored one. */
  function Latest(s: State): Option<Operation> {
    if s.tick.Some? then Some(s.tick.value.op) else s.operation
  }

  predicate SameOperation(a: Operation, b: Operation) {
    a.id == b.id && a.previous == b.previous && a.requested == b.requested && a.rollback == b.rollback
  }

  predicate PlaceFits(t: Tick) {
    match t.place
    case ClosingVideo => true
    case ClosingAudio => t.op.video.stream.None? ==> t.op.video.terminal
    case Saving =>
      && (t.op.video.stream.None? ==> t.op.video.terminal)
      && (t.op.audio.stream.None? ==> t.op.audio.terminal)
    case Rechecking => Waiting(t.op) == {}
    case OpeningVideo => Waiting(t.op) == {}
    case OpeningAudio => Waiting(t.op) == {} && t.op.videoOpened
    case Completing => Waiting(t.op) == {} && t.op.videoOpened && (ReopensAudio(t.op) ==> t.op.audioOpened)
  }

  predicate OperationFits(s: State) {
    match Latest(s)
    case None => true
    case Some(op) =>
      && KindsRight(op) && s.operation.Some? && SameOperation(op, s.operation.value)
      && s.suppressAutoOpen && s.rate == (if op.rollback then op.previous else op.requested)
  }

  ghost predicate Sound(s: State) {
    && OperationFits(s)
    && (s.tick.Some? ==> PlaceFits(s.tick.value))
    && Read(s.log).Some? && s.nextId > Read(s.log).value.lastId
    && Read(s.log).value.pending == (if Latest(s).Some? then Some(PendingOf(Latest(s).value)) else None)
  }

  /** Requests capture a video and an audio stream under their own kinds. */
  predicate CapturesByKind(step: Step) {
    match step
    case SetParamsStep(_, session) =>
      && (session.video.Some? ==> session.video.value.kind == M.Video)
      && (session.audio.Some? ==> session.audio.value.kind == M.Audio)
    case OpenAudioStep(_, replacement) => replacement.Some? ==> replacement.value.kind == M.Video
    case _ => true
  }

  lemma SetParamsSound(s: State, request: Request, session: Session)
    requires Sound(s) && CapturesByKind(SetParamsStep(request, session))
    ensures Sound(SetParams(s, request, session))
  {
    hide Read;
    var t := SetParams(s, request, session);
    if t != s {
      ReadOne(s.log, t.log[|s.log|]);
      assert Sent(t.operation.value) == {};
    }
  }

  lemma StartTickSound(s: State, open: bool, now: nat)
    requires Sound(s)
    ensures Sound(StartTick(s, open, now))
  {
    hide Read;
  }

  /** The last answer calls for the end of the operation the tick works on. */
  ghost predicate Failing(s: State) {
    && s.tick.Some? && Read(s.log).Some? && s.nextId > Read(s.log).value.lastId
    && Read(s.log).value.pending.Some?
    && var p, op := Read(s.log).value.pending.value, s.tick.value.op;
    p.id == op.id && p.previous == op.previous && p.due == MustFail
  }

  lemma FinishFailedSound(s: State, preserve: bool)
    requires Failing(s)
    ensures Sound(FinishFailed(s, preserve))
  {
    hide Read;
    var op := s.tick.value.op;
    ReadOne(s.log, Ended(op.id, Failed, op.previous));
  }

  /** One action of the operation at work that the monitor admits. */
  lemma Logged(s: State, a: Action)
    requires Read(s.log).Some? && Read(s.log).value.pending.Some? && !a.Accepted? && Admits(Read(s.log).value, a)
    ensures var t := s.(log := s.log + [a]);
            && Read(t.log) == Some(Advance(Read(s.log).value, a))
            && Read(t.log).value.lastId == Read(s.log).value.lastId
  {
    hide Read;
    ReadOne(s.log, a);
  }

  /** The leg has nothing left to close, so advancing it tells and changes nothing the log knows. */
  lemma NothingToClose(op: Operation)
    ensures (op.video.stream.None? || op.video.terminal) ==>
              PendingOf(op.(video := op.video.(terminal := true))) == PendingOf(op)
    ensures (op.audio.stream.None? || op.audio.terminal) ==>
              PendingOf(op.(audio := op.audio.(terminal := true))) == PendingOf(op)
  {
    assert Waiting(op.(video := op.video.(terminal := true))) <= Waiting(op);
    assert Waiting(op.(audio := op.audio.(terminal := true))) <= Waiting(op);
  }

  /** An answered close takes the operation to where the monitor takes its own view of it. */
  lemma VideoAnswered(op: Operation, reply: CloseReply, leg: Leg)
    requires KindsRight(op) && op.video.stream.Some? && !op.video.terminal
    ensures var p, d := PendingOf(op), op.video.stream.value;
            && d in p.waiting && (d in p.asked <==> op.video.sent)
            && (leg == op.video.(sent := true, terminal := reply == StateClosed)
                && reply != StateFailed && (reply == CallFailed ==> op.video.sent) ==>
                  AfterClose(p, d, reply) == PendingOf(op.(video := leg)))
  {
    var d, next := op.video.stream.value, op.(video := leg);
    if leg == op.video.(sent := true, terminal := reply == StateClosed) {
      assert Sent(next) == Sent(op) + {d};
      assert Waiting(next) == if reply == StateClosed then Waiting(op) - {d} else Waiting(op);
    }
  }

  lemma AudioAnswered(op: Operation, reply: CloseReply, leg: Leg)
    requires KindsRight(op) && op.audio.stream.Some? && !op.audio.terminal
    ensures var p, d := PendingOf(op), op.audio.stream.value;
            && d in p.waiting && (d in p.asked <==> op.audio.sent)
            && (leg == op.audio.(sent := true, terminal := reply == StateClosed)
                && reply != StateFailed && (reply == CallFailed ==> op.audio.sent) ==>
                  AfterClose(p, d, reply) == PendingOf(op.(audio := leg)))
  {
    var d, next := op.audio.stream.value, op.(audio := leg);
    if leg == op.audio.(sent := true, terminal := reply == StateClosed) {
      assert Sent(next) == Sent(op) + {d};
      assert Waiting(next) == if reply == StateClosed then Waiting(op) - {d} else Waiting(op);
    }
  }

  /** What the log says about the operation at work. */
  ghost predicate Knows(s: State, p: Pending) {
    && Read(s.log).Some? && s.nextId > Read(s.log).value.lastId
    && Read(s.log).value.pending == Some(p)
  }

  lemma AnswerKnown(s: State, p: Pending, d: Descriptor, reply: CloseReply)
    requires Knows(s, p) && p.due == Nothing && d in p.waiting
    ensures Knows(s.(log := s.log + [CloseAnswered(p.id, d, reply)]), AfterClose(p, d, reply))
  {
    hide Read, AfterClose;
    ReadOne(s.log, CloseAnswered(p.id, d, reply));
  }

  lemma ExpiryKnown(s: State, p: Pending, d: Descriptor)
    requires Knows(s, p) && p.due == Nothing && d in p.waiting && d in p.asked
    ensures Knows(s.(log := s.log + [CloseExpired(p.id, d)]), p.(due := MustFail))
  {
    hide Read;
    ReadOne(s.log, CloseExpired(p.id, d));
  }

  /** The actions of a leg that breaks leave the operation due to fail. */
  lemma BreakFails(s: State, p: Pending, leg: Leg, deadline: nat, reply: CloseReply, now: nat)
    requires Knows(s, p) && p.due == Nothing && AdvanceLeg(leg, deadline, reply, now).LegFailed?
    requires leg.stream.value in p.waiting && (leg.stream.value in p.asked <==> leg.sent)
    requires s.tick.Some? && p.id == s.tick.value.op.id && p.previous == s.tick.value.op.previous
    ensures Failing(s.(log := s.log + LegActions(p.id, leg, deadline, reply, now)))
  {
    hide Read;
    var d := leg.stream.value;
    if leg.sent && now >= deadline {
      ExpiryKnown(s, p, d);
    } else {
      AnswerKnown(s, p, d, reply);
    }
  }

  lemma SoundKnows(s: State)
    requires Sound(s) && s.tick.Some?
    ensures var op := s.tick.value.op; Knows(s, PendingOf(op)) && KindsRight(op)
  {
    hide Read, PendingOf;
  }

  /** The tick goes on with a copy the log agrees with. */
  lemma MovesOn(s: State, log: seq<Action>, op: Operation, place: Place)
    requires Sound(s) && s.tick.Some? && SameOperation(op, s.tick.value.op) && KindsRight(op)
    requires PlaceFits(Tick(op, place)) && Knows(s.(log := log), PendingOf(op))
    ensures Sound(Goto(s.(log := log), op, place))
  {
    hide Read, PendingOf, PlaceFits;
  }

  lemma CloseVideoSound(s: State, reply: CloseReply, now: nat)
    requires Sound(s)
    ensures Sound(CloseVideo(s, reply, now))
  {
    hide Sound, FinishFailed, PendingOf, AfterClose, LegActions, AdvanceLeg, Knows, Failing;
    if At(s, ClosingVideo) {
      var op := s.tick.value.op;
      var p, log := PendingOf(op), s.log + LegActions(op.id, op.video, op.deadline, reply, now);
      PendingFresh(op);
      SoundKnows(s);
      LegCases(op.id, op.video, op.deadline, reply, now);
      if op.video.stream.None? || op.video.terminal {
        NoActions(s.log, op.id, op.video, op.deadline, reply, now);
        NothingToClose(op);
        MovesOn(s, log, op.(video := op.video.(terminal := true)), ClosingAudio);
      } else {
        var leg := op.video.(sent := true, terminal := reply == StateClosed);
        VideoAnswered(op, reply, leg);
        if AdvanceLeg(op.video, op.deadline, reply, now).LegFailed? {
          BreakFails(s, p, op.video, op.deadline, reply, now);
          FinishFailedSound(s.(log := log), true);
        } else {
          AnswerKnown(s, p, op.video.stream.value, reply);
          MovesOn(s, log, op.(video := leg), ClosingAudio);
        }
      }
    }
  }

  lemma CloseAudioSound(s: State, reply: CloseReply, now: nat)
    requires Sound(s)
    ensures Sound(CloseAudio(s, reply, now))
  {
    hide Sound, FinishFailed, PendingOf, AfterClose, LegActions, AdvanceLeg, Knows, Failing;
    if At(s, ClosingAudio) {
      var op := s.tick.value.op;
      var p, log := PendingOf(op), s.log + LegActions(op.id, op.audio, op.deadline, reply, now);
      PendingFresh(op);
      SoundKnows(s);
      VideoSettled(s);
      LegCases(op.id, op.audio, op.deadline, reply, now);
      if op.audio.stream.None? || op.audio.terminal {
        NoActions(s.log, op.id, op.audio, op.deadline, reply, now);
        NothingToClose(op);
        MovesOn(s, log, op.(audio := op.audio.(terminal := true)), Saving);
      } else {
        var leg := op.audio.(sent := true, terminal := reply == StateClosed);
        AudioAnswered(op, reply, leg);
        if AdvanceLeg(op.audio, op.deadline, reply, now).LegFailed? {
          BreakFails(s, p, op.audio, op.deadline, reply, now);
          FinishFailedSound(s.(log := log), false);
        } else {
          AnswerKnown(s, p, op.audio.stream.value, reply);
          MovesOn(s, log, op.(audio := leg), Saving);
        }
      }
    }
  }

  lemma VideoSettled(s: State)
    requires Sound(s) && At(s, ClosingAudio)
    ensures s.tick.value.op.video.stream.None? ==> s.tick.value.op.video.terminal
  {
    hide Read, PendingOf;
  }

  /** What advancing a leg comes to. */
  lemma LegCases(id: nat, leg: Leg, deadline: nat, reply: CloseReply, now: nat)
    ensures var result := AdvanceLeg(leg, deadline, reply, now);
            if leg.stream.None? || leg.terminal then result == LegAdvanced(leg.(terminal := true))
            else
              result.LegAdvanced? ==>
                && result.leg == leg.(sent := true, terminal := reply == StateClosed)
                && reply != StateFailed && (reply == CallFailed ==> leg.sent)
                && LegActions(id, leg, deadline, reply, now) == [CloseAnswered(id, leg.stream.value, reply)]
  {
  }

  lemma PendingFresh(op: Operation)
    ensures var p := PendingOf(op); p.id == op.id && p.previous == op.previous && p.due == Nothing
  {
  }

  lemma NoActions(log: seq<Action>, id: nat, leg: Leg, deadline: nat, reply: CloseReply, now: nat)
    requires leg.stream.None? || leg.terminal
    ensures log + LegActions(id, leg, deadline, reply, now) == log
  {
  }

  lemma OpenVideoSound(s: State, success: bool)
    requires Sound(s)
    ensures Sound(OpenVideo(s, success))
  {
    hide Read, FinishFailed;
    if At(s, OpeningVideo) && !s.tick.value.op.videoOpened {
      var op := s.tick.value.op;
      var called := s.(log := s.log + [OpenAnswered(op.id, M.Video, success)]);
      Logged(s, OpenAnswered(op.id, M.Video, success));
      if !success {
        if !op.rollback && (op.video.stream.Some? || op.hadVideoParams) {
          Logged(called, Fallback(op.id, None));
          assert Waiting(op) == Captured(None, None);
        } else {
          FinishFailedSound(called, false);
        }
      }
    }
  }

  lemma OpenAudioSound(s: State, success: bool, replacement: Option<Descriptor>)
    requires Sound(s) && CapturesByKind(OpenAudioStep(success, replacement))
    ensures Sound(OpenAudio(s, success, replacement))
  {
    hide Read, FinishFailed;
    if At(s, OpeningAudio) && ReopensAudio(s.tick.value.op) && !s.tick.value.op.audioOpened {
      var op := s.tick.value.op;
      var called := s.(log := s.log + [OpenAnswered(op.id, M.Audio, success)]);
      Logged(s, OpenAnswered(op.id, M.Audio, success));
      if !success {
        if !op.rollback {
          Logged(called, Fallback(op.id, replacement));
        } else {
          FinishFailedSound(called, false);
        }
      }
    }
  }

  lemma CompleteSound(s: State)
    requires Sound(s)
    ensures Sound(Complete(s))
  {
    hide Read;
    if At(s, Completing) {
      var op := s.tick.value.op;
      ReadOne(s.log, Ended(op.id, if op.rollback then RolledBack else Applied, s.rate));
    }
  }

  lemma TearDownSound(s: State)
    requires Sound(s) && s.tick.None?
    ensures Sound(TearDown(s))
  {
    hide Read;
    if s.operation.Some? {
      ReadOne(s.log, TornDown(s.operation.value.id));
    } else {
      assert s.log + [] == s.log;
    }
  }

  lemma ApplySound(s: State, step: Step)
    requires Sound(s) && CapturesByKind(step) && (step.TearDownStep? ==> s.tick.None?)
    requires step.OpenSessionStep? ==> s.operation.None?
    ensures Sound(Apply(s, step))
  {
    hide Sound, SetParams, StartTick, CloseVideo, CloseAudio, OpenVideo, OpenAudio, Complete, TearDown, SaveCloses,
         Recheck, OpenSession;
    match step
    case SetParamsStep(r, session) => SetParamsSound(s, r, session);
    case StartTickStep(open, now) => StartTickSound(s, open, now);
    case CloseVideoStep(reply, now) => CloseVideoSound(s, reply, now);
    case CloseAudioStep(reply, now) => CloseAudioSound(s, reply, now);
    case SaveClosesStep => SaveClosesSound(s);
    case RecheckStep => RecheckSound(s);
    case OpenVideoStep(ok) => OpenVideoSound(s, ok);
    case OpenAudioStep(ok, replacement) => OpenAudioSound(s, ok, replacement);
    case CompleteStep => CompleteSound(s);
    case TearDownStep => assert s.tick.None?; TearDownSound(s);
    case OpenSessionStep(configured) => assert s.operation.None?; OpenSessionExact(s, configured);
  }

  /** Opening a session is harmless exactly when no change is pending. */
  lemma OpenSessionExact(s: State, configured: Rate)
    requires Sound(s)
    ensures Sound(OpenSession(s, configured)) <==> s.operation.None?
  {
    hide Read;
  }

  lemma SaveClosesSound(s: State)
    requires Sound(s)
    ensures Sound(SaveCloses(s))
  {
    hide Read;
  }

  lemma RecheckSound(s: State)
    requires Sound(s)
    ensures Sound(Recheck(s))
  {
    hide Read;
  }

  /** Streams are captured by kind, no teardown falls inside a tick, and sessions open with nothing pending. */
  ghost predicate Undisturbed(s: State, steps: seq<Step>)
    decreases |steps|
  {
    steps == [] ||
    var n := |steps| - 1;
    && Undisturbed(s, steps[..n]) && CapturesByKind(steps[n])
    && (steps[n].TearDownStep? ==> Execute(s, steps[..n]).tick.None?)
    && (steps[n].OpenSessionStep? ==> Execute(s, steps[..n]).operation.None?)
  }

  lemma {:induction false} ExecuteSound(s: State, steps: seq<Step>)
    requires Sound(s) && Undisturbed(s, steps)
    ensures Sound(Execute(s, steps))
    decreases |steps|
  {
    hide Sound, Apply;
    if steps != [] {
      ExecuteSound(s, steps[..|steps| - 1]);
      ApplySound(Execute(s, steps[..|steps| - 1]), steps[|steps| - 1]);
    }
  }

  /** On every run the monitor accepts the whole log, and agrees with the session about what is pending. */
  lemma EveryRunIsSound(steps: seq<Step>)
    requires Undisturbed(Initial, steps)
    ensures var s := Execute(Initial, steps);
            && Read(s.log).Some?
            && (s.operation.Some? <==> Read(s.log).value.pending.Some?)
            && (s.operation.Some? ==> Read(s.log).value.pending.value.id == s.operation.value.id)
  {
    ExecuteSound(Initial, steps);
    hide Read, Execute;
  }

  // -------------------------------------------------- what an accepted log means

  predicate Ends(a: Action, id: nat) {
    (a.Ended? || a.TornDown?) && a.id == id
  }

  lemma {:induction false} ReadPrefix(log: seq<Action>, n: nat)
    requires Read(log).Some? && n <= |log|
    ensures Read(log[..n]).Some? && Read(log[..n]).value.lastId <= Read(log).value.lastId
    decreases |log|
  {
    if n < |log| {
      assert log[..|log| - 1][..n] == log[..n];
      ReadPrefix(log[..|log| - 1], n);
    } else {
      assert log[..n] == log;
    }
  }

  lemma ReadStep(log: seq<Action>, n: nat)
    requires Read(log).Some? && 0 < n <= |log|
    ensures Read(log[..n - 1]).Some? && Admits(Read(log[..n - 1]).value, log[n - 1])
    ensures Read(log[..n]) == Some(Advance(Read(log[..n - 1]).value, log[n - 1]))
  {
    ReadPrefix(log, n);
    assert log[..n][..n - 1] == log[..n - 1];
  }

  /** What one admitted action leaves as it was. */
  lemma AdvanceKeeps(m: Monitor, a: Action)
    requires Admits(m, a)
    ensures var t := Advance(m, a);
            && t.lastId == (if a.Accepted? then a.id else m.lastId) && m.lastId <= t.lastId
            && (Ends(a, a.id) ==> t.pending.None?)
            && (t.pending.Some? && !a.Accepted? ==>
                  var p, q := m.pending.value, t.pending.value;
                  && q.id == p.id == a.id && q.previous == p.previous && q.requested == p.requested
                  && q.fellBack == (p.fellBack || a.Fallback?)
                  && q.audioDue == (if a.Fallback? && p.due.kind != M.Video then p.audioParams else p.audioDue)
                  && (q.videoUp ==> p.videoUp || (a.OpenAnswered? && a.kind == M.Video && a.success))
                  && (q.audioUp ==> p.audioUp || (a.OpenAnswered? && a.kind == M.Audio && a.success))
                  && (forall d | d in p.waiting && d !in q.waiting :: a == CloseAnswered(a.id, d, StateClosed)))
  {
    match a
    case Accepted(_, _, _, _, _, _, _) =>
    case CloseAnswered(_, _, _) =>
    case CloseExpired(_, _) =>
    case OpenAnswered(_, _, _) =>
    case Fallback(_, _) =>
    case Ended(_, _, _) =>
    case TornDown(_) =>
  }

  lemma {:induction false} PendingIsLast(log: seq<Action>)
    requires Read(log).Some?
    ensures var m := Read(log).value; m.pending.Some? ==> m.pending.value.id == m.lastId
    decreases |log|
  {
    if log != [] {
      PendingIsLast(log[..|log| - 1]);
    }
  }

  /** After an operation has ended, the log never speaks of it again. */
  lemma NothingAfterEnd(log: seq<Action>, i: nat, j: nat)
    requires Read(log).Some? && i < j < |log| && Ends(log[i], log[i].id)
    ensures log[j].id != log[i].id
  {
    hide Read, Advance;
    StaysEnded(log, i, j);
    ReadStep(log, j + 1);
  }

  lemma {:induction false} StaysEnded(log: seq<Action>, i: nat, j: nat)
    requires Read(log).Some? && i < j <= |log| && Ends(log[i], log[i].id)
    ensures Read(log[..j]).Some?
    ensures var m := Read(log[..j]).value;
            m.lastId >= log[i].id && (m.pending.Some? ==> m.pending.value.id != log[i].id)
    decreases j
  {
    hide Read, Advance;
    ReadStep(log, j);
    var m := Read(log[..j - 1]).value;
    AdvanceKeeps(m, log[j - 1]);
    if j > i + 1 {
      StaysEnded(log, i, j - 1);
      if log[j - 1].Accepted? { AcceptedId(m, log[j - 1]); }
    } else {
      PendingIsLast(log[..i]);
    }
  }

  lemma AcceptedId(m: Monitor, a: Action)
    requires Admits(m, a) && a.Accepted?
    ensures Advance(m, a).pending.Some? && Advance(m, a).pending.value.id == a.id > m.lastId
  {
  }

  /** Each operation ends at most once. */
  lemma EndsOnce(log: seq<Action>, i: nat, j: nat, id: nat)
    requires Read(log).Some? && i < |log| && j < |log| && Ends(log[i], id) && Ends(log[j], id)
    ensures i == j
  {
    if i < j {
      NothingAfterEnd(log, i, j);
    } else if j < i {
      NothingAfterEnd(log, j, i);
    }
  }

  /** While an operation is pending, the monitor keeps what its acceptance said. */
  ghost predicate Remembers(log: seq<Action>, i: nat, n: nat, p: Pending)
    requires i < n <= |log| && log[i].Accepted?
  {
    && p.previous == log[i].previous && p.requested == log[i].requested
    && (forall d | d in Captured(log[i].video, log[i].audio) ::
          d in p.waiting || exists k | i < k < n :: log[k] == CloseAnswered(p.id, d, StateClosed))
    && (p.fellBack <==> exists k | i < k < n :: log[k].Fallback? && log[k].id == p.id)
    && (!p.fellBack ==>
          && p.audioDue == (log[i].audio.Some? || log[i].audioParams)
          && (p.videoUp ==> exists k | i < k < n :: log[k] == OpenAnswered(p.id, M.Video, true))
          && (p.audioUp ==> exists k | i < k < n :: log[k] == OpenAnswered(p.id, M.Audio, true)))
  }

  lemma {:induction false} PendingRemembers(log: seq<Action>, i: nat, n: nat)
    requires Read(log).Some? && i < n <= |log| && log[i].Accepted?
    ensures Read(log[..n]).Some? && Read(log[..n]).value.lastId >= log[i].id
    ensures var p := Read(log[..n]).value.pending;
            p.Some? && p.value.id == log[i].id ==> Remembers(log, i, n, p.value)
    decreases n
  {
    hide Read, Advance, Admits, Remembers;
    ReadStep(log, n);
    var m, a := Read(log[..n - 1]).value, log[n - 1];
    AdvanceKeeps(m, a);
    if n > i + 1 {
      PendingRemembers(log, i, n - 1);
      if a.Accepted? {
        AcceptedId(m, a);
      } else if Advance(m, a).pending.Some? && a.id == log[i].id {
        StillRemembers(log, i, n, m.pending.value, Advance(m, a).pending.value);
      }
    } else {
      JustAccepted(log, i, m);
    }
  }

  lemma JustAccepted(log: seq<Action>, i: nat, m: Monitor)
    requires i < |log| && log[i].Accepted? && Admits(m, log[i])
    ensures Remembers(log, i, i + 1, Advance(m, log[i]).pending.value)
  {
  }

  lemma StillRemembers(log: seq<Action>, i: nat, n: nat, p: Pending, q: Pending)
    requires i + 1 < n <= |log| && log[i].Accepted? && Remembers(log, i, n - 1, p)
    requires var a := log[n - 1];
             && q.id == p.id == a.id && q.previous == p.previous && q.requested == p.requested
             && q.fellBack == (p.fellBack || a.Fallback?)
             && (!q.fellBack ==> q.audioDue == p.audioDue)
             && (q.videoUp ==> p.videoUp || a == OpenAnswered(a.id, M.Video, true))
             && (q.audioUp ==> p.audioUp || a == OpenAnswered(a.id, M.Audio, true))
             && (forall d | d in p.waiting && d !in q.waiting :: a == CloseAnswered(a.id, d, StateClosed))
    ensures Remembers(log, i, n, q)
  {
    var a := log[n - 1];
    forall d | d in Captured(log[i].video, log[i].audio)
      ensures d in q.waiting || exists k | i < k < n :: log[k] == CloseAnswered(q.id, d, StateClosed)
    {
      if d in p.waiting && d !in q.waiting {
        assert log[n - 1] == CloseAnswered(q.id, d, StateClosed);
      } else if d !in p.waiting {
        var k :| i < k < n - 1 && log[k] == CloseAnswered(p.id, d, StateClosed);
        assert i < k < n;
      }
    }
  }

  /** Every captured stream was closed before a replacement is opened. */
  lemma ClosedBeforeOpen(log: seq<Action>, i: nat, j: nat, d: Descriptor)
    requires Read(log).Some? && i < j < |log| && log[i].Accepted? && log[j].OpenAnswered? && log[j].id == log[i].id
    requires d in Captured(log[i].video, log[i].audio)
    ensures exists k | i < k < j :: log[k] == CloseAnswered(log[i].id, d, StateClosed)
  {
    hide Read, Advance;
    PendingRemembers(log, i, j);
    ReadStep(log, j + 1);
  }

  /** An operation falls back at most once. */
  lemma FallsBackOnce(log: seq<Action>, i: nat, j: nat, k: nat)
    requires Read(log).Some? && i < j < |log| && i < k < |log| && log[i].Accepted?
    requires log[j].Fallback? && log[k].Fallback? && log[i].id == log[j].id == log[k].id
    ensures j == k
  {
    if j < k {
      NoSecondFallback(log, i, j, k);
    } else if k < j {
      NoSecondFallback(log, i, k, j);
    }
  }

  lemma NoSecondFallback(log: seq<Action>, i: nat, j: nat, k: nat)
    requires Read(log).Some? && i < j < k < |log| && log[i].Accepted? && log[j].Fallback?
    requires log[i].id == log[j].id == log[k].id
    ensures !log[k].Fallback?
  {
    hide Read, Advance;
    PendingRemembers(log, i, k);
    ReadStep(log, k + 1);
    OnlyFirstFallsBack(log, k);
  }

  /** Nothing is owed to the peer's answers beyond the next action, and a change that fell back never owes another. */
  lemma {:induction false} OnlyFirstFallsBack(log: seq<Action>, n: nat)
    requires Read(log).Some? && n <= |log|
    ensures Read(log[..n]).Some?
    ensures var p := Read(log[..n]).value.pending; p.Some? && p.value.fellBack ==> !p.value.due.MustFallBack?
    decreases n
  {
    hide Read, Advance;
    if n == 0 {
      assert log[..0] == [];
      ReadNone();
    } else {
      OnlyFirstFallsBack(log, n - 1);
      ReadStep(log, n);
      FellBackOwesNoFallback(Read(log[..n - 1]).value, log[n - 1]);
    }
  }

  lemma ReadNone()
    ensures Read([]) == Some(Monitor(0, None))
  {
  }

  lemma FellBackOwesNoFallback(m: Monitor, a: Action)
    requires Admits(m, a) && (m.pending.Some? && m.pending.value.fellBack ==> !m.pending.value.due.MustFallBack?)
    ensures var p := Advance(m, a).pending; p.Some? && p.value.fellBack ==> !p.value.due.MustFallBack?
  {
  }

  /** An operation that was accepted ends with the rate its outcome promises. */
  lemma OutcomeRate(log: seq<Action>, i: nat, j: nat)
    requires Read(log).Some? && i < j < |log| && log[i].Accepted? && log[j].Ended? && log[j].id == log[i].id
    ensures log[j].rate == if log[j].outcome == Applied then log[i].requested else log[i].previous
  {
    hide Read, Advance;
    PendingRemembers(log, i, j);
    ReadStep(log, j + 1);
  }

  /** A change that was applied never fell back, and the peer has opened the video and, where due, the audio. */
  lemma AppliedMeansOpened(log: seq<Action>, i: nat, j: nat)
    requires Read(log).Some? && i < j < |log| && log[i].Accepted? && log[j].id == log[i].id
    requires log[j].Ended? && log[j].outcome == Applied
    ensures !exists k | i < k < j :: log[k].Fallback? && log[k].id == log[i].id
    ensures exists k | i < k < j :: log[k] == OpenAnswered(log[i].id, M.Video, true)
    ensures log[i].audio.Some? || log[i].audioParams ==>
              exists k | i < k < j :: log[k] == OpenAnswered(log[i].id, M.Audio, true)
  {
    hide Read, Advance;
    PendingRemembers(log, i, j);
    ReadStep(log, j + 1);
  }

  /** What makes a change fail or fall back is the action just before. */
  predicate Refused(a: Action) {
    || (a.CloseAnswered? && (a.reply == StateFailed || a.reply == CallFailed))
    || a.CloseExpired?
    || (a.OpenAnswered? && !a.success)
  }

  lemma DueMeansRefused(log: seq<Action>, n: nat)
    requires Read(log).Some? && n <= |log|
    ensures Read(log[..n]).Some?
    ensures var p := Read(log[..n]).value.pending;
            p.Some? && p.value.due != Nothing ==>
              && n > 0 && Refused(log[n - 1]) && log[n - 1].id == p.value.id
              && (p.value.due.MustFallBack? ==> log[n - 1].OpenAnswered? && log[n - 1].kind == p.value.due.kind)
  {
    hide Read, Advance;
    if n == 0 {
      assert log[..0] == [];
      ReadNone();
    } else {
      ReadStep(log, n);
      DueStep(Read(log[..n - 1]).value, log[n - 1]);
    }
  }

  lemma DueStep(m: Monitor, a: Action)
    requires Admits(m, a)
    ensures var p := Advance(m, a).pending;
            p.Some? && p.value.due != Nothing ==>
              && Refused(a) && a.id == p.value.id
              && (p.value.due.MustFallBack? ==> a.OpenAnswered? && a.kind == p.value.due.kind)
  {
  }

  /** A change falls back or fails only at once after the peer refused something, or let a close expire. */
  lemma FailsOnlyWhenRefused(log: seq<Action>, j: nat)
    requires Read(log).Some? && j < |log|
    requires log[j].Fallback? || (log[j].Ended? && log[j].outcome == Failed)
    ensures j > 0 && Refused(log[j - 1]) && log[j - 1].id == log[j].id
    ensures log[j].Fallback? ==> log[j - 1].OpenAnswered?
  {
    hide Read, Advance;
    ReadStep(log, j + 1);
    DueMeansRefused(log, j);
  }

  /** After a failed open comes the fallback, the failure or the teardown of that change, and nothing else. */
  lemma RefusalIsHeeded(log: seq<Action>, j: nat)
    requires Read(log).Some? && 0 < j < |log|
    requires log[j - 1].OpenAnswered? && !log[j - 1].success
    ensures log[j].id == log[j - 1].id
    ensures log[j].Fallback? || log[j].TornDown? || (log[j].Ended? && log[j].outcome == Failed)
  {
    hide Read;
    ReadStep(log, j);
    ReadStep(log, j + 1);
  }

  /** The peer opened the kind, and the change has not started over since. */
  ghost predicate OpenedSince(log: seq<Action>, n: nat, id: nat, kind: M.Kind)
    requires n <= |log|
  {
    exists k | 0 <= k < n ::
      && log[k] == OpenAnswered(id, kind, true)
      && forall l | k < l < n :: !log[l].Fallback? && !log[l].Accepted?
  }

  lemma {:induction false} UpMeansOpened(log: seq<Action>, n: nat)
    requires Read(log).Some? && n <= |log|
    ensures Read(log[..n]).Some?
    ensures var p := Read(log[..n]).value.pending;
            p.Some? ==>
              && (p.value.videoUp ==> OpenedSince(log, n, p.value.id, M.Video))
              && (p.value.audioUp ==> OpenedSince(log, n, p.value.id, M.Audio))
    decreases n
  {
    hide Read, Advance, Admits, OpenedSince;
    if n == 0 {
      assert log[..0] == [];
      ReadNone();
    } else {
      UpMeansOpened(log, n - 1);
      ReadStep(log, n);
      var m, a := Read(log[..n - 1]).value, log[n - 1];
      UpStep(m, a);
      if Advance(m, a).pending.Some? && !a.Accepted? && !a.Fallback? {
        var id := a.id;
        OpenedLater(log, n, id, M.Video);
        OpenedLater(log, n, id, M.Audio);
      }
    }
  }

  lemma UpStep(m: Monitor, a: Action)
    requires Admits(m, a)
    ensures var t := Advance(m, a);
            t.pending.Some? ==>
              var q := t.pending.value;
              && q.id == a.id
              && (a.Accepted? || a.Fallback? ==> !q.videoUp && !q.audioUp)
              && (!a.Accepted? && !a.Fallback? ==>
                    && m.pending.value.id == a.id
                    && (q.videoUp ==> m.pending.value.videoUp || a == OpenAnswered(a.id, M.Video, true))
                    && (q.audioUp ==> m.pending.value.audioUp || a == OpenAnswered(a.id, M.Audio, true)))
  {
  }

  lemma OpenedLater(log: seq<Action>, n: nat, id: nat, kind: M.Kind)
    requires 0 < n <= |log| && !log[n - 1].Accepted? && !log[n - 1].Fallback?
    ensures OpenedSince(log, n - 1, id, kind) || log[n - 1] == OpenAnswered(id, kind, true) ==>
              OpenedSince(log, n, id, kind)
  {
  }

  /** A change succeeds only with the video, and audio where still due, opened since it last started over. */
  lemma SuccessMeansOpened(log: seq<Action>, j: nat)
    requires Read(log).Some? && j < |log| && log[j].Ended? && log[j].outcome != Failed
    ensures Read(log[..j]).Some? && Read(log[..j]).value.pending.Some?
    ensures OpenedSince(log, j, log[j].id, M.Video)
    ensures Read(log[..j]).value.pending.value.audioDue ==> OpenedSince(log, j, log[j].id, M.Audio)
  {
    hide Read, Advance, OpenedSince;
    ReadStep(log, j + 1);
    UpMeansOpened(log, j);
  }
}

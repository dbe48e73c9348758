/**
 An accepted frame-rate change ends: each tick either ends it or lowers a rank
 made of the fallback that is left, the stage of the closes and the time to the
 close deadline. The class at the end runs a tick the way the pump does.
 */
module ReconfigureProgress {
  import opened Wrappers
  import M = MediaLifecycle
  import opened VideoReconfigure
  import opened ReconfigureRuns

  const ROUND: nat := CLOSE_TIMEOUT + 3

  predicate Closing(op: Operation) {
    HasTargets(op) && !BothTerminal(op)
  }

  function StageRank(op: Operation, now: nat): nat {
    if !Closing(op) then 0
    else if !op.video.sent && !op.audio.sent then CLOSE_TIMEOUT + 2
    else if op.deadline > now then 1 + (op.deadline - now)
    else 1
  }

  function Rank(op: Operation, now: nat): nat {
    (if op.rollback then 0 else ROUND) + StageRank(op, now)
  }

  predicate Asked(leg: Leg) {
    leg.stream.None? || leg.sent || leg.terminal
  }

  /** Once a close was sent, all were, and the deadline lies within one timeout of the last tick. */
  predicate Timed(op: Operation, now: nat) {
    op.video.sent || op.audio.sent ==> op.deadline <= now + CLOSE_TIMEOUT && Asked(op.video) && Asked(op.audio)
  }

  predicate ClockForward(i: TickInput) {
    i.now <= i.videoNow <= i.audioNow
  }

  predicate ReplacementIsVideo(i: TickInput) {
    i.replacement.Some? ==> i.replacement.value.kind == M.Video
  }

  lemma RankBounded(op: Operation, now: nat)
    requires Timed(op, now)
    ensures StageRank(op, now) < ROUND && Rank(op, now) < 2 * ROUND
  {
  }

  // ------------------------------------------------------------------ one tick

  /** Where the close part of a tick leaves the session. */
  ghost predicate CloseDone(s: State, t: State, op: Operation, now: nat, last: nat) {
    || (t.operation.None? && t.tick.None?)
    || (&& t.tick.None? && t.operation.Some? && Timed(t.operation.value, now)
        && t.operation.value.rollback == op.rollback && StageRank(t.operation.value, now) < StageRank(op, last))
    || (At(t, Rechecking) && t.operation.Some? && t.tick.value.op.rollback == op.rollback
        && Timed(t.tick.value.op, now))
  }

  lemma ClosePartProgress(s: State, i: TickInput, last: nat)
    requires s.tick.None? && s.operation.Some? && Timed(s.operation.value, last)
    requires last < i.now && ClockForward(i)
    ensures CloseDone(s, ClosePart(StartTick(s, true, i.now), i), s.operation.value, i.now, last)
  {
    hide ClosePart, StartTick, CloseLegs, CloseDone;
    if Closing(s.operation.value) {
      CloseLegsIs(s, i);
      CloseLegsProgress(s, i, last);
    } else {
      NoCloses(s, i);
      NoClosesProgress(s, i, last);
    }
  }

  lemma NoClosesProgress(s: State, i: TickInput, last: nat)
    requires s.tick.None? && s.operation.Some? && !Closing(s.operation.value) && Timed(s.operation.value, last)
    requires last < i.now
    ensures CloseDone(s, Goto(s, s.operation.value, Rechecking), s.operation.value, i.now, last)
  {
  }

  lemma CloseLegsProgress(s: State, i: TickInput, last: nat)
    requires s.tick.None? && s.operation.Some? && Closing(s.operation.value) && Timed(s.operation.value, last)
    requires last < i.now && ClockForward(i)
    ensures CloseDone(s, CloseLegs(s, TimedOperation(s.operation.value, i.now), i), s.operation.value, i.now, last)
  {
    hide AdvanceLeg, LegActions, StageRank, Timed;
    var op := s.operation.value;
    var timed := TimedOperation(op, i.now);
    var v := AdvanceLeg(op.video, timed.deadline, i.videoReply, i.videoNow);
    var a := AdvanceLeg(op.audio, timed.deadline, i.audioReply, i.audioNow);
    if v.LegAdvanced? && a.LegAdvanced? {
      CloseSaved(op, timed, timed.(video := v.leg, audio := a.leg), i, last);
    }
  }

  lemma CloseSaved(op: Operation, timed: Operation, saved: Operation, i: TickInput, last: nat)
    requires Closing(op) && Timed(op, last) && last < i.now && ClockForward(i)
    requires timed == if op.video.sent || op.audio.sent then op else op.(deadline := i.now + CLOSE_TIMEOUT)
    requires var v := AdvanceLeg(op.video, timed.deadline, i.videoReply, i.videoNow);
             var a := AdvanceLeg(op.audio, timed.deadline, i.audioReply, i.audioNow);
             v.LegAdvanced? && a.LegAdvanced? && saved == timed.(video := v.leg, audio := a.leg)
    ensures Timed(saved, i.now)
    ensures !BothTerminal(saved) ==> StageRank(saved, i.now) < StageRank(op, last)
  {
  }

  lemma OpenPartProgress(s: State, i: TickInput, now: nat)
    requires At(s, Rechecking) && s.operation.Some? && Timed(s.tick.value.op, now)
    ensures var t := OpenPart(s, i);
            && t.tick.None?
            && (t.operation.Some? ==>
                  && !s.tick.value.op.rollback && t.operation.value.rollback && Timed(t.operation.value, now))
  {
    var v := OpenVideo(Recheck(s), i.videoOpens);
    if v.tick.Some? {
      var a := OpenAudio(v, i.audioOpens, i.replacement);
    }
  }

  lemma IdleParts(s: State, i: TickInput)
    requires s.tick.None?
    ensures OpenPart(s, i) == s && ClosePart(s, i) == s
  {
  }

  /** A tick ends the operation or lowers its rank, whatever the peer answers. */
  lemma TickProgress(s: State, i: TickInput, last: nat)
    requires s.tick.None? && s.operation.Some? && Timed(s.operation.value, last)
    requires last < i.now && ClockForward(i)
    ensures var t := WholeTick(s, i);
            && t.tick.None?
            && (t.operation.Some? ==>
                  Timed(t.operation.value, i.now) && Rank(t.operation.value, i.now) < Rank(s.operation.value, last))
  {
    hide ClosePart, OpenPart, StartTick;
    ClosePartProgress(s, i, last);
    var c := ClosePart(StartTick(s, true, i.now), i);
    if c.tick.None? {
      IdleParts(c, i);
    } else {
      OpenPartProgress(c, i, i.now);
    }
  }

  // ------------------------------------------------------------------ all ticks

  function Ticks(s: State, inputs: seq<TickInput>): State
    decreases |inputs|
  {
    if inputs == [] then s else WholeTick(Ticks(s, inputs[..|inputs| - 1]), inputs[|inputs| - 1])
  }

  /** Ticks at strictly increasing clock readings, the first after `start`. */
  predicate Later(inputs: seq<TickInput>, start: nat) {
    && (forall k | 0 <= k < |inputs| :: ClockForward(inputs[k]) && start < inputs[k].now)
    && forall k, l | 0 <= k < l < |inputs| :: inputs[k].now < inputs[l].now
  }

  function LastNow(inputs: seq<TickInput>, start: nat): nat {
    if inputs == [] then start else inputs[|inputs| - 1].now
  }

  lemma {:induction false} TicksLowerRank(s: State, inputs: seq<TickInput>, start: nat)
    requires s.tick.None? && s.operation.Some? && Timed(s.operation.value, start) && Later(inputs, start)
    ensures var t := Ticks(s, inputs);
            && t.tick.None?
            && (t.operation.Some? ==>
                  var now := LastNow(inputs, start);
                  && Timed(t.operation.value, now)
                  && Rank(t.operation.value, now) + |inputs| <= Rank(s.operation.value, start))
    decreases |inputs|
  {
    hide Rank, Timed, WholeTick;
    if inputs != [] {
      var n := |inputs| - 1;
      TicksLowerRank(s, inputs[..n], start);
      var t := Ticks(s, inputs[..n]);
      if t.operation.Some? {
        TickProgress(t, inputs[n], LastNow(inputs[..n], start));
      } else {
        NoOperationNoTick(t, inputs[n]);
      }
    }
  }

  lemma NoOperationNoTick(s: State, i: TickInput)
    requires s.tick.None? && s.operation.None?
    ensures WholeTick(s, i) == s
  {
  }

  /** Whatever the peer answers, a pending change has ended after two rounds of ticks. */
  lemma EndsWithinTwoRounds(s: State, inputs: seq<TickInput>, start: nat)
    requires s.tick.None? && s.operation.Some? && Timed(s.operation.value, start) && Later(inputs, start)
    requires |inputs| >= 2 * ROUND
    ensures Ticks(s, inputs).operation.None?
  {
    TicksLowerRank(s, inputs, start);
    RankBounded(s.operation.value, start);
  }

  /** A request that was just accepted is timed, so the bound covers it from any moment on. */
  lemma AcceptedIsTimed(s: State, request: Request, session: Session, now: nat)
    requires s.operation.None?
    ensures var t := SetParams(s, request, session); t.operation.Some? ==> Timed(t.operation.value, now)
  {
  }

  lemma WholeTickSound(s: State, i: TickInput)
    requires Sound(s) && ReplacementIsVideo(i)
    ensures Sound(WholeTick(s, i))
  {
    hide Sound, StartTick, CloseVideo, CloseAudio, SaveCloses, Recheck, OpenVideo, OpenAudio, Complete;
    var a := StartTick(s, true, i.now);
    StartTickSound(s, true, i.now);
    var b := CloseVideo(a, i.videoReply, i.videoNow);
    CloseVideoSound(a, i.videoReply, i.videoNow);
    var c := CloseAudio(b, i.audioReply, i.audioNow);
    CloseAudioSound(b, i.audioReply, i.audioNow);
    SaveClosesSound(c);
    var d := Recheck(SaveCloses(c));
    RecheckSound(SaveCloses(c));
    OpenVideoSound(d, i.videoOpens);
    var e := OpenVideo(d, i.videoOpens);
    OpenAudioSound(e, i.audioOpens, i.replacement);
    CompleteSound(OpenAudio(e, i.audioOpens, i.replacement));
  }

  // ---------------------------------------------------------- how a change ends

  predicate LastEnds(s: State, id: nat) {
    && s.log != []
    && var last := s.log[|s.log| - 1];
    last.Ended? && last.id == id && last.rate == s.rate
  }

  /** The operation with this id is still pending, or its end is the last thing that happened. */
  predicate PendingOrEnded(s: State, id: nat) {
    if s.operation.Some? then s.operation.value.id == id && (s.tick.Some? ==> s.tick.value.op.id == id)
    else s.tick.None? && LastEnds(s, id)
  }

  lemma ClosePartEnds(s: State, i: TickInput)
    requires s.tick.None? && s.operation.Some?
    ensures var t := ClosePart(StartTick(s, true, i.now), i);
            PendingOrEnded(t, s.operation.value.id) && s.log <= t.log
  {
    hide ClosePart, StartTick, AdvanceLeg, LegActions;
    if Closing(s.operation.value) {
      CloseLegsIs(s, i);
    } else {
      NoCloses(s, i);
    }
  }

  lemma OpenPartEnds(s: State, i: TickInput, id: nat)
    requires PendingOrEnded(s, id) && (s.tick.Some? ==> At(s, Rechecking))
    ensures var t := OpenPart(s, i); PendingOrEnded(t, id) && s.log <= t.log
  {
    if s.tick.Some? {
      var v := OpenVideo(Recheck(s), i.videoOpens);
      assert PendingOrEnded(v, id) && s.log <= v.log;
      if v.tick.Some? {
        AudioEnds(v, i, id);
      }
    }
  }

  lemma AudioEnds(v: State, i: TickInput, id: nat)
    requires At(v, OpeningAudio) && PendingOrEnded(v, id)
    ensures var t := Complete(OpenAudio(v, i.audioOpens, i.replacement)); PendingOrEnded(t, id) && v.log <= t.log
  {
    var a := OpenAudio(v, i.audioOpens, i.replacement);
    assert v.log <= a.log;
  }

  lemma TickEnds(s: State, i: TickInput, id: nat)
    requires s.tick.None? && PendingOrEnded(s, id)
    ensures var t := WholeTick(s, i); PendingOrEnded(t, id) && s.log <= t.log
  {
    hide ClosePart, OpenPart, StartTick, PendingOrEnded;
    if s.operation.None? {
      NoOperationNoTick(s, i);
    } else {
      assert s.operation.value.id == id by { PendingId(s, id); }
      ClosePartEnds(s, i);
      ClosePartPlace(s, i);
      OpenPartEnds(ClosePart(StartTick(s, true, i.now), i), i, id);
    }
  }

  lemma PendingId(s: State, id: nat)
    requires PendingOrEnded(s, id) && s.operation.Some?
    ensures s.operation.value.id == id
  {
  }

  lemma ClosePartPlace(s: State, i: TickInput)
    requires s.tick.None? && s.operation.Some?
    ensures var t := ClosePart(StartTick(s, true, i.now), i); t.tick.Some? ==> At(t, Rechecking)
  {
    hide ClosePart, StartTick, AdvanceLeg, LegActions;
    if Closing(s.operation.value) {
      CloseLegsIs(s, i);
    } else {
      NoCloses(s, i);
    }
  }

  lemma {:induction false} TicksEnd(s: State, inputs: seq<TickInput>, id: nat)
    requires Sound(s) && s.tick.None? && s.operation.Some? && s.operation.value.id == id
    requires forall k | 0 <= k < |inputs| :: ReplacementIsVideo(inputs[k])
    requires forall k | 0 <= k <= |inputs| :: Ticks(s, inputs[..k]).tick.None?
    ensures var t := Ticks(s, inputs); Sound(t) && PendingOrEnded(t, id) && s.log <= t.log
    decreases |inputs|
  {
    hide Sound, WholeTick;
    if inputs != [] {
      var n := |inputs| - 1;
      assert forall k | 0 <= k <= n :: inputs[..n][..k] == inputs[..k];
      TicksEnd(s, inputs[..n], id);
      TickEnds(Ticks(s, inputs[..n]), inputs[n], id);
      WholeTickSound(Ticks(s, inputs[..n]), inputs[n]);
    }
  }

  lemma TicksIdle(s: State, inputs: seq<TickInput>, start: nat)
    requires s.tick.None? && s.operation.Some? && Timed(s.operation.value, start) && Later(inputs, start)
    ensures forall k | 0 <= k <= |inputs| :: Ticks(s, inputs[..k]).tick.None?
  {
    forall k | 0 <= k <= |inputs| ensures Ticks(s, inputs[..k]).tick.None? {
      TicksLowerRank(s, inputs[..k], start);
    }
  }

  /**
   An accepted change ends: whatever the peer answers, after two rounds of later
   ticks the last action is its end, Applied with the requested rate or otherwise
   with the rate before it, and that is the rate of the session.
   */
  lemma AcceptedChangeEnds(s: State, request: Request, session: Session, inputs: seq<TickInput>, start: nat)
    requires Sound(s) && Check(s, request, session) == Success && s.rate != Requested(request)
    requires CapturesByKind(SetParamsStep(request, session))
    requires Later(inputs, start) && |inputs| >= 2 * ROUND
    requires forall k | 0 <= k < |inputs| :: ReplacementIsVideo(inputs[k])
    ensures var t := Ticks(SetParams(s, request, session), inputs);
            && t.operation.None? && LastEnds(t, s.nextId)
            && t.rate == if t.log[|t.log| - 1].outcome == Applied then Requested(request) else s.rate
  {
    hide Ticks, Read, Later, Rank, Timed;
    var u := SetParams(s, request, session);
    SetParamsSound(s, request, session);
    AcceptedIsTimed(s, request, session, start);
    TicksIdle(u, inputs, start);
    TicksEnd(u, inputs, s.nextId);
    EndsWithinTwoRounds(u, inputs, start);
    var t := Ticks(u, inputs);
    assert t.log[|s.log|] == u.log[|s.log|];
    OutcomeRate(t.log, |s.log|, |t.log| - 1);
  }

  // ------------------------------------------------------------------ the object

  function TimedOperation(op: Operation, now: nat): Operation {
    if op.video.sent || op.audio.sent then op else op.(deadline := now + CLOSE_TIMEOUT)
  }

  /** The close part of a tick in one expression. */
  function CloseLegs(s: State, op: Operation, i: TickInput): State {
    var video := AdvanceLeg(op.video, op.deadline, i.videoReply, i.videoNow);
    var audio := AdvanceLeg(op.audio, op.deadline, i.audioReply, i.audioNow);
    var asked := s.(log := s.log + LegActions(op.id, op.video, op.deadline, i.videoReply, i.videoNow));
    if video.LegFailed? then Ending(asked, op, true)
    else
      var told := asked.(log := asked.log + LegActions(op.id, op.audio, op.deadline, i.audioReply, i.audioNow));
      if audio.LegFailed? then Ending(told, op, false)
      else
        var saved := op.(video := video.leg, audio := audio.leg);
        var t := told.(operation := Some(saved));
        if BothTerminal(saved) then Goto(t, saved, Rechecking) else t
  }

  function Ending(s: State, op: Operation, preservePrevious: bool): State {
    s.(rate := op.previous, operation := None, suppressAutoOpen := !preservePrevious,
       log := s.log + [Ended(op.id, Failed, op.previous)])
  }

  lemma CloseLegsIs(s: State, i: TickInput)
    requires s.tick.None? && s.operation.Some? && Closing(s.operation.value)
    ensures ClosePart(StartTick(s, true, i.now), i) == CloseLegs(s, TimedOperation(s.operation.value, i.now), i)
  {
    hide AdvanceLeg, LegActions, CloseVideo, CloseAudio, SaveCloses;
    var op := TimedOperation(s.operation.value, i.now);
    assert StartTick(s, true, i.now) == Goto(s, op, ClosingVideo);
    CloseVideoIs(s, op, i);
    var asked := s.(log := s.log + LegActions(op.id, op.video, op.deadline, i.videoReply, i.videoNow));
    var video := AdvanceLeg(op.video, op.deadline, i.videoReply, i.videoNow);
    if video.LegFailed? {
      NotClosing(Ending(asked, op, true), i);
    } else {
      CloseAudioIs(asked, op.(video := video.leg), i);
    }
  }

  lemma CloseVideoIs(s: State, op: Operation, i: TickInput)
    requires s.tick.None?
    ensures var asked := s.(log := s.log + LegActions(op.id, op.video, op.deadline, i.videoReply, i.videoNow));
            CloseVideo(Goto(s, op, ClosingVideo), i.videoReply, i.videoNow) ==
              match AdvanceLeg(op.video, op.deadline, i.videoReply, i.videoNow)
              case LegFailed => Ending(asked, op, true)
              case LegAdvanced(leg) => Goto(asked, op.(video := leg), ClosingAudio)
  {
    hide AdvanceLeg, LegActions;
  }

  lemma CloseAudioIs(s: State, op: Operation, i: TickInput)
    requires s.tick.None? && s.operation.Some?
    ensures var told := s.(log := s.log + LegActions(op.id, op.audio, op.deadline, i.audioReply, i.audioNow));
            SaveCloses(CloseAudio(Goto(s, op, ClosingAudio), i.audioReply, i.audioNow)) ==
              match AdvanceLeg(op.audio, op.deadline, i.audioReply, i.audioNow)
              case LegFailed => Ending(told, op, false)
              case LegAdvanced(leg) =>
                var saved := op.(audio := leg);
                var t := told.(operation := Some(saved));
                if BothTerminal(saved) then Goto(t, saved, Rechecking) else t
  {
    hide AdvanceLeg, LegActions;
  }

  lemma NotClosing(s: State, i: TickInput)
    requires s.tick.None?
    ensures SaveCloses(CloseAudio(s, i.audioReply, i.audioNow)) == s
  {
  }

  class VideoSession {
    var rate: Rate
    var operation: Option<Operation>
    var suppressAutoOpen: bool
    var nextId: nat
    var log: seq<Action>

    /** Between two ticks. */
    function View(): State
      reads this
    {
      State(rate, operation, suppressAutoOpen, nextId, None, log)
    }

    constructor ()
      ensures View() == Initial
    {
      rate, operation, suppressAutoOpen, nextId, log := None, None, false, 1, [];
    }

    /** Accepts a request, or says why not; an unchanged rate succeeds without an operation. */
    method SetParams(request: Request, session: Session) returns (status: Status)
      modifies this
      ensures status == Check(old(View()), request, session)
      ensures View() == VideoReconfigure.SetParams(old(View()), request, session)
      ensures status != Success ==> View() == old(View())
    {
      status := Check(View(), request, session);
      var requested := Requested(request);
      if status != Success || rate == requested {
        return;
      }
      operation := Some(Operation(nextId, rate, requested, Leg(session.video, false, false),
                                  Leg(session.audio, false, false), session.hasVideoParams, session.hasAudioParams,
                                  false, false, false, 0));
      log := log + [Accepted(nextId, rate, requested, session.video, session.audio,
                             session.hasVideoParams, session.hasAudioParams)];
      rate := requested;
      suppressAutoOpen := true;
      nextId := nextId + 1;
    }

    method Fail(op: Operation, preservePrevious: bool)
      modifies this
      ensures View() == Ending(old(View()), op, preservePrevious)
    {
      rate := op.previous;
      operation := None;
      suppressAutoOpen := !preservePrevious;
      log := log + [Ended(op.id, Failed, op.previous)];
    }

    /** Advances the closes; `ready` when every captured stream is closed. */
    method AdvanceCloses(i: TickInput) returns (ready: bool)
      requires operation.Some?
      modifies this
      ensures var t := CloseLegs(old(View()), TimedOperation(old(operation).value, i.now), i);
              if ready then operation.Some? && t == Goto(View(), operation.value, Rechecking) else t == View()
    {
      hide AdvanceLeg, LegActions;
      var op := operation.value;
      if !op.video.sent && !op.audio.sent {
        op := op.(deadline := i.now + CLOSE_TIMEOUT);
      }
      var video := AdvanceLeg(op.video, op.deadline, i.videoReply, i.videoNow);
      log := log + LegActions(op.id, op.video, op.deadline, i.videoReply, i.videoNow);
      if video.LegFailed? {
        Fail(op, true);
        return false;
      }
      var audio := AdvanceLeg(op.audio, op.deadline, i.audioReply, i.audioNow);
      log := log + LegActions(op.id, op.audio, op.deadline, i.audioReply, i.audioNow);
      if audio.LegFailed? {
        Fail(op, false);
        return false;
      }
      op := op.(video := video.leg, audio := audio.leg);
      operation := Some(op);
      return BothTerminal(op);
    }

    /** Reopens the video stream; `done` when the tick may go on to the audio stream. */
    method AdvanceVideo(i: TickInput) returns (done: bool)
      requires operation.Some?
      modifies this
      ensures var t := OpenVideo(Recheck(Goto(old(View()), old(operation).value, Rechecking)), i.videoOpens);
              if done then operation.Some? && t == Goto(View(), operation.value, OpeningAudio) else t == View()
    {
      var op := operation.value;
      if op.videoOpened {
        return true;
      }
      log := log + [OpenAnswered(op.id, M.Video, i.videoOpens)];
      if i.videoOpens {
        operation := Some(op.(videoOpened := true));
        return true;
      }
      if !op.rollback && (op.video.stream.Some? || op.hadVideoParams) {
        rate := op.previous;
        operation := Some(op.(rollback := true, videoOpened := false, audioOpened := false));
        log := log + [Fallback(op.id, None)];
      } else {
        Fail(op, false);
      }
      return false;
    }

    /** Reopens the audio stream if there was one, then ends the operation; or falls back, or fails. */
    method AdvanceAudio(i: TickInput)
      requires operation.Some?
      modifies this
      ensures var s := Goto(old(View()), old(operation).value, OpeningAudio);
              View() == Complete(OpenAudio(s, i.audioOpens, i.replacement))
    {
      var op := operation.value;
      if ReopensAudio(op) && !op.audioOpened {
        log := log + [OpenAnswered(op.id, M.Audio, i.audioOpens)];
        if !i.audioOpens {
          if op.rollback {
            Fail(op, false);
          } else {
            rate := op.previous;
            operation := Some(op.(rollback := true, video := Leg(i.replacement, false, i.replacement.None?),
                                  audio := Leg(None, false, true), videoOpened := false, audioOpened := false));
            log := log + [Fallback(op.id, i.replacement)];
          }
          return;
        }
      }
      operation := None;
      suppressAutoOpen := false;
      log := log + [Ended(op.id, if op.rollback then RolledBack else Applied, rate)];
    }

    /** One tick of the pump. */
    method AdvanceReconfigure(i: TickInput)
      modifies this
      ensures View() == WholeTick(old(View()), i)
    {
      hide ClosePart, StartTick, OpenVideo, OpenAudio, Complete, Recheck, CloseLegs;
      if operation.None? {
        NoOperationNoTick(View(), i);
        return;
      }
      if Closing(operation.value) {
        CloseLegsIs(View(), i);
        var closed := AdvanceCloses(i);
        if !closed {
          IdleParts(View(), i);
          return;
        }
      } else {
        NoCloses(View(), i);
      }
      var ready := AdvanceVideo(i);
      if ready {
        AdvanceAudio(i);
      } else {
        NoAudio(View(), i);
      }
    }
  }

  lemma NoAudio(s: State, i: TickInput)
    requires s.tick.None?
    ensures Complete(OpenAudio(s, i.audioOpens, i.replacement)) == s
  {
  }

  lemma NoCloses(s: State, i: TickInput)
    requires s.tick.None? && s.operation.Some? && !Closing(s.operation.value)
    ensures ClosePart(StartTick(s, true, i.now), i) == Goto(s, s.operation.value, Rechecking)
  {
  }
}

/**
 What one tick of the frame-rate change does is decided by the peer's answers and
 the clock readings of that tick: `VerdictOf` says it without the steps of the
 protocol, and a whole tick is proved to follow it. Likewise for a request.
 */
module ReconfigureVerdict {
  import opened Wrappers
  import M = MediaLifecycle
  import opened VideoReconfigure
  import opened ReconfigureRuns
  import opened ReconfigureProgress

  // -------------------------------------------------------------------- requests

  predicate RateOffered(request: Request, session: Session) {
    || request.reset || session.frameRates == []
    || (request.frameRate.Some? && request.frameRate.value in session.frameRates)
  }

  /** A request that asks for one change, on an idle session that can make it, starts it; no other does. */
  lemma RequestExact(s: State, request: Request, session: Session)
    ensures var wellFormed := (request.frameRate.Some? <==> !request.reset) && request.frameRate != Some(0);
            var wanted := if request.reset then None else request.frameRate;
            var t := SetParams(s, request, session);
            if wellFormed && session.active && s.operation.None? && RateOffered(request, session)
               && (session.video.Some? ==> session.supportsActiveReconfigure) && s.rate != wanted
            then
              && t.operation.Some? && t.rate == wanted && t.suppressAutoOpen && t.nextId == s.nextId + 1
              && t.tick == s.tick
              && var op := t.operation.value;
              && op.id == s.nextId && op.previous == s.rate && op.requested == wanted && !op.rollback
              && op.video == Leg(session.video, false, false) && op.audio == Leg(session.audio, false, false)
              && !op.videoOpened && !op.audioOpened
              && op.hadVideoParams == session.hasVideoParams && op.hadAudioParams == session.hasAudioParams
            else t == s
  {
  }

  // ----------------------------------------------------------------------- ticks

  /** A captured stream that is not known to be closed. */
  predicate Open(leg: Leg) {
    leg.stream.Some? && !leg.terminal
  }

  /** The close is refused, reported failed, or asked about in vain until the deadline. */
  predicate Breaks(leg: Leg, deadline: nat, reply: CloseReply, now: nat) {
    && Open(leg)
    && if leg.sent then now >= deadline || reply == StateFailed else reply == StateFailed || reply == CallFailed
  }

  datatype Verdict =
    | Waits
    | Fails(keepsPrevious: bool)
    | FallsBack(video: Option<Descriptor>)
    | Succeeds

  predicate AudioDue(op: Operation) {
    op.audio.stream.Some? || op.hadAudioParams
  }

  function OpenVerdict(op: Operation, i: TickInput): Verdict {
    if !op.videoOpened && !i.videoOpens then
      if op.rollback || (op.video.stream.None? && !op.hadVideoParams) then Fails(false) else FallsBack(None)
    else if AudioDue(op) && !op.audioOpened && !i.audioOpens then
      if op.rollback then Fails(false) else FallsBack(i.replacement)
    else Succeeds
  }

  /** The deadline of the closes: five seconds after the tick that sends the first of them. */
  function Deadline(op: Operation, i: TickInput): nat {
    if op.video.sent || op.audio.sent then op.deadline else i.now + 5000
  }

  function VerdictOf(op: Operation, i: TickInput): Verdict {
    if Breaks(op.video, Deadline(op, i), i.videoReply, i.videoNow) then Fails(true)
    else if Breaks(op.audio, Deadline(op, i), i.audioReply, i.audioNow) then Fails(false)
    else if Open(op.video) && i.videoReply != StateClosed then Waits
    else if Open(op.audio) && i.audioReply != StateClosed then Waits
    else OpenVerdict(op, i)
  }

  predicate Last(log: seq<Action>, a: Action) {
    log != [] && log[|log| - 1] == a
  }

  /** The state after a tick is the one its verdict calls for. */
  ghost predicate Obeys(s: State, op: Operation, verdict: Verdict, t: State) {
    && t.tick.None? && t.nextId == s.nextId
    && match verdict
       case Waits =>
         && t.operation.Some? && SameOperation(t.operation.value, op)
         && t.rate == s.rate && t.suppressAutoOpen == s.suppressAutoOpen
       case Fails(keepsPrevious) =>
         && t.operation.None? && t.rate == op.previous && t.suppressAutoOpen == !keepsPrevious
         && Last(t.log, Ended(op.id, Failed, op.previous))
       case FallsBack(video) =>
         && t.operation.Some? && t.operation.value.rollback && t.operation.value.id == op.id
         && t.operation.value.previous == op.previous
         && !t.operation.value.videoOpened && !t.operation.value.audioOpened
         && (video.Some? ==> t.operation.value.video == Leg(video, false, false))
         && (video.None? ==> !Open(t.operation.value.video)) && !Open(t.operation.value.audio)
         && t.rate == op.previous && t.suppressAutoOpen == s.suppressAutoOpen
         && Last(t.log, Fallback(op.id, video))
       case Succeeds =>
         && t.operation.None? && t.rate == s.rate && !t.suppressAutoOpen
         && Last(t.log, Ended(op.id, if op.rollback then RolledBack else Applied, s.rate))
  }

  lemma OpenPartObeys(s: State, op: Operation, i: TickInput)
    requires s.tick.None? && s.operation.Some? && !Open(op.video) && !Open(op.audio)
    ensures Obeys(s, op, OpenVerdict(op, i), OpenPart(Goto(s, op, Rechecking), i))
  {
    hide OpenAudio, Complete;
    var r := Recheck(Goto(s, op, Rechecking));
    assert r == Goto(s, op, OpeningVideo);
    var v := OpenVideo(r, i.videoOpens);
    if v.tick.None? {
      NoAudio(v, i);
    } else {
      var called := s.(log := v.log, operation := v.operation);
      assert v == Goto(called, op.(videoOpened := true), OpeningAudio);
      AudioObeys(called, op.(videoOpened := true), i);
    }
  }

  lemma AudioObeys(s: State, op: Operation, i: TickInput)
    requires s.tick.None? && s.operation.Some? && !Open(op.video) && !Open(op.audio) && op.videoOpened
    ensures Obeys(s, op, OpenVerdict(op, i),
                  Complete(OpenAudio(Goto(s, op, OpeningAudio), i.audioOpens, i.replacement)))
  {
  }

  /** The verdict of the opens does not depend on how far the closes got. */
  lemma SameOpenVerdict(a: Operation, b: Operation, i: TickInput)
    requires b == a.(video := b.video, audio := b.audio, deadline := b.deadline)
    requires b.video.stream == a.video.stream && b.audio.stream == a.audio.stream
    ensures OpenVerdict(a, i) == OpenVerdict(b, i)
  {
  }

  lemma SameObeys(s: State, u: State, a: Operation, b: Operation, verdict: Verdict, t: State)
    requires Obeys(u, b, verdict, t) && SameOperation(a, b)
    requires u.nextId == s.nextId && u.rate == s.rate && u.suppressAutoOpen == s.suppressAutoOpen
    ensures Obeys(s, a, verdict, t)
  {
  }

  /** A leg is advanced exactly as its answer says. */
  lemma LegExact(leg: Leg, deadline: nat, reply: CloseReply, now: nat)
    ensures var result := AdvanceLeg(leg, deadline, reply, now);
            && (result.LegFailed? <==> Breaks(leg, deadline, reply, now))
            && (result.LegAdvanced? ==>
                  && result.leg.stream == leg.stream
                  && (result.leg.terminal <==> !Open(leg) || reply == StateClosed))
  {
  }

  lemma CloseLegsObeys(s: State, op: Operation, i: TickInput)
    requires s.tick.None? && s.operation.Some? && op.deadline == Deadline(op, i)
    ensures Obeys(s, op, VerdictOf(op, i), OpenPart(CloseLegs(s, op, i), i))
  {
    hide AdvanceLeg, LegActions, OpenPart, OpenVerdict, Obeys, Breaks;
    var video := AdvanceLeg(op.video, op.deadline, i.videoReply, i.videoNow);
    var audio := AdvanceLeg(op.audio, op.deadline, i.audioReply, i.audioNow);
    LegExact(op.video, op.deadline, i.videoReply, i.videoNow);
    LegExact(op.audio, op.deadline, i.audioReply, i.audioNow);
    var t := CloseLegs(s, op, i);
    if t.tick.None? {
      IdleParts(t, i);
      if video.LegFailed? || audio.LegFailed? {
        EndingObeys(s, t, op, VerdictOf(op, i));
      } else {
        WaitingObeys(s, t, op);
      }
    } else {
      var saved := op.(video := video.leg, audio := audio.leg);
      var u := s.(log := t.log, operation := Some(saved));
      assert t == Goto(u, saved, Rechecking);
      OpenPartObeys(u, saved, i);
      SameOpenVerdict(op, saved, i);
      SameObeys(s, u, op, saved, OpenVerdict(op, i), OpenPart(t, i));
    }
  }

  lemma EndingObeys(s: State, t: State, op: Operation, verdict: Verdict)
    requires verdict.Fails? && s.tick.None? && t.log != []
    requires t == Ending(s.(log := t.log[..|t.log| - 1]), op, verdict.keepsPrevious)
    ensures Obeys(s, op, verdict, t)
  {
  }

  lemma WaitingObeys(s: State, t: State, op: Operation)
    requires s.tick.None? && t == s.(log := t.log, operation := t.operation)
    requires t.operation.Some? && SameOperation(t.operation.value, op)
    ensures Obeys(s, op, Waits, t)
  {
  }

  /** Whatever the state of a change, a tick does with it what the answers of that tick call for. */
  lemma TickFollowsAnswers(s: State, i: TickInput)
    requires s.tick.None? && s.operation.Some?
    ensures Obeys(s, s.operation.value, VerdictOf(s.operation.value, i), WholeTick(s, i))
  {
    hide ClosePart, OpenPart, StartTick, CloseLegs, OpenVerdict, Obeys;
    var op := s.operation.value;
    if Closing(op) {
      var timed := TimedOperation(op, i.now);
      CloseLegsIs(s, i);
      CloseLegsObeys(s, timed, i);
      SameOpenVerdict(op, timed, i);
      SameObeys(s, s, op, timed, VerdictOf(op, i), WholeTick(s, i));
    } else {
      NoCloses(s, i);
      OpenPartObeys(s, op, i);
    }
  }
}

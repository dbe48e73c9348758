/**
 The frame-rate change of a running video session: accept a request, close the
 captured video and audio streams, reopen both, and fall back to the previous
 rate at most once.

 A request and every locked region of a pump tick are separate steps; between
 two regions of a tick the operation lives in a local copy (`Tick.op`), so other
 threads may act in between. Peer replies and clock readings are inputs.
 */
module VideoReconfigure {
  import opened Wrappers
  import M = MediaLifecycle

  const CLOSE_TIMEOUT: nat := 5000

  type Rate = Option<nat>
  type Descriptor = M.Descriptor

  /** One captured stream and how far its close has come. */
  datatype Leg = Leg(stream: Option<Descriptor>, sent: bool, terminal: bool)

  datatype Operation = Operation(
    id: nat,
    previous: Rate,
    requested: Rate,
    video: Leg,
    audio: Leg,
    hadVideoParams: bool,
    hadAudioParams: bool,
    videoOpened: bool,
    audioOpened: bool,
    rollback: bool,
    deadline: nat)

  datatype Outcome = Applied | RolledBack | Failed

  /** The peer's answer to a close or a state query. */
  datatype CloseReply = CallFailed | StateFailed | StateClosed | StateOther

  /** What happened, in order, with the peer's answers. Streams are captured by `Accepted` and `Fallback`. */
  datatype Action =
    | Accepted(id: nat, previous: Rate, requested: Rate, video: Option<Descriptor>, audio: Option<Descriptor>,
               videoParams: bool, audioParams: bool)
    | CloseAnswered(id: nat, stream: Descriptor, reply: CloseReply)
    | CloseExpired(id: nat, stream: Descriptor)
    | OpenAnswered(id: nat, kind: M.Kind, success: bool)
    | Fallback(id: nat, video: Option<Descriptor>)
    | Ended(id: nat, outcome: Outcome, rate: Rate)
    | TornDown(id: nat)

  datatype Place = ClosingVideo | ClosingAudio | Saving | Rechecking | OpeningVideo | OpeningAudio | Completing

  datatype Tick = Tick(op: Operation, place: Place)

  datatype State = State(
    rate: Rate,
    operation: Option<Operation>,
    suppressAutoOpen: bool,
    nextId: nat,
    tick: Option<Tick>,
    log: seq<Action>)

  const Initial := State(None, None, false, 1, None, [])

  // ------------------------------------------------------------------- requests

  datatype Request = Request(frameRate: Option<nat>, reset: bool)

  /** What the session looks like when a request comes in. */
  datatype Session = Session(
    active: bool,
    video: Option<Descriptor>,
    audio: Option<Descriptor>,
    supportsActiveReconfigure: bool,
    frameRates: seq<nat>,
    hasVideoParams: bool,
    hasAudioParams: bool)

  datatype Status = Success | InvalidArgument | InvalidState | Busy | NotSupported | RateUnsupported

  predicate WellFormed(request: Request) {
    request.frameRate.Some? != request.reset && request.frameRate != Some(0)
  }

  function Check(s: State, request: Request, session: Session): Status {
    if !WellFormed(request) then InvalidArgument
    else if !session.active then InvalidState
    else if s.operation.Some? then Busy
    else if session.video.Some? && !session.supportsActiveReconfigure then NotSupported
    else if request.frameRate.Some? && session.frameRates != [] && request.frameRate.value !in session.frameRates
    then RateUnsupported
    else Success
  }

  function Requested(request: Request): Rate {
    if request.reset then None else request.frameRate
  }

  function SetParams(s: State, request: Request, session: Session): State {
    var requested := Requested(request);
    if Check(s, request, session) != Success || s.rate == requested then s
    else
      var op := Operation(s.nextId, s.rate, requested, Leg(session.video, false, false),
                          Leg(session.audio, false, false), session.hasVideoParams, session.hasAudioParams,
                          false, false, false, 0);
      s.(operation := Some(op), rate := requested, suppressAutoOpen := true, nextId := s.nextId + 1,
         log := s.log + [Accepted(s.nextId, s.rate, requested, session.video, session.audio,
                                  session.hasVideoParams, session.hasAudioParams)])
  }

  // ---------------------------------------------------------------------- ticks

  predicate BothTerminal(op: Operation) {
    op.video.terminal && op.audio.terminal
  }

  predicate HasTargets(op: Operation) {
    op.video.stream.Some? || op.audio.stream.Some?
  }

  function StartTick(s: State, clientOpen: bool, now: nat): State {
    if s.tick.Some? || s.operation.None? || !clientOpen then s
    else
      var op := s.operation.value;
      if HasTargets(op) && !BothTerminal(op) then
        var timed := if op.video.sent || op.audio.sent then op else op.(deadline := now + CLOSE_TIMEOUT);
        s.(tick := Some(Tick(timed, ClosingVideo)))
      else s.(tick := Some(Tick(op, Rechecking)))
  }

  predicate At(s: State, place: Place) {
    s.tick.Some? && s.tick.value.place == place
  }

  function Goto(s: State, op: Operation, place: Place): State {
    s.(tick := Some(Tick(op, place)))
  }

  function FinishFailed(s: State, preservePrevious: bool): State
    requires s.tick.Some?
  {
    var op := s.tick.value.op;
    s.(rate := op.previous, operation := None, suppressAutoOpen := !preservePrevious, tick := None,
       log := s.log + [Ended(op.id, Failed, op.previous)])
  }

  datatype LegResult = LegFailed | LegAdvanced(leg: Leg)

  function AdvanceLeg(leg: Leg, deadline: nat, reply: CloseReply, now: nat): LegResult {
    if leg.stream.None? || leg.terminal then LegAdvanced(leg.(terminal := true))
    else if leg.sent && now >= deadline then LegFailed
    else if reply == StateFailed || (!leg.sent && reply == CallFailed) then LegFailed
    else LegAdvanced(leg.(sent := true, terminal := reply == StateClosed))
  }

  /** What the log learns when a leg is advanced: the answer, or that time is up. */
  function LegActions(id: nat, leg: Leg, deadline: nat, reply: CloseReply, now: nat): seq<Action> {
    if leg.stream.None? || leg.terminal then []
    else if leg.sent && now >= deadline then [CloseExpired(id, leg.stream.value)]
    else [CloseAnswered(id, leg.stream.value, reply)]
  }

  function CloseVideo(s: State, reply: CloseReply, now: nat): State {
    if !At(s, ClosingVideo) then s
    else
      var op := s.tick.value.op;
      var told := s.(log := s.log + LegActions(op.id, op.video, op.deadline, reply, now));
      match AdvanceLeg(op.video, op.deadline, reply, now)
      case LegFailed => FinishFailed(told, true)
      case LegAdvanced(leg) => Goto(told, op.(video := leg), ClosingAudio)
  }

  function CloseAudio(s: State, reply: CloseReply, now: nat): State {
    if !At(s, ClosingAudio) then s
    else
      var op := s.tick.value.op;
      var told := s.(log := s.log + LegActions(op.id, op.audio, op.deadline, reply, now));
      match AdvanceLeg(op.audio, op.deadline, reply, now)
      case LegFailed => FinishFailed(told, false)
      case LegAdvanced(leg) => Goto(told, op.(audio := leg), Saving)
  }

  /** Writes the local copy back, if there still is an operation. */
  function Store(s: State, op: Operation): State {
    if s.operation.Some? then s.(operation := Some(op)) else s
  }

  function SaveCloses(s: State): State {
    if !At(s, Saving) then s
    else
      var op := s.tick.value.op;
      if BothTerminal(op) then Goto(Store(s, op), op, Rechecking) else Store(s, op).(tick := None)
  }

  function Recheck(s: State): State {
    if !At(s, Rechecking) then s
    else if s.operation.None? then s.(tick := None)
    else Goto(s, s.tick.value.op, OpeningVideo)
  }

  function OpenVideo(s: State, success: bool): State {
    if !At(s, OpeningVideo) then s
    else
      var op := s.tick.value.op;
      var called := s.(log := s.log + [OpenAnswered(op.id, M.Video, success)]);
      if op.videoOpened then Goto(s, op, OpeningAudio)
      else if success then
        var next := op.(videoOpened := true);
        Goto(Store(called, next), next, OpeningAudio)
      else if !op.rollback && (op.video.stream.Some? || op.hadVideoParams) then
        if s.operation.None? then called.(tick := None)
        else called.(rate := op.previous, tick := None,
                     operation := Some(op.(rollback := true, videoOpened := false, audioOpened := false)),
                     log := called.log + [Fallback(op.id, None)])
      else FinishFailed(called, false)
  }

  predicate ReopensAudio(op: Operation) {
    op.audio.stream.Some? || op.hadAudioParams
  }

  /** `replacement` is the video stream found open when the audio open failed. */
  function OpenAudio(s: State, success: bool, replacement: Option<Descriptor>): State {
    if !At(s, OpeningAudio) then s
    else
      var op := s.tick.value.op;
      if !ReopensAudio(op) || op.audioOpened then Goto(s, op, Completing)
      else
        var called := s.(log := s.log + [OpenAnswered(op.id, M.Audio, success)]);
        if success then Goto(called, op.(audioOpened := true), Completing)
        else if op.rollback then FinishFailed(called, false)
        else if s.operation.None? then called.(tick := None)
        else
          var back := op.(rollback := true, video := Leg(replacement, false, replacement.None?),
                          audio := Leg(None, false, true), videoOpened := false, audioOpened := false);
          called.(rate := op.previous, tick := None, operation := Some(back),
                  log := called.log + [Fallback(op.id, replacement)])
  }

  function Complete(s: State): State {
    if !At(s, Completing) then s
    else
      var op := s.tick.value.op;
      s.(operation := None, suppressAutoOpen := false, tick := None,
         log := s.log + [Ended(op.id, if op.rollback then RolledBack else Applied, s.rate)])
  }

  /** The physical session went away. */
  function TearDown(s: State): State {
    s.(rate := None, operation := None, suppressAutoOpen := false,
       log := s.log + (if s.operation.Some? then [TornDown(s.operation.value.id)] else []))
  }

  /** A session opens with the configured rate. */
  function OpenSession(s: State, configured: Rate): State {
    s.(rate := configured, suppressAutoOpen := false)
  }

  // ----------------------------------------------------------------------- runs

  datatype Step =
    | SetParamsStep(request: Request, session: Session)
    | StartTickStep(clientOpen: bool, now: nat)
    | CloseVideoStep(reply: CloseReply, now: nat)
    | CloseAudioStep(reply: CloseReply, now: nat)
    | SaveClosesStep
    | RecheckStep
    | OpenVideoStep(success: bool)
    | OpenAudioStep(success: bool, replacement: Option<Descriptor>)
    | CompleteStep
    | TearDownStep
    | OpenSessionStep(configured: Rate)

  function Apply(s: State, step: Step): State {
    match step
    case SetParamsStep(r, session) => SetParams(s, r, session)
    case StartTickStep(open, now) => StartTick(s, open, now)
    case CloseVideoStep(reply, now) => CloseVideo(s, reply, now)
    case CloseAudioStep(reply, now) => CloseAudio(s, reply, now)
    case SaveClosesStep => SaveCloses(s)
    case RecheckStep => Recheck(s)
    case OpenVideoStep(ok) => OpenVideo(s, ok)
    case OpenAudioStep(ok, replacement) => OpenAudio(s, ok, replacement)
    case CompleteStep => Complete(s)
    case TearDownStep => TearDown(s)
    case OpenSessionStep(configured) => OpenSession(s, configured)
  }

  function Execute(s: State, steps: seq<Step>): State
    decreases |steps|
  {
    if steps == [] then s else Apply(Execute(s, steps[..|steps| - 1]), steps[|steps| - 1])
  }

  // --------------------------------------------------------------- whole ticks

  /** Everything a tick learns from the outside; the clock is read up to three times. */
  datatype TickInput = TickInput(
    now: nat,
    videoReply: CloseReply,
    videoNow: nat,
    audioReply: CloseReply,
    audioNow: nat,
    videoOpens: bool,
    audioOpens: bool,
    replacement: Option<Descriptor>)

  function ClosePart(s: State, i: TickInput): State {
    SaveCloses(CloseAudio(CloseVideo(s, i.videoReply, i.videoNow), i.audioReply, i.audioNow))
  }

  function OpenPart(s: State, i: TickInput): State {
    Complete(OpenAudio(OpenVideo(Recheck(s), i.videoOpens), i.audioOpens, i.replacement))
  }

  /** A tick nobody interrupts; steps that are not due leave the state alone. */
  function WholeTick(s: State, i: TickInput): State {
    OpenPart(ClosePart(StartTick(s, true, i.now), i), i)
  }
}

/**
 Media streams of one device: the leaf adapter's stream table, its ingress and
 dispatch queues, the open in flight and the logical lease binding.

 Four parties take steps. The session owner polls the peer, opens and closes
 streams and commits frames; the dispatcher hands queued items to the callbacks;
 the host binds and unbinds the lease. A step is one locked region, so the
 owner's publications come in two halves: the stream table changes first, the
 events are queued later (`staged`). A recovery worker does the same without
 owning the session (`racing`). Peer replies are arbitrary inputs.
 */
module MediaLifecycle {
  import opened Wrappers
  import opened Ordering

  datatype Kind = Unknown | Video | Audio

  datatype Descriptor = Descriptor(stream: nat, generation: nat, kind: Kind, source: string)

  datatype Event = Opened(descriptor: Descriptor) | Closed(descriptor: Descriptor)

  /** `arrival` numbers frames in the order the owner received them; `session` "" is unbound. */
  datatype Frame = Frame(stream: nat, generation: nat, kind: Kind, session: string, epoch: nat, arrival: nat)

  datatype Item = Lifecycle(event: Event) | Media(frame: Frame)

  /** A terminal source-state event; `source` "" and `stream` 0 mean absent. */
  datatype SourceEvent = SourceEvent(kind: Kind, source: string, stream: nat)

  /** An open between its start and its response, or between its response and its guard's end. */
  datatype Opening = Idle | InFlight(kind: Kind) | Settled(kind: Kind)

  datatype Config = Config(videoSource: string, audioSource: string)

  datatype State = State(
    config: Config,
    active: map<nat, Descriptor>,
    generations: map<nat, nat>,
    staged: seq<Event>,
    racing: seq<Event>,
    ingress: seq<Frame>,
    batch: seq<Frame>,
    dispatch: seq<Item>,
    hand: Option<Frame>,
    log: seq<Item>,
    arrivals: nat,
    opening: Opening,
    candidates: set<nat>,
    terminal: set<Kind>,
    orphans: seq<(Kind, nat)>,
    reconfiguring: bool,
    session: Option<string>,
    epoch: nat)

  function Initial(config: Config): State {
    State(config, map[], map[], [], [], [], [], [], None, [], 0, Idle, {}, {}, [], false, None, 1)
  }

  /** The owner is not in the middle of a publication or a commit. */
  predicate OwnerFree(s: State) {
    s.staged == [] && s.batch == []
  }

  // ------------------------------------------------------------- opening a stream

  function BeginOpen(s: State, kind: Kind, fromReconfigure: bool): State {
    if !OwnerFree(s) || s.opening != Idle || kind == Unknown then s
    else if (!fromReconfigure && s.reconfiguring) || kind in s.terminal then s
    else s.(opening := InFlight(kind))
  }

  function Generation(s: State, stream: nat): nat {
    if stream in s.generations then s.generations[stream] else 0
  }

  function Publish(s: State, d: Descriptor): State {
    s.(generations := s.generations[d.stream := d.generation],
       active := s.active[d.stream := d],
       staged := (if d.stream in s.active then [Closed(s.active[d.stream])] else []) + [Opened(d)],
       terminal := s.terminal - {d.kind})
  }

  /** The peer answered with `stream`: publish it, or leave one orphan close behind. */
  function OpenReturns(s: State, stream: nat, source: string): State {
    if !OwnerFree(s) || !s.opening.InFlight? || stream == 0 then s
    else
      var kind := s.opening.kind;
      var named := s.(opening := Settled(kind), candidates := {},
                      terminal := s.terminal + (if stream in s.candidates then {kind} else {}));
      if kind in named.terminal then named.(orphans := s.orphans + [(kind, stream)])
      else Publish(named, Descriptor(stream, Generation(s, stream) + 1, kind, source))
  }

  /** The open failed; a terminal failure also stops automatic retries. */
  function OpenFails(s: State, terminal: bool): State {
    if !OwnerFree(s) || !s.opening.InFlight? then s
    else s.(opening := Settled(s.opening.kind),
            terminal := s.terminal + (if terminal then {s.opening.kind} else {}))
  }

  function EndOpen(s: State): State {
    if !OwnerFree(s) || !s.opening.Settled? then s else s.(opening := Idle, candidates := {})
  }

  // ------------------------------------------------------------- closing streams

  function ConfiguredSource(s: State, kind: Kind): string {
    if kind == Video then s.config.videoSource else s.config.audioSource
  }

  function EventSource(s: State, event: SourceEvent): string {
    if event.source == "" then ConfiguredSource(s, event.kind) else event.source
  }

  predicate Relevant(s: State, event: SourceEvent) {
    && event.kind != Unknown && !s.reconfiguring
    && (ConfiguredSource(s, event.kind) == "" || EventSource(s, event) == ConfiguredSource(s, event.kind))
  }

  predicate Matches(s: State, event: SourceEvent, d: Descriptor) {
    d.kind == event.kind && (EventSource(s, event) == "" || d.source == EventSource(s, event))
  }

  function LeastId(ids: set<nat>): (id: nat)
    requires ids != {}
    ensures id in ids && forall other | other in ids :: id <= other
  {
    IdOrder();
    HasLeast(ids, IdLess);
    var id :| id in ids && IsLeast(id, ids, IdLess);
    assert forall other | other in ids && other != id :: IdLess(id, other);
    id
  }

  /** The active stream a terminal event closes: the one it names, or the first of its kind and source. */
  function TerminalMatch(s: State, event: SourceEvent): Option<nat> {
    if event.stream != 0 then
      if event.stream in s.active && Matches(s, event, s.active[event.stream]) then Some(event.stream) else None
    else
      var ids := set id | id in s.active && Matches(s, event, s.active[id]);
      if ids == {} then None else Some(LeastId(ids))
  }

  predicate Foreign(s: State, event: SourceEvent) {
    event.stream != 0 && TerminalMatch(s, event).None?
  }

  function TerminalEvent(s: State, event: SourceEvent): State {
    if !OwnerFree(s) || s.opening.Settled? || !Relevant(s, event) then s
    else if Foreign(s, event) then
      if s.opening == InFlight(event.kind) then s.(candidates := s.candidates + {event.stream}) else s
    else
      var t := s.(terminal := s.terminal + {event.kind});
      match TerminalMatch(s, event)
      case Some(id) => t.(active := s.active - {id}, staged := [Closed(s.active[id])])
      case None => t
  }

  /** The source streams again: automatic opens of its kind are allowed. */
  function StreamableEvent(s: State, kind: Kind): State {
    if !OwnerFree(s) || s.opening != Idle || s.reconfiguring then s else s.(terminal := s.terminal - {kind})
  }

  /**
   Closes each captured descriptor whose generation is still the active one. An id
   and a generation name one descriptor (`GenerationNamesOneDescriptor`), so the
   active descriptor is the captured one.
   */
  function CloseCaptured(active: map<nat, Descriptor>, captured: seq<Descriptor>)
    : (map<nat, Descriptor>, seq<Event>)
  {
    if captured == [] then (active, [])
    else
      var (left, events) := CloseCaptured(active, captured[..|captured| - 1]);
      var d := captured[|captured| - 1];
      if d.stream in left && left[d.stream].generation == d.generation
      then (left - {d.stream}, events + [Closed(left[d.stream])]) else (left, events)
  }

  function ClosePrevious(s: State, captured: seq<Descriptor>): State {
    if !OwnerFree(s) || s.opening != Idle then s
    else
      var (left, events) := CloseCaptured(s.active, captured);
      s.(active := left, staged := events)
  }

  function Closes(streams: map<nat, Descriptor>, ids: seq<nat>, n: nat): seq<Event>
    requires n <= |ids| && forall id | id in ids :: id in streams
  {
    if n == 0 then [] else Closes(streams, ids, n - 1) + [Closed(streams[ids[n - 1]])]
  }

  function CloseAll(streams: map<nat, Descriptor>): seq<Event> {
    Closes(streams, Ids(streams), |Ids(streams)|)
  }

  function Forget(s: State): State {
    s.(active := map[], terminal := {}, candidates := {}, orphans := [])
  }

  /** The session is torn down with its pump stopped. */
  function Clear(s: State): State {
    if !OwnerFree(s) || s.opening != Idle then s else Forget(s).(staged := CloseAll(s.active))
  }

  // The recovery worker clears the streams while another thread may own the session:
  // it empties the table, queues the Closed events, and then forgets the rest.

  function RacingTake(s: State): State {
    if s.racing != [] then s else s.(active := map[], racing := CloseAll(s.active))
  }

  function RacingPush(s: State): State {
    s.(dispatch := s.dispatch + AsItems(s.racing), racing := [])
  }

  function RacingForget(s: State): State {
    s.(terminal := {}, candidates := {}, orphans := [])
  }

  function AsItems(events: seq<Event>): seq<Item> {
    seq(|events|, i requires 0 <= i < |events| => Lifecycle(events[i]))
  }

  function EnqueueStaged(s: State): State {
    s.(dispatch := s.dispatch + AsItems(s.staged), staged := [])
  }

  function RunOrphanCloses(s: State): State {
    if !OwnerFree(s) || s.opening != Idle then s else s.(orphans := [])
  }

  function SetReconfiguring(s: State, on: bool): State {
    s.(reconfiguring := on)
  }

  // ------------------------------------------------------------------- frames

  /** The kind a legacy stream id stands for when no descriptor was ever opened under it. */
  function LegacyKind(stream: nat): Kind {
    if (stream / 0x1000) % 0x10 == 1 then Video
    else if (stream / 0x1000) % 0x10 == 2 then Audio
    else Unknown
  }

  function Stamp(s: State, stream: nat, token: nat): Frame {
    var session := if s.session.Some? then s.session.value else "";
    if stream in s.active then
      Frame(stream, s.active[stream].generation, s.active[stream].kind, session, token, s.arrivals)
    else if stream in s.generations then
      Frame(stream, s.generations[stream], Unknown, session, token, s.arrivals)
    else Frame(stream, 0, LegacyKind(stream), session, token, s.arrivals)
  }

  function Ingress(s: State, stream: nat, token: nat): State {
    if !OwnerFree(s) || s.opening.Settled? then s
    else s.(ingress := s.ingress + [Stamp(s, stream, token)], arrivals := s.arrivals + 1)
  }

  predicate Fenced(opening: Opening, kind: Kind) {
    opening != Idle && (kind == Unknown || kind == opening.kind)
  }

  function Select(frames: seq<Frame>, opening: Opening, fenced: bool): seq<Frame> {
    if frames == [] then []
    else Select(frames[..|frames| - 1], opening, fenced)
         + (if Fenced(opening, frames[|frames| - 1].kind) == fenced then [frames[|frames| - 1]] else [])
  }

  function CommitTake(s: State, sourceEventsPending: bool): State {
    if !OwnerFree(s) || sourceEventsPending then s
    else s.(batch := Select(s.ingress, s.opening, false), ingress := Select(s.ingress, s.opening, true))
  }

  function AsFrames(frames: seq<Frame>): seq<Item> {
    seq(|frames|, i requires 0 <= i < |frames| => Media(frames[i]))
  }

  function CommitPush(s: State): State {
    s.(dispatch := s.dispatch + AsFrames(s.batch), batch := [])
  }

  function Pop(s: State): State {
    if s.hand.Some? || s.dispatch == [] then s
    else
      var item, rest := s.dispatch[0], s.dispatch[1..];
      match item
      case Lifecycle(_) => s.(dispatch := rest, log := s.log + [item])
      case Media(f) => s.(dispatch := rest, hand := Some(f))
  }

  predicate BindingCurrent(s: State, f: Frame) {
    match s.session
    case None => f.session == "" && f.epoch == 0
    case Some(id) => f.session != "" && f.session == id && f.epoch != 0 && f.epoch == s.epoch
  }

  predicate IsCurrent(s: State, f: Frame) {
    && BindingCurrent(s, f)
    && (f.generation == 0 || (f.stream in s.active && s.active[f.stream].generation == f.generation))
  }

  function Deliver(s: State): State {
    match s.hand
    case None => s
    case Some(f) => s.(hand := None, log := if IsCurrent(s, f) then s.log + [Media(f)] else s.log)
  }

  // ------------------------------------------------------------------- binding

  /** The provenance token stamped on a payload when the peer's bytes are decoded. */
  function IngressToken(s: State): nat {
    if s.session.Some? then s.epoch else 0
  }

  function Bind(s: State, session: string): State {
    s.(epoch := s.epoch + 1, session := Some(session))
  }

  function Unbind(s: State, session: string): State {
    if s.session == Some(session) then s.(epoch := s.epoch + 1, session := None) else s
  }

  function ResetBinding(s: State): State {
    if s.session.Some? then s.(epoch := s.epoch + 1, session := None) else s
  }

  function DropIngress(s: State): State {
    s.(ingress := [])
  }

  function LifecycleOnly(items: seq<Item>): seq<Item> {
    if items == [] then []
    else LifecycleOnly(items[..|items| - 1])
         + (if items[|items| - 1].Lifecycle? then [items[|items| - 1]] else [])
  }

  function DropDispatch(s: State): State {
    s.(dispatch := LifecycleOnly(s.dispatch))
  }

  // ------------------------------------------------------------------- runs

  datatype Step =
    | BeginOpenStep(kind: Kind, fromReconfigure: bool)
    | OpenReturnsStep(stream: nat, source: string)
    | OpenFailsStep(terminal: bool)
    | EndOpenStep
    | TerminalStep(event: SourceEvent)
    | StreamableStep(kind: Kind)
    | ClosePreviousStep(captured: seq<Descriptor>)
    | ClearStep
    | RacingTakeStep
    | RacingPushStep
    | RacingForgetStep
    | EnqueueStep
    | RunOrphansStep
    | ReconfigureStep(on: bool)
    | IngressStep(stream: nat, token: nat)
    | CommitTakeStep(sourceEventsPending: bool)
    | CommitPushStep
    | PopStep
    | DeliverStep
    | BindStep(session: string)
    | UnbindStep(session: string)
    | ResetBindingStep
    | DropIngressStep
    | DropDispatchStep

  function Apply(s: State, step: Step): State {
    match step
    case BeginOpenStep(k, r) => BeginOpen(s, k, r)
    case OpenReturnsStep(id, src) => OpenReturns(s, id, src)
    case OpenFailsStep(t) => OpenFails(s, t)
    case EndOpenStep => EndOpen(s)
    case TerminalStep(e) => TerminalEvent(s, e)
    case StreamableStep(k) => StreamableEvent(s, k)
    case ClosePreviousStep(ds) => ClosePrevious(s, ds)
    case ClearStep => Clear(s)
    case RacingTakeStep => RacingTake(s)
    case RacingPushStep => RacingPush(s)
    case RacingForgetStep => RacingForget(s)
    case EnqueueStep => EnqueueStaged(s)
    case RunOrphansStep => RunOrphanCloses(s)
    case ReconfigureStep(on) => SetReconfiguring(s, on)
    case IngressStep(id, t) => Ingress(s, id, t)
    case CommitTakeStep(p) => CommitTake(s, p)
    case CommitPushStep => CommitPush(s)
    case PopStep => Pop(s)
    case DeliverStep => Deliver(s)
    case BindStep(id) => Bind(s, id)
    case UnbindStep(id) => Unbind(s, id)
    case ResetBindingStep => ResetBinding(s)
    case DropIngressStep => DropIngress(s)
    case DropDispatchStep => DropDispatch(s)
  }

  function Execute(s: State, steps: seq<Step>): State
    decreases |steps|
  {
    if steps == [] then s else Apply(Execute(s, steps[..|steps| - 1]), steps[|steps| - 1])
  }
}

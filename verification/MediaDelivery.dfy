/**
 What becomes of each frame the leaf adapter receives. A frame is in exactly one
 place from its arrival on, until a step loses it: the queues are dropped with a
 lease, or the delivery check finds it out of date. The check is exact: a frame
 is handed out if and only if it would be stamped the same way now.
 */
module MediaDelivery {
  import opened Wrappers
  import opened MediaLifecycle
  import opened MediaEvents
  import opened MediaConsistency
  import opened MediaRuns
  import opened MediaOrder
  import opened MediaFences

  // -------------------------------------------------------------- the delivery check

  function LeaseName(s: State): string {
    if s.session.Some? then s.session.value else ""
  }

  /** Lease and token are those a frame received now would get; a lease without a name never passes. */
  predicate SameBinding(s: State, f: Frame) {
    f.session == LeaseName(s) && f.epoch == IngressToken(s) && s.session != Some("")
  }

  /** The frame's stream is open at the frame's generation, or no stream was ever opened under its id. */
  predicate SameStream(s: State, f: Frame) {
    f.generation == 0 || (f.stream in s.active && s.active[f.stream].generation == f.generation)
  }

  predicate Passes(s: State, f: Frame) {
    SameBinding(s, f) && SameStream(s, f)
  }

  lemma CurrentExact(s: State, f: Frame)
    requires s.epoch > 0
    ensures IsCurrent(s, f) <==> Passes(s, f)
  {
  }

  lemma EpochPositive(config: Config, steps: seq<Step>)
    ensures Execute(Initial(config), steps).epoch > 0
  {
    ExecuteEpoch(Initial(config), steps);
  }

  /**
   On every race-free run a held frame is handed out if and only if its lease and
   token are the present ones and its generation is zero or is the one left open
   by all events handed out, queued and on their way.
   */
  lemma HeldFrameExact(config: Config, steps: seq<Step>, f: Frame)
    requires RaceFree(Initial(config), steps) && Execute(Initial(config), steps).hand == Some(f)
    ensures var s := Execute(Initial(config), steps);
            var life := Replay(NoLife, Emitted(s) + Unqueued(s));
            && life.Some?
            && Deliver(s).hand == None
            && Deliver(s).log ==
                 s.log + if SameBinding(s, f) && (f.generation == 0 || (&& f.stream in life.value.open
                                                                        && life.value.open[f.stream].generation
                                                                           == f.generation))
                         then [Media(f)] else []
  {
    hide Execute, RaceFree, FramesBacked, LegalLog, OpensLast, AllClosed, Replay, IsCurrent, SameBinding;
    InitialConsistent(config);
    ExecuteConsistent(Initial(config), steps);
    EpochPositive(config, steps);
    CurrentExact(Execute(Initial(config), steps), f);
  }

  /**
   On every race-free run a frame is stamped with the last generation opened under
   its id, zero if there was none; its kind is that of the open stream, unknown if
   the stream is closed, and the legacy kind of an id never opened.
   */
  lemma StampExact(config: Config, steps: seq<Step>, stream: nat, token: nat)
    requires RaceFree(Initial(config), steps)
    ensures var s := Execute(Initial(config), steps);
            var f := Stamp(s, stream, token);
            && f.stream == stream && f.epoch == token && f.session == LeaseName(s) && f.arrival == s.arrivals
            && f.generation == Generation(s, stream)
            && (stream in s.active ==> f.kind == s.active[stream].kind && f.generation > 0)
            && (stream !in s.active && stream in s.generations ==> f.kind == Unknown)
            && (stream !in s.generations ==> f.kind == LegacyKind(stream))
  {
    hide Execute, RaceFree, FramesBacked, LegalLog, OpensLast, AllClosed, Replay;
    InitialConsistent(config);
    ExecuteConsistent(Initial(config), steps);
    TableKeyed(Execute(Initial(config), steps));
  }

  // --------------------------------------------------------------------- counting

  /** How often the arrival number occurs among the frames. */
  function Tally(frames: seq<Frame>, n: nat): nat {
    multiset(Arrivals(frames, Unknown))[n] + multiset(Arrivals(frames, Video))[n] + multiset(Arrivals(frames, Audio))[n]
  }

  lemma TallyConcat(a: seq<Frame>, b: seq<Frame>, n: nat)
    ensures Tally(a + b, n) == Tally(a, n) + Tally(b, n)
  {
    hide Arrivals;
    ArrivalsConcat(a, b, Unknown);
    ArrivalsConcat(a, b, Video);
    ArrivalsConcat(a, b, Audio);
  }

  lemma TallyOne(f: Frame, n: nat)
    ensures Tally([f], n) == if f.arrival == n then 1 else 0
    ensures Tally([], n) == 0
  {
    hide Arrivals;
    ArrivalsOne(f, Unknown);
    ArrivalsOne(f, Video);
    ArrivalsOne(f, Audio);
    ArrivalsNone(Unknown);
    ArrivalsNone(Video);
    ArrivalsNone(Audio);
  }

  /** The step loses the frame with this number. */
  predicate Loses(s: State, step: Step, n: nat) {
    match step
    case DropIngressStep => Tally(s.ingress, n) > 0
    case DropDispatchStep => Tally(FramesOf(s.dispatch), n) > 0
    case DeliverStep => s.hand.Some? && s.hand.value.arrival == n && !Passes(s, s.hand.value)
    case _ => false
  }

  predicate Lost(s: State, steps: seq<Step>, n: nat)
    decreases |steps|
  {
    steps != [] &&
    var k := |steps| - 1;
    Lost(s, steps[..k], n) || Loses(Execute(s, steps[..k]), steps[k], n)
  }

  /** The owner takes the payload on. */
  predicate Receives(s: State, step: Step) {
    step.IngressStep? && s.staged == [] && s.batch == [] && !s.opening.Settled?
  }

  function Received(s: State, steps: seq<Step>): nat
    decreases |steps|
  {
    if steps == [] then 0
    else
      var k := |steps| - 1;
      Received(s, steps[..k]) + if Receives(Execute(s, steps[..k]), steps[k]) then 1 else 0
  }

  /** How a step changes the number of places a frame is in. */
  ghost predicate StepCounts(s: State, step: Step, t: State, n: nat) {
    && t.arrivals == s.arrivals + (if Receives(s, step) then 1 else 0)
    && Tally(Pipeline(t), n) + (if Loses(s, step, n) then 1 else 0)
       == Tally(Pipeline(s), n) + (if Receives(s, step) && n == s.arrivals then 1 else 0)
  }

  lemma SameOrderCounts(s: State, step: Step, t: State, n: nat)
    requires SameOrder(s, t)
    requires !step.IngressStep? && !step.DeliverStep? && !step.DropIngressStep? && !step.DropDispatchStep?
    ensures StepCounts(s, step, t, n)
  {
    hide Arrivals, Pipeline;
  }

  lemma PipelineTally(s: State, n: nat)
    ensures Tally(Pipeline(s), n)
            == Tally(FramesOf(s.log), n) + Tally(InHand(s), n) + Tally(FramesOf(s.dispatch), n)
               + Tally(s.batch, n) + Tally(s.ingress, n)
  {
    hide Tally, FramesOf, InHand;
    TallyConcat(s.batch, s.ingress, n);
    TallyConcat(FramesOf(s.dispatch), s.batch + s.ingress, n);
    TallyConcat(InHand(s), FramesOf(s.dispatch) + (s.batch + s.ingress), n);
    TallyConcat(FramesOf(s.log), InHand(s) + (FramesOf(s.dispatch) + (s.batch + s.ingress)), n);
  }

  lemma IngressCounts(s: State, stream: nat, token: nat, n: nat)
    ensures StepCounts(s, IngressStep(stream, token), Ingress(s, stream, token), n)
  {
    hide Tally, Pipeline, FramesOf;
    var t, f := Ingress(s, stream, token), Stamp(s, stream, token);
    PipelineTally(s, n);
    PipelineTally(t, n);
    TallyConcat(s.ingress, [f], n);
    TallyOne(f, n);
  }

  lemma DropCounts(s: State, n: nat)
    requires Tally(Pipeline(s), n) <= 1
    ensures StepCounts(s, DropIngressStep, DropIngress(s), n)
    ensures StepCounts(s, DropDispatchStep, DropDispatch(s), n)
  {
    hide Tally, Pipeline, FramesOf, LifecycleOnly;
    PipelineTally(s, n);
    PipelineTally(DropIngress(s), n);
    PipelineTally(DropDispatch(s), n);
    TallyOne(Frame(0, 0, Unknown, "", 0, 0), n);
    LifecycleOnlyHasNoFrames(s.dispatch);
  }

  lemma DeliverCounts(s: State, n: nat)
    requires s.epoch > 0
    ensures StepCounts(s, DeliverStep, Deliver(s), n)
  {
    hide Tally, Pipeline, FramesOf, IsCurrent, Passes;
    var t := Deliver(s);
    PipelineTally(s, n);
    PipelineTally(t, n);
    if s.hand.Some? {
      var f := s.hand.value;
      CurrentExact(s, f);
      TallyOne(f, n);
      FramesOfConcat(s.log, [Media(f)]);
      FramesOfOne(Media(f));
      TallyConcat(FramesOf(s.log), [f], n);
    }
  }

  lemma ApplyCounts(s: State, step: Step, n: nat)
    requires Tally(Pipeline(s), n) <= 1 && s.epoch > 0
    ensures StepCounts(s, step, Apply(s, step), n)
  {
    hide StepCounts, Tally, Pipeline, SameOrder, CommitTake, CommitPush, Pop, Deliver, DropIngress, DropDispatch,
         Ingress, CloseAll, BeginOpen, OpenReturns, OpenFails, EndOpen, TerminalEvent, StreamableEvent, ClosePrevious,
         Clear, RacingTake, RacingForget, RunOrphanCloses, SetReconfiguring, Bind, Unbind, ResetBinding;
    match step
    case CommitTakeStep(p) => CommitTakeSameOrder(s, p); SameOrderCounts(s, step, CommitTake(s, p), n);
    case CommitPushStep => CommitPushSameOrder(s); SameOrderCounts(s, step, CommitPush(s), n);
    case PopStep => PopSameOrder(s); SameOrderCounts(s, step, Pop(s), n);
    case DeliverStep => DeliverCounts(s, n);
    case DropIngressStep => DropCounts(s, n);
    case DropDispatchStep => DropCounts(s, n);
    case IngressStep(id, token) => IngressCounts(s, id, token, n);
    case EnqueueStep =>
      QueueEventsSameOrder(s, EnqueueStaged(s), s.staged);
      SameOrderCounts(s, step, EnqueueStaged(s), n);
    case RacingPushStep =>
      QueueEventsSameOrder(s, RacingPush(s), s.racing);
      SameOrderCounts(s, step, RacingPush(s), n);
    case _ => OthersSameOrder(s, step); SameOrderCounts(s, step, Apply(s, step), n);
  }

  /**
   On every run, races included: the frames are numbered as they are received, and
   each number is in exactly one place (waiting, held or handed out) if and only
   if no step has lost it; a lost frame is in none.
   */
  lemma {:induction false} EveryFrameAccounted(config: Config, steps: seq<Step>, n: nat)
    ensures var s := Execute(Initial(config), steps);
            && s.arrivals == Received(Initial(config), steps)
            && (Lost(Initial(config), steps, n) ==> n < s.arrivals)
            && Tally(Pipeline(s), n) == if n < s.arrivals && !Lost(Initial(config), steps, n) then 1 else 0
    decreases |steps|
  {
    hide Apply, Tally, Pipeline, Loses, Receives;
    if steps == [] {
      NothingYet(config, n);
    } else {
      var k := |steps| - 1;
      var s := Execute(Initial(config), steps[..k]);
      EveryFrameAccounted(config, steps[..k], n);
      EpochPositive(config, steps[..k]);
      ApplyCounts(s, steps[k], n);
      LosesOnce(s, steps[k]);
    }
  }

  lemma LosesOnce(s: State, step: Step)
    ensures forall n | Loses(s, step, n) :: !Receives(s, step)
  {
  }

  lemma NothingYet(config: Config, n: nat)
    ensures Tally(Pipeline(Initial(config)), n) == 0
  {
    assert Pipeline(Initial(config)) == [];
    TallyOne(Frame(0, 0, Unknown, "", 0, 0), n);
  }
}

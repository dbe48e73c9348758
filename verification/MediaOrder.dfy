/**
 Frames of one kind reach the callback in arrival order, whatever the lifecycle
 fence holds back: while an open is in flight, frames of its kind and of no known
 kind wait in the ingress queue and frames of the other kind go on.
 */
module MediaOrder {
  import opened Wrappers
  import opened MediaLifecycle

  /** The arrival numbers of the frames of one kind. */
  function Arrivals(frames: seq<Frame>, kind: Kind): seq<nat> {
    if frames == [] then []
    else Arrivals(frames[..|frames| - 1], kind)
         + (if frames[|frames| - 1].kind == kind then [frames[|frames| - 1].arrival] else [])
  }

  function FramesOf(items: seq<Item>): seq<Frame> {
    if items == [] then []
    else FramesOf(items[..|items| - 1]) + (if items[|items| - 1].Media? then [items[|items| - 1].frame] else [])
  }

  function InHand(s: State): seq<Frame> {
    if s.hand.Some? then [s.hand.value] else []
  }

  /** Every frame between the peer and the end of the log, oldest first. */
  function Pipeline(s: State): seq<Frame> {
    FramesOf(s.log) + (InHand(s) + (FramesOf(s.dispatch) + (s.batch + s.ingress)))
  }

  predicate Increasing(ns: seq<nat>) {
    forall i, j | 0 <= i < j < |ns| :: ns[i] < ns[j]
  }

  ghost predicate InOrder(s: State) {
    forall kind ::
      var ns := Arrivals(Pipeline(s), kind);
      Increasing(ns) && (forall i | 0 <= i < |ns| :: ns[i] < s.arrivals)
  }

  lemma {:induction false} ArrivalsConcat(a: seq<Frame>, b: seq<Frame>, kind: Kind)
    ensures Arrivals(a + b, kind) == Arrivals(a, kind) + Arrivals(b, kind)
  {
    if b == [] {
      assert a + b == a;
    } else {
      assert (a + b)[..|a + b| - 1] == a + b[..|b| - 1];
      ArrivalsConcat(a, b[..|b| - 1], kind);
    }
  }

  lemma {:induction false} FramesOfConcat(a: seq<Item>, b: seq<Item>)
    ensures FramesOf(a + b) == FramesOf(a) + FramesOf(b)
  {
    if b == [] {
      assert a + b == a;
    } else {
      assert (a + b)[..|a + b| - 1] == a + b[..|b| - 1];
      FramesOfConcat(a, b[..|b| - 1]);
    }
  }

  lemma FramesOfOne(item: Item)
    ensures FramesOf([item]) == if item.Media? then [item.frame] else []
  {
    assert [item][..0] == [];
  }

  lemma {:induction false} FramesOfFrames(frames: seq<Frame>)
    ensures FramesOf(AsFrames(frames)) == frames
  {
    if frames != [] {
      var n := |frames| - 1;
      assert AsFrames(frames)[..n] == AsFrames(frames[..n]);
      FramesOfFrames(frames[..n]);
    }
  }

  lemma {:induction false} FramesOfEvents(items: seq<Item>)
    requires forall i | 0 <= i < |items| :: items[i].Lifecycle?
    ensures FramesOf(items) == []
  {
    if items != [] {
      FramesOfEvents(items[..|items| - 1]);
    }
  }

  lemma {:induction false} LifecycleOnlyHasNoFrames(items: seq<Item>)
    ensures FramesOf(LifecycleOnly(items)) == []
  {
    if items != [] {
      var init, last := items[..|items| - 1], items[|items| - 1];
      LifecycleOnlyHasNoFrames(init);
      FramesOfConcat(LifecycleOnly(init), if last.Lifecycle? then [last] else []);
      FramesOfOne(last);
    }
  }

  /** The fence sends all frames of one kind the same way. */
  lemma {:induction false} SelectByKind(frames: seq<Frame>, opening: Opening, fenced: bool, kind: Kind)
    ensures Arrivals(Select(frames, opening, fenced), kind)
            == if Fenced(opening, kind) == fenced then Arrivals(frames, kind) else []
  {
    hide Fenced, Arrivals;
    ArrivalsNone(kind);
    if frames != [] {
      var init, last := frames[..|frames| - 1], frames[|frames| - 1];
      SelectByKind(init, opening, fenced, kind);
      assert frames == init + [last];
      ArrivalsConcat(init, [last], kind);
      ArrivalsConcat(Select(init, opening, fenced), [last], kind);
      ArrivalsOne(last, kind);
      assert Select(init, opening, fenced) + [] == Select(init, opening, fenced);
      assert Arrivals(init, kind) + [] == Arrivals(init, kind);
    }
  }

  lemma ArrivalsNone(kind: Kind)
    ensures Arrivals([], kind) == []
  {
  }

  lemma ArrivalsOne(f: Frame, kind: Kind)
    ensures Arrivals([f], kind) == if f.kind == kind then [f.arrival] else []
  {
    assert [f][..0] == [];
  }

  // -------------------------------------------------------------------- steps

  ghost predicate SameOrder(s: State, t: State) {
    && t.arrivals == s.arrivals
    && forall kind :: Arrivals(Pipeline(t), kind) == Arrivals(Pipeline(s), kind)
  }

  lemma CommitTakeSameOrder(s: State, pending: bool)
    ensures SameOrder(s, CommitTake(s, pending))
  {
    hide Select, FramesOf, Fenced, Arrivals;
    var t := CommitTake(s, pending);
    if OwnerFree(s) && !pending {
      var front := FramesOf(s.log) + (InHand(s) + FramesOf(s.dispatch));
      assert Pipeline(s) == front + s.ingress;
      assert Pipeline(t) == (front + t.batch) + t.ingress;
      forall kind ensures Arrivals(Pipeline(t), kind) == Arrivals(Pipeline(s), kind) {
        ArrivalsConcat(front, s.ingress, kind);
        ArrivalsConcat(front + t.batch, t.ingress, kind);
        ArrivalsConcat(front, t.batch, kind);
        SelectByKind(s.ingress, s.opening, false, kind);
        SelectByKind(s.ingress, s.opening, true, kind);
      }
    }
  }

  lemma CommitPushSameOrder(s: State)
    ensures SameOrder(s, CommitPush(s))
  {
    hide FramesOf, Arrivals;
    FramesOfConcat(s.dispatch, AsFrames(s.batch));
    FramesOfFrames(s.batch);
    assert Pipeline(CommitPush(s)) == Pipeline(s);
  }

  lemma QueueEventsSameOrder(s: State, t: State, events: seq<Event>)
    requires t.dispatch == s.dispatch + AsItems(events) && t.log == s.log && t.hand == s.hand
    requires t.batch == s.batch && t.ingress == s.ingress && t.arrivals == s.arrivals
    ensures SameOrder(s, t)
  {
    hide FramesOf, Arrivals;
    FramesOfConcat(s.dispatch, AsItems(events));
    FramesOfEvents(AsItems(events));
    assert Pipeline(t) == Pipeline(s);
  }

  lemma PopSameOrder(s: State)
    ensures SameOrder(s, Pop(s))
  {
    hide FramesOf, Arrivals;
    if s.hand.None? && s.dispatch != [] {
      var item, rest := s.dispatch[0], s.dispatch[1..];
      assert s.dispatch == [item] + rest;
      FramesOfConcat([item], rest);
      FramesOfConcat(s.log, [item]);
      FramesOfOne(item);
      assert Pipeline(Pop(s)) == Pipeline(s);
    }
  }

  /** The steps that touch neither queues nor log. */
  lemma OthersSameOrder(s: State, step: Step)
    requires !step.CommitTakeStep? && !step.CommitPushStep? && !step.PopStep? && !step.DeliverStep?
    requires !step.DropIngressStep? && !step.DropDispatchStep? && !step.IngressStep?
    requires !step.EnqueueStep? && !step.RacingPushStep?
    ensures SameOrder(s, Apply(s, step))
  {
    hide SameOrder, CloseCaptured, CloseAll, Relevant, TerminalMatch, Generation, Pipeline;
    QueuesSameOrder(s, Apply(s, step));
  }

  lemma QueuesSameOrder(s: State, t: State)
    requires t.dispatch == s.dispatch && t.log == s.log && t.hand == s.hand
    requires t.batch == s.batch && t.ingress == s.ingress && t.arrivals == s.arrivals
    ensures SameOrder(s, t)
  {
    assert Pipeline(t) == Pipeline(s);
  }

  /** Frames may be dropped from anywhere in the pipeline. */
  ghost predicate Drops(s: State, t: State) {
    && t.arrivals == s.arrivals
    && exists a, dropped, b :: Pipeline(s) == a + (dropped + b) && Pipeline(t) == a + b
  }

  lemma DeliverDrops(s: State)
    ensures Drops(s, Deliver(s))
  {
    hide FramesOf;
    var t := Deliver(s);
    var rest := FramesOf(s.dispatch) + (s.batch + s.ingress);
    if s.hand.Some? && IsCurrent(s, s.hand.value) {
      FramesOfConcat(s.log, [Media(s.hand.value)]);
      FramesOfOne(Media(s.hand.value));
      assert Pipeline(t) == Pipeline(s) + [] && Pipeline(s) == Pipeline(s) + ([] + []);
    } else {
      assert Pipeline(s) == FramesOf(s.log) + (InHand(s) + rest);
      assert Pipeline(t) == FramesOf(s.log) + rest;
    }
  }

  lemma DropDispatchDrops(s: State)
    ensures Drops(s, DropDispatch(s))
  {
    hide FramesOf, LifecycleOnly;
    LifecycleOnlyHasNoFrames(s.dispatch);
    var a, b := FramesOf(s.log) + InHand(s), s.batch + s.ingress;
    assert Pipeline(s) == a + (FramesOf(s.dispatch) + b);
    assert Pipeline(DropDispatch(s)) == a + b;
  }

  lemma DropIngressDrops(s: State)
    ensures Drops(s, DropIngress(s))
  {
    hide FramesOf;
    var a := FramesOf(s.log) + (InHand(s) + (FramesOf(s.dispatch) + s.batch));
    assert Pipeline(s) == a + (s.ingress + []);
    assert Pipeline(DropIngress(s)) == a + [];
  }

  lemma DropsInOrder(s: State, t: State)
    requires InOrder(s) && Drops(s, t)
    ensures InOrder(t)
  {
    hide Pipeline, Arrivals;
    var a, dropped, b :| Pipeline(s) == a + (dropped + b) && Pipeline(t) == a + b;
    forall kind ensures var ns := Arrivals(Pipeline(t), kind);
                        Increasing(ns) && (forall i | 0 <= i < |ns| :: ns[i] < t.arrivals)
    {
      ArrivalsConcat(a, dropped + b, kind);
      ArrivalsConcat(dropped, b, kind);
      ArrivalsConcat(a, b, kind);
      RemoveMiddle(Arrivals(a, kind), Arrivals(dropped, kind), Arrivals(b, kind), s.arrivals);
    }
  }

  lemma RemoveMiddle(a: seq<nat>, m: seq<nat>, b: seq<nat>, bound: nat)
    requires Increasing(a + (m + b)) && forall i | 0 <= i < |a + (m + b)| :: (a + (m + b))[i] < bound
    ensures Increasing(a + b) && forall i | 0 <= i < |a + b| :: (a + b)[i] < bound
  {
    var whole := a + (m + b);
    forall i | 0 <= i < |a + b|
      ensures (a + b)[i] == whole[if i < |a| then i else i + |m|]
    {
    }
  }

  lemma IngressInOrder(s: State, stream: nat, token: nat)
    requires InOrder(s)
    ensures InOrder(Ingress(s, stream, token))
  {
    hide FramesOf, Arrivals;
    var t, f := Ingress(s, stream, token), Stamp(s, stream, token);
    if t != s {
      assert Pipeline(t) == Pipeline(s) + [f];
      forall kind ensures var ns := Arrivals(Pipeline(t), kind);
                          Increasing(ns) && (forall i | 0 <= i < |ns| :: ns[i] < t.arrivals)
      {
        ArrivalsConcat(Pipeline(s), [f], kind);
        ArrivalsOne(f, kind);
      }
    }
  }

  lemma ApplyInOrder(s: State, step: Step)
    requires InOrder(s)
    ensures InOrder(Apply(s, step))
  {
    hide InOrder, Drops, SameOrder, CommitTake, CommitPush, Pop, Deliver, DropIngress, DropDispatch, Ingress,
         CloseAll, BeginOpen, OpenReturns, OpenFails, EndOpen, TerminalEvent, StreamableEvent, ClosePrevious,
         Clear, RacingTake, RacingForget, RunOrphanCloses, SetReconfiguring, Bind, Unbind, ResetBinding;
    match step
    case CommitTakeStep(p) => CommitTakeSameOrder(s, p); SameOrderInOrder(s, CommitTake(s, p));
    case CommitPushStep => CommitPushSameOrder(s); SameOrderInOrder(s, CommitPush(s));
    case PopStep => PopSameOrder(s); SameOrderInOrder(s, Pop(s));
    case DeliverStep => DeliverDrops(s); DropsInOrder(s, Deliver(s));
    case DropIngressStep => DropIngressDrops(s); DropsInOrder(s, DropIngress(s));
    case DropDispatchStep => DropDispatchDrops(s); DropsInOrder(s, DropDispatch(s));
    case IngressStep(id, token) => IngressInOrder(s, id, token);
    case EnqueueStep =>
      QueueEventsSameOrder(s, EnqueueStaged(s), s.staged);
      SameOrderInOrder(s, EnqueueStaged(s));
    case RacingPushStep =>
      QueueEventsSameOrder(s, RacingPush(s), s.racing);
      SameOrderInOrder(s, RacingPush(s));
    case _ => OthersSameOrder(s, step); SameOrderInOrder(s, Apply(s, step));
  }

  lemma SameOrderInOrder(s: State, t: State)
    requires InOrder(s) && SameOrder(s, t)
    ensures InOrder(t)
  {
    hide Pipeline, Arrivals;
    forall kind ensures var ns := Arrivals(Pipeline(t), kind);
                        Increasing(ns) && (forall i | 0 <= i < |ns| :: ns[i] < t.arrivals)
    {
      assert Arrivals(Pipeline(t), kind) == Arrivals(Pipeline(s), kind);
    }
  }

  lemma {:induction false} ExecuteInOrder(s: State, steps: seq<Step>)
    requires InOrder(s)
    ensures InOrder(Execute(s, steps))
    decreases |steps|
  {
    hide InOrder, Apply;
    if steps != [] {
      ExecuteInOrder(s, steps[..|steps| - 1]);
      ApplyInOrder(Execute(s, steps[..|steps| - 1]), steps[|steps| - 1]);
    }
  }

  /** On every run, the frames of each kind are handed out in the order they arrived. */
  lemma EveryRunKeepsArrivalOrder(config: Config, steps: seq<Step>, kind: Kind)
    ensures Increasing(Arrivals(FramesOf(Execute(Initial(config), steps).log), kind))
  {
    hide Execute, Arrivals, FramesOf;
    InitialInOrder(config);
    ExecuteInOrder(Initial(config), steps);
    var s := Execute(Initial(config), steps);
    var rest := InHand(s) + (FramesOf(s.dispatch) + (s.batch + s.ingress));
    ArrivalsConcat(FramesOf(s.log), rest, kind);
    var ns, head := Arrivals(Pipeline(s), kind), Arrivals(FramesOf(s.log), kind);
    assert forall i | 0 <= i < |head| :: head[i] == ns[i];
  }

  lemma InitialInOrder(config: Config)
    ensures InOrder(Initial(config))
  {
    assert Pipeline(Initial(config)) == [];
  }
}

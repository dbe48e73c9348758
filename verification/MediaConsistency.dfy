/**
 The invariant of the leaf adapter, kept by every step that neither race of
 `MediaRuns` falls on: the events handed out, queued and on their way replay to
 the stream table, and each frame has the Opened event of its generation ahead.
 */
module MediaConsistency {
  import opened Wrappers
  import opened MediaLifecycle
  import opened MediaEvents

  // --------------------------------------------------------------- the invariant

  function Emitted(s: State): seq<Event> {
    EventsOf(s.log) + EventsOf(s.dispatch)
  }

  /** Events on their way to the queue: the recovery worker's, then the owner's. */
  function Unqueued(s: State): seq<Event> {
    s.racing + s.staged
  }

  /** Everything handed out, queued and on its way replays to the stream table. */
  ghost predicate TableReplays(s: State) {
    Replay(NoLife, Emitted(s) + Unqueued(s)) == Some(Life(s.active, s.generations))
  }

  ghost predicate Backed(events: seq<Event>, f: Frame) {
    f.generation != 0 ==> OpenedIn(events, f.stream, f.generation)
  }

  /** Each frame on its way has the Opened event of its generation ahead of it. */
  ghost predicate FramesBacked(s: State) {
    && (forall i | 0 <= i < |s.ingress| :: Backed(Emitted(s), s.ingress[i]))
    && (forall i | 0 <= i < |s.batch| :: Backed(Emitted(s), s.batch[i]))
    && (s.hand.Some? ==> Backed(EventsOf(s.log), s.hand.value))
    && (forall i | 0 <= i < |s.dispatch| && s.dispatch[i].Media? ::
          Backed(EventsOf(s.log) + EventsOf(s.dispatch[..i]), s.dispatch[i].frame))
  }

  ghost predicate Consistent(s: State) {
    TableReplays(s) && FramesBacked(s) && LegalLog(s.log) && OpensLast(s.staged) && AllClosed(s.racing)
  }

  /** A publication changes the table and stages the events that say so. */
  ghost predicate Stages(s: State, t: State) {
    && t == s.(active := t.active, generations := t.generations, staged := t.staged,
               terminal := t.terminal, opening := t.opening, candidates := t.candidates, orphans := t.orphans)
    && s.staged == [] && OpensLast(t.staged)
    && Replay(Life(s.active, s.generations), t.staged) == Some(Life(t.active, t.generations))
  }

  lemma StagesConsistent(s: State, t: State)
    requires Consistent(s) && Stages(s, t)
    ensures Consistent(t)
  {
    hide Replay, LegalLog, FramesBacked;
    assert Emitted(t) + Unqueued(t) == (Emitted(s) + Unqueued(s)) + t.staged;
    ReplayConcat(NoLife, Emitted(s) + Unqueued(s), t.staged);
    assert FramesBacked(t) by { FramesFrame(s, t); }
  }

  lemma FramesFrame(s: State, t: State)
    requires FramesBacked(s)
    requires t.ingress == s.ingress && t.batch == s.batch && t.dispatch == s.dispatch
    requires t.hand == s.hand && t.log == s.log
    ensures FramesBacked(t)
  {
  }

  lemma TableKeyed(s: State)
    requires TableReplays(s)
    ensures Keyed(Life(s.active, s.generations))
  {
    ReplayKeyed(NoLife, Emitted(s) + Unqueued(s));
  }

  // ------------------------------------------------------------ publications

  lemma PublishStages(s: State, d: Descriptor)
    requires TableReplays(s) && s.staged == [] && d.generation == Generation(s, d.stream) + 1
    ensures Replay(Life(s.active, s.generations), Publish(s, d).staged)
            == Some(Life(Publish(s, d).active, Publish(s, d).generations))
  {
    var l := Life(s.active, s.generations);
    TableKeyed(s);
    if d.stream in s.active {
      var gone := Closed(s.active[d.stream]);
      ReplayOne(l, gone);
      ReplayConcat(l, [gone], [Opened(d)]);
      ReplayOne(After(l, gone), Opened(d));
      assert (s.active - {d.stream})[d.stream := d] == s.active[d.stream := d];
    } else {
      ReplayOne(l, Opened(d));
      assert [] + [Opened(d)] == [Opened(d)];
    }
  }

  // ------------------------------------------------------------ queue movements

  lemma EnqueueConsistent(s: State)
    requires Consistent(s) && EnqueueSafe(s)
    ensures Consistent(EnqueueStaged(s))
  {
    hide LegalLog, OpenedIn, Replay, EventsOf, FramesBacked, AllClosed, OpensLast, ClearOf;
    var t := EnqueueStaged(s);
    EventsOfItems(s.staged);
    assert FramesBacked(t) && Emitted(t) == Emitted(s) + s.staged by {
      EnqueueGrows(s);
    }
    ReplayConcat(NoLife, Emitted(s), s.racing + s.staged);
    ReplayKeyedPrefix(s);
    var l := Replay(NoLife, Emitted(s)).value;
    ClosesMoveBack(l, s.racing, s.staged);
    assert Emitted(t) + Unqueued(t) == Emitted(s) + (s.staged + s.racing);
    ReplayConcat(NoLife, Emitted(s), s.staged + s.racing);
    assert OpensLast([]) by { NoOpens(); }
  }

  lemma NoOpens()
    ensures OpensLast([])
  {
  }

  lemma ReplayKeyedPrefix(s: State)
    requires TableReplays(s)
    ensures Replay(NoLife, Emitted(s)).Some? && Keyed(Replay(NoLife, Emitted(s)).value)
  {
    ReplayConcat(NoLife, Emitted(s), Unqueued(s));
    ReplayKeyed(NoLife, Emitted(s));
  }

  lemma EnqueueGrows(s: State)
    requires FramesBacked(s)
    ensures var t := EnqueueStaged(s); FramesBacked(t) && Emitted(t) == Emitted(s) + s.staged
  {
    hide OpenedIn, EventsOf;
    EventsOfItems(s.staged);
    QueueGrows(s, EnqueueStaged(s), AsItems(s.staged));
  }

  lemma RacingPushConsistent(s: State)
    requires Consistent(s)
    ensures Consistent(RacingPush(s))
  {
    hide LegalLog, OpenedIn, Replay, EventsOf;
    var t := RacingPush(s);
    EventsOfItems(s.racing);
    QueueGrows(s, t, AsItems(s.racing));
    assert Emitted(t) + Unqueued(t) == Emitted(s) + Unqueued(s);
  }

  /** Appending to the dispatch queue keeps every frame behind its Opened event. */
  lemma QueueGrows(s: State, t: State, added: seq<Item>)
    requires FramesBacked(s) && t.dispatch == s.dispatch + added && t.log == s.log && t.hand == s.hand
    requires forall i | 0 <= i < |added| && added[i].Media? :: Backed(Emitted(s), added[i].frame)
    requires forall i | 0 <= i < |t.ingress| :: Backed(Emitted(s), t.ingress[i])
    requires forall i | 0 <= i < |t.batch| :: Backed(Emitted(s), t.batch[i])
    ensures FramesBacked(t) && Emitted(t) == Emitted(s) + EventsOf(added)
  {
    hide EventsOf, OpenedIn, Backed;
    EventsOfConcat(s.dispatch, added);
    assert Emitted(t) == Emitted(s) + EventsOf(added);
    AllBackedLater(Emitted(s), EventsOf(added), t.ingress);
    AllBackedLater(Emitted(s), EventsOf(added), t.batch);
    LongerQueueBacked(s, added);
  }

  lemma LongerQueueBacked(s: State, added: seq<Item>)
    requires FramesBacked(s)
    requires forall i | 0 <= i < |added| && added[i].Media? :: Backed(Emitted(s), added[i].frame)
    ensures var longer := s.dispatch + added;
            forall i | 0 <= i < |longer| && longer[i].Media? ::
              Backed(EventsOf(s.log) + EventsOf(longer[..i]), longer[i].frame)
  {
    hide EventsOf, OpenedIn, Backed, Emitted;
    var longer := s.dispatch + added;
    forall i | 0 <= i < |longer| && longer[i].Media?
      ensures Backed(EventsOf(s.log) + EventsOf(longer[..i]), longer[i].frame)
    {
      if i < |s.dispatch| {
        assert longer[..i] == s.dispatch[..i];
      } else {
        AppendedBacked(s, added, i - |s.dispatch|);
      }
    }
  }

  lemma AppendedBacked(s: State, added: seq<Item>, k: nat)
    requires k < |added| && added[k].Media? && Backed(Emitted(s), added[k].frame)
    ensures var i := |s.dispatch| + k;
            && (s.dispatch + added)[i] == added[k]
            && Backed(EventsOf(s.log) + EventsOf((s.dispatch + added)[..i]), added[k].frame)
  {
    hide EventsOf, OpenedIn, Backed;
    assert (s.dispatch + added)[..|s.dispatch| + k] == s.dispatch + added[..k];
    EventsOfConcat(s.dispatch, added[..k]);
    BackedLater(Emitted(s), EventsOf(added[..k]), added[k].frame);
    assert Emitted(s) + EventsOf(added[..k]) == EventsOf(s.log) + (EventsOf(s.dispatch) + EventsOf(added[..k]));
  }

  lemma AllBackedLater(a: seq<Event>, b: seq<Event>, frames: seq<Frame>)
    requires forall i | 0 <= i < |frames| :: Backed(a, frames[i])
    ensures forall i | 0 <= i < |frames| :: Backed(a + b, frames[i])
  {
    hide Backed;
    forall i | 0 <= i < |frames| ensures Backed(a + b, frames[i]) {
      BackedLater(a, b, frames[i]);
    }
  }

  lemma BackedLater(a: seq<Event>, b: seq<Event>, f: Frame)
    requires Backed(a, f)
    ensures Backed(a + b, f)
  {
    if f.generation != 0 {
      OpenedInPrefix(a, b, f.stream, f.generation);
    }
  }

  lemma CommitPushConsistent(s: State)
    requires Consistent(s)
    ensures Consistent(CommitPush(s))
  {
    hide LegalLog, OpenedIn, Replay, EventsOf;
    QueueGrows(s, CommitPush(s), AsFrames(s.batch));
    EventsOfFrames(s.batch);
    assert Emitted(CommitPush(s)) == Emitted(s);
  }

  lemma {:induction false} SelectSubset(frames: seq<Frame>, opening: Opening, fenced: bool)
    ensures forall f | f in Select(frames, opening, fenced) ::
              f in frames && Fenced(opening, f.kind) == fenced
  {
    if frames != [] {
      SelectSubset(frames[..|frames| - 1], opening, fenced);
    }
  }

  lemma CommitTakeConsistent(s: State, pending: bool)
    requires Consistent(s)
    ensures Consistent(CommitTake(s, pending))
  {
    hide LegalLog, OpenedIn, Replay, EventsOf, Select;
    SelectSubset(s.ingress, s.opening, true);
    SelectSubset(s.ingress, s.opening, false);
    var t := CommitTake(s, pending);
    forall i | 0 <= i < |t.ingress| ensures Backed(Emitted(t), t.ingress[i]) {
      assert t.ingress[i] in s.ingress;
    }
    forall i | 0 <= i < |t.batch| ensures Backed(Emitted(t), t.batch[i]) {
      assert t != s ==> t.batch[i] in s.ingress;
    }
  }

  lemma IngressConsistent(s: State, stream: nat, token: nat)
    requires Consistent(s) && OwnerFree(s)
    ensures Consistent(Ingress(s, stream, token))
  {
    var f := Stamp(s, stream, token);
    hide LegalLog, OpenedIn, Replay, EventsOf, AllClosed;
    assert Emitted(s) + Unqueued(s) == Emitted(s) + s.racing;
    TableKeyed(s);
    if f.generation != 0 {
      LastWasOpened(Emitted(s) + s.racing, stream);
      OpenedBeforeCloses(Emitted(s), s.racing, stream, f.generation);
    }
  }

  lemma PopConsistent(s: State)
    requires Consistent(s) && s.hand.None? && s.dispatch != []
    ensures Consistent(Pop(s))
  {
    hide OpenedIn, Replay, EventsOf, Backed, LegalLog, FramesBacked;
    var t, item, rest := Pop(s), s.dispatch[0], s.dispatch[1..];
    assert s.dispatch == [item] + rest;
    PopKeepsEvents(s.log, item, rest);
    assert Emitted(t) == Emitted(s);
    PopBacked(s);
    if item.Lifecycle? {
      LegalEvent(s.log, item);
    }
  }

  lemma LegalEvent(log: seq<Item>, item: Item)
    requires LegalLog(log) && item.Lifecycle?
    ensures LegalLog(log + [item])
  {
    hide Replay, EventsOf;
    assert (log + [item])[..|log|] == log;
  }

  lemma PopBacked(s: State)
    requires FramesBacked(s) && s.hand.None? && s.dispatch != []
    requires Emitted(Pop(s)) == Emitted(s)
    ensures FramesBacked(Pop(s))
  {
    hide OpenedIn, Replay, EventsOf, Backed;
    var t, item, rest := Pop(s), s.dispatch[0], s.dispatch[1..];
    if item.Media? {
      EventsOfOne(item);
      assert s.dispatch[..0] == [];
      assert EventsOf(s.log) + [] == EventsOf(s.log);
    }
    forall i | 0 <= i < |rest| && rest[i].Media?
      ensures Backed(EventsOf(t.log) + EventsOf(rest[..i]), rest[i].frame)
    {
      assert s.dispatch[i + 1] == rest[i];
      assert s.dispatch[..i + 1] == [item] + rest[..i];
      PopKeepsEvents(s.log, item, rest[..i]);
    }
  }

  /** Moving the front item from queue to log, or out of a queue without events, loses nothing. */
  lemma PopKeepsEvents(log: seq<Item>, item: Item, rest: seq<Item>)
    ensures EventsOf(log + [item]) + EventsOf(rest) == EventsOf(log) + EventsOf([item] + rest)
    ensures item.Media? ==> EventsOf(log) + EventsOf(rest) == EventsOf(log) + EventsOf([item] + rest)
  {
    hide EventsOf;
    EventsOfOne(item);
    EventsOfConcat(log, [item]);
    EventsOfConcat([item], rest);
  }

  lemma DropDispatchConsistent(s: State)
    requires Consistent(s)
    ensures Consistent(DropDispatch(s))
  {
    EventsOfLifecycleOnly(s.dispatch);
    LifecycleOnlyIs(s.dispatch);
    hide OpenedIn, Replay, EventsOf, LegalLog, LifecycleOnly;
    assert Emitted(DropDispatch(s)) == Emitted(s);
  }

  lemma {:induction false} LifecycleOnlyIs(items: seq<Item>)
    ensures forall i | 0 <= i < |LifecycleOnly(items)| :: LifecycleOnly(items)[i].Lifecycle?
  {
    if items != [] {
      LifecycleOnlyIs(items[..|items| - 1]);
    }
  }

  /** The delivery check admits a frame only inside the interval its own generation has in the log. */
  lemma DeliverConsistent(s: State)
    requires Consistent(s) && s.hand.Some?
    ensures Consistent(Deliver(s))
  {
    hide EventsOf, Replay, OpenedIn, Backed;
    var f, t := s.hand.value, Deliver(s);
    if IsCurrent(s, f) {
      assert t.log[..|t.log| - 1] == s.log;
      EventsOfOne(Media(f));
      EventsOfConcat(s.log, [Media(f)]);
      assert EventsOf(t.log) == EventsOf(s.log);
      if f.generation != 0 {
        CurrentIsOpen(s, f);
      }
    }
  }

  lemma CurrentIsOpen(s: State, f: Frame)
    requires TableReplays(s) && Backed(EventsOf(s.log), f) && f.generation != 0
    requires f.stream in s.active && s.active[f.stream].generation == f.generation
    ensures var l := Replay(NoLife, EventsOf(s.log));
            l.Some? && f.stream in l.value.open && l.value.open[f.stream].generation == f.generation
  {
    hide Replay, EventsOf, OpenedIn;
    var rest := EventsOf(s.dispatch) + Unqueued(s);
    assert Emitted(s) + Unqueued(s) == EventsOf(s.log) + rest;
    ReplayConcat(NoLife, EventsOf(s.log), rest);
    var l := Replay(NoLife, EventsOf(s.log)).value;
    ReplayKeyed(NoLife, EventsOf(s.log));
    OpenedBelowLast(NoLife, EventsOf(s.log), f.stream, f.generation);
    StillOpen(l, rest, f.stream, f.generation);
  }

  // --------------------------------------------------------- the racing clear

  lemma RacingTakeKeeps(s: State)
    requires Consistent(s) && AllClosed(s.staged)
    ensures Consistent(RacingTake(s))
  {
    hide Replay, LegalLog, OpenedIn, EventsOf, CloseAll, FramesBacked, OpensLast;
    var t, closes := RacingTake(s), CloseAll(s.active);
    FramesFrame(s, t);
    if s.racing == [] {
      assert Emitted(s) + Unqueued(s) == Emitted(s) + s.staged;
      ReplayConcat(NoLife, Emitted(s), s.staged);
      ReplayKeyedPrefix(s);
      var l := Replay(NoLife, Emitted(s)).value;
      ClosesCommute(l, s.staged, s.active.Keys);
      CloseAllReplays(l, s.active);
      assert s.active - s.active.Keys == map[];
      ReplayConcat(l, closes, s.staged);
      ReplayConcat(NoLife, Emitted(s), closes + s.staged);
    }
  }

  /** The owner opens no id whose Closed event the recovery worker still holds. */
  ghost predicate EnqueueSafe(s: State) {
    ClearOf(s.staged, s.racing)
  }

  // ------------------------------------------------------------------ every step

  lemma OpenReturnsConsistent(s: State, stream: nat, source: string)
    requires Consistent(s)
    ensures Consistent(OpenReturns(s, stream, source))
  {
    hide Replay, LegalLog, EventsOf, OpenedIn;
    var t := OpenReturns(s, stream, source);
    if t.staged != s.staged {
      var d := Descriptor(stream, Generation(s, stream) + 1, s.opening.kind, source);
      PublishStages(s, d);
      StagesConsistent(s, t);
    }
  }

  lemma TerminalConsistent(s: State, event: SourceEvent)
    requires Consistent(s)
    ensures Consistent(TerminalEvent(s, event))
  {
    hide Replay, LegalLog, EventsOf, OpenedIn;
    var t := TerminalEvent(s, event);
    if t.staged != s.staged {
      var l, gone := Life(s.active, s.generations), t.staged[0];
      TableKeyed(s);
      ReplayOne(l, gone);
      assert t.staged == [gone];
      StagesConsistent(s, t);
    }
  }

  lemma ClosePreviousConsistent(s: State, captured: seq<Descriptor>)
    requires Consistent(s)
    ensures Consistent(ClosePrevious(s, captured))
  {
    hide Replay, LegalLog, EventsOf, OpenedIn, CloseCaptured;
    if OwnerFree(s) && s.opening == Idle {
      TableKeyed(s);
      CloseCapturedReplays(Life(s.active, s.generations), captured);
      StagesConsistent(s, ClosePrevious(s, captured));
    }
  }

  lemma ClearConsistent(s: State)
    requires Consistent(s)
    ensures Consistent(Clear(s))
  {
    hide Replay, LegalLog, EventsOf, OpenedIn, CloseAll;
    if OwnerFree(s) && s.opening == Idle {
      TableKeyed(s);
      CloseAllReplays(Life(s.active, s.generations), s.active);
      assert s.active - s.active.Keys == map[];
      StagesConsistent(s, Clear(s));
    }
  }

  /** The two races do not fall on this step. */
  ghost predicate Safe(s: State, step: Step) {
    (step.RacingTakeStep? ==> AllClosed(s.staged)) && (step.EnqueueStep? ==> EnqueueSafe(s))
  }

  lemma ApplyConsistent(s: State, step: Step)
    requires Consistent(s) && Safe(s, step)
    ensures Consistent(Apply(s, step))
  {
    hide Replay, LegalLog, EventsOf, OpenedIn;
    match step
    case OpenReturnsStep(id, src) => OpenReturnsConsistent(s, id, src);
    case TerminalStep(e) => TerminalConsistent(s, e);
    case ClosePreviousStep(ds) => ClosePreviousConsistent(s, ds);
    case ClearStep => ClearConsistent(s);
    case RacingTakeStep => RacingTakeKeeps(s);
    case RacingPushStep => RacingPushConsistent(s);
    case EnqueueStep => EnqueueConsistent(s);
    case IngressStep(id, t) => if OwnerFree(s) { IngressConsistent(s, id, t); }
    case CommitTakeStep(p) => CommitTakeConsistent(s, p);
    case CommitPushStep => CommitPushConsistent(s);
    case PopStep => if s.hand.None? && s.dispatch != [] { PopConsistent(s); }
    case DeliverStep => if s.hand.Some? { DeliverConsistent(s); }
    case DropDispatchStep => DropDispatchConsistent(s);
    case _ => OtherStepsConsistent(s, step);
  }

  lemma OtherStepsConsistent(s: State, step: Step)
    requires Consistent(s)
    requires step.BeginOpenStep? || step.OpenFailsStep? || step.EndOpenStep? || step.StreamableStep?
          || step.RunOrphansStep? || step.ReconfigureStep? || step.BindStep? || step.UnbindStep?
          || step.ResetBindingStep? || step.DropIngressStep? || step.RacingForgetStep?
    ensures Consistent(Apply(s, step))
  {
    hide Replay, LegalLog, EventsOf, OpenedIn;
  }
}

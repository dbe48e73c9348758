/**
 What the sink of a media stream subscription sees. For every interleaving of
 publishers, the delivery owner and cancels, the items taken form a legal trace:
 per stream id Opened and Closed alternate with equal keys, every frame lies in
 the open interval of its own key, and nothing follows SubscriptionClosed.
 */
module SubscriptionTrace {
  import opened Wrappers
  import opened Ordering
  import opened StreamSubscription

  datatype Step =
    | PublishEventStep(event: StreamEvent)
    | PublishFrameStep(frame: Frame)
    | ActivateStep
    | CancelStep(thread: Thread, closeStreams: bool)
    | TakeStep(thread: Thread)
    | FinishStep

  /** The queue with what an outside observer records: items handed over, frames accepted. */
  datatype Run = Run(core: State, trace: seq<Item>, arrivals: seq<Frame>)

  function Start(options: Options): Run {
    Run(Initial(options), [], [])
  }

  function Next(s: State, step: Step): State {
    match step
    case PublishEventStep(e) => PublishEvent(s, e)
    case PublishFrameStep(f) => PublishFrame(s, f)
    case ActivateStep => Activate(s)
    case CancelStep(t, c) => Cancel(s, t, c)
    case TakeStep(t) => Take(s, t)
    case FinishStep => Finish(s)
  }

  function Apply(r: Run, step: Step): Run {
    Run(Next(r.core, step),
        if step.TakeStep? && CanTake(r.core) then r.trace + [r.core.items[0]] else r.trace,
        if step.PublishFrameStep? && Accepts(r.core, step.frame) then r.arrivals + [step.frame] else r.arrivals)
  }

  function Execute(r: Run, steps: seq<Step>): Run
    decreases |steps|
  {
    if steps == [] then r
    else Apply(Execute(r, steps[..|steps| - 1]), steps[|steps| - 1])
  }

  // ------------------------------------------------------------ legal traces

  type Streams = map<nat, Descriptor>

  /** Whether a sink whose open streams are `open` may receive `item`. */
  predicate Admissible(open: Streams, item: Item) {
    match item
    case Opened(d, _) => d.key.generation != 0 && d.key.stream !in open
    case Closed(d, _) => d.key.stream in open && open[d.key.stream].key == d.key
    case Media(f) => f.key.stream in open && open[f.key.stream].key == f.key
    case _ => true
  }

  function After(open: Streams, item: Item): Streams {
    match item
    case Opened(d, _) => open[d.key.stream := d]
    case Closed(d, _) => open - {d.key.stream}
    case _ => open
  }

  /** The streams left open by `items`, or None when some item was not admissible. */
  function Replay(open: Streams, items: seq<Item>): Option<Streams>
    decreases |items|
  {
    if items == [] then Some(open)
    else if Admissible(open, items[0]) then Replay(After(open, items[0]), items[1..])
    else None
  }

  lemma {:induction false} ReplayConcat(open: Streams, a: seq<Item>, b: seq<Item>)
    ensures Replay(open, a).None? ==> Replay(open, a + b).None?
    ensures Replay(open, a).Some? ==> Replay(open, a + b) == Replay(Replay(open, a).value, b)
    decreases |a|
  {
    if a == [] {
      assert a + b == b;
    } else {
      assert (a + b)[1..] == a[1..] + b;
      if Admissible(open, a[0]) {
        ReplayConcat(After(open, a[0]), a[1..], b);
      }
    }
  }

  lemma ReplayAppend(open: Streams, items: seq<Item>, item: Item)
    requires Replay(open, items).Some? && Admissible(Replay(open, items).value, item)
    ensures Replay(open, items + [item]) == Some(After(Replay(open, items).value, item))
  {
    ReplayConcat(open, items, [item]);
    assert [item][1..] == [];
  }

  ghost predicate Keyed(streams: Streams) {
    forall id | id in streams :: streams[id].key.stream == id && streams[id].key.generation != 0
  }

  lemma {:induction false} ReplayKeyed(open: Streams, items: seq<Item>)
    requires Keyed(open) && Replay(open, items).Some?
    ensures Keyed(Replay(open, items).value)
    decreases |items|
  {
    if items != [] {
      ReplayKeyed(After(open, items[0]), items[1..]);
    }
  }

  // ------------------------------- the queue stays replayable through each step

  /** Two queues a sink cannot tell apart by stream life cycle. */
  ghost predicate SameLifecycle(a: seq<Item>, b: seq<Item>) {
    forall open: Streams | Replay(open, a).Some? :: Replay(open, b) == Replay(open, a)
  }

  lemma RemoveFrame(items: seq<Item>, n: nat)
    requires n < |items| && items[n].Media?
    ensures SameLifecycle(items, items[..n] + items[n + 1..])
  {
    forall open: Streams | Replay(open, items).Some?
      ensures Replay(open, items[..n] + items[n + 1..]) == Replay(open, items)
    {
      assert items == items[..n] + items[n..];
      ReplayConcat(open, items[..n], items[n..]);
      ReplayConcat(open, items[..n], items[n + 1..]);
      assert items[n..][1..] == items[n + 1..];
    }
  }

  /** A frame whose flags changed, or a notice whose totals changed, replays the same. */
  lemma ChangeItem(items: seq<Item>, n: nat, item: Item)
    requires n < |items|
    requires || (item.Dropped? && items[n].Dropped?)
             || (item.Media? && items[n].Media? && item.frame.key == items[n].frame.key)
    ensures SameLifecycle(items, items[n := item])
  {
    forall open: Streams | Replay(open, items).Some?
      ensures Replay(open, items[n := item]) == Replay(open, items)
    {
      assert items == items[..n] + items[n..];
      ReplayConcat(open, items[..n], items[n..]);
      assert items[n := item] == items[..n] + ([item] + items[n + 1..]);
      ReplayConcat(open, items[..n], [item] + items[n + 1..]);
      assert items[n..][1..] == items[n + 1..];
      assert ([item] + items[n + 1..])[1..] == items[n + 1..];
    }
  }

  lemma InsertNotice(items: seq<Item>, n: nat, item: Item)
    requires n <= |items| && item.Dropped?
    ensures SameLifecycle(items, items[..n] + [item] + items[n..])
  {
    forall open: Streams | Replay(open, items).Some?
      ensures Replay(open, items[..n] + [item] + items[n..]) == Replay(open, items)
    {
      assert items == items[..n] + items[n..];
      ReplayConcat(open, items[..n], items[n..]);
      assert items[..n] + [item] + items[n..] == items[..n] + ([item] + items[n..]);
      ReplayConcat(open, items[..n], [item] + items[n..]);
      assert ([item] + items[n..])[1..] == items[n..];
    }
  }

  lemma {:induction false} DropsKeepLifecycle(s: State)
    ensures SameLifecycle(s.items, DropUntilFits(s).items)
    ensures DropUntilFits(s).active == s.active && DropUntilFits(s).delivered == s.delivered
    decreases |s.items|
  {
    if MustDrop(s) {
      RemoveFrame(s.items, FirstFrame(s.items));
      DropsKeepLifecycle(DropOldest(s));
    }
  }

  lemma AnnounceKeepsLifecycle(items: seq<Item>, notice: Item)
    requires notice.Dropped?
    ensures SameLifecycle(items, Announce(items, notice))
  {
    match OpenNotice(items)
    case Some(i) => ChangeItem(items, i, notice);
    case None => InsertNotice(items, FirstFrame(items), notice);
  }

  lemma MarkKeepsLifecycle(items: seq<Item>)
    ensures SameLifecycle(items, MarkNext(items))
  {
    var n := FirstFrame(items);
    if n < |items| {
      ChangeItem(items, n, Media(Marked(items[n].frame)));
    }
  }

  // --------------------------------------------------------- the closing tail

  /** The first `n` ids. */
  function Prefix(ids: seq<nat>, n: nat): set<nat>
    requires n <= |ids|
  {
    set i | 0 <= i < n :: ids[i]
  }

  lemma PrefixGrows(ids: seq<nat>, n: nat)
    requires n < |ids|
    ensures Prefix(ids, n + 1) == Prefix(ids, n) + {ids[n]}
    ensures Prefix(ids, 0) == {}
  {
  }

  lemma PrefixAll(ids: seq<nat>, keys: set<nat>)
    requires forall id :: id in ids <==> id in keys
    ensures Prefix(ids, |ids|) == keys
  {
  }

  ghost predicate Distinct(ids: seq<nat>) {
    forall i, j | 0 <= i < j < |ids| :: ids[i] != ids[j]
  }

  lemma {:induction false} ClosingActiveReplays(active: Streams, delivered: Streams, ids: seq<nat>, n: nat)
    requires Keyed(active) && Keyed(delivered) && Distinct(ids)
    requires n <= |ids| && forall id | id in ids :: id in active
    ensures Replay(delivered, ClosingActive(active, delivered, ids, n)) == Some(delivered - Prefix(ids, n))
  {
    if n == 0 {
      assert delivered - Prefix(ids, n) == delivered;
    } else {
      ClosingActiveReplays(active, delivered, ids, n - 1);
      var open, id := delivered - Prefix(ids, n - 1), ids[n - 1];
      ClosingPairReplays(active, delivered, open, id);
      ReplayConcat(delivered, ClosingActive(active, delivered, ids, n - 1), ClosingPair(active, delivered, id));
      PrefixGrows(ids, n - 1);
      assert open - {id} == delivered - Prefix(ids, n);
    }
  }

  lemma ClosingPairReplays(active: Streams, delivered: Streams, open: Streams, id: nat)
    requires Keyed(active) && id in active && Keyed(delivered)
    requires id in open <==> id in delivered
    requires id in open ==> open[id] == delivered[id]
    ensures Replay(open, ClosingPair(active, delivered, id)) == Some(open - {id})
  {
    var first := if id in delivered then [Closed(delivered[id], Shutdown)] else [];
    var second := ClosingPair(active, delivered, id)[|first|..];
    assert ClosingPair(active, delivered, id) == first + second;
    if id in delivered {
      ReplayAppend(open, [], first[0]);
      assert [] + [first[0]] == first;
    } else {
      assert open - {id} == open;
    }
    ReplayConcat(open, first, second);
    if second != [] {
      var enter, leave := Opened(active[id], Snapshot), Closed(active[id], Shutdown);
      assert second == [enter] + [leave];
      ReplayAppend(open - {id}, [], enter);
      assert [] + [enter] == [enter];
      ReplayAppend(open - {id}, [enter], leave);
      assert (open - {id})[id := active[id]] - {id} == open - {id};
    }
  }

  lemma {:induction false} ClosingRestReplays(
    active: Streams, delivered: Streams, open: Streams, ids: seq<nat>, n: nat)
    requires Keyed(delivered) && Distinct(ids)
    requires n <= |ids| && forall id | id in ids :: id in delivered
    requires open == delivered - active.Keys
    ensures Replay(open, ClosingRest(active, delivered, ids, n)) == Some(open - Prefix(ids, n))
  {
    if n == 0 {
      assert open - Prefix(ids, n) == open;
    } else {
      ClosingRestReplays(active, delivered, open, ids, n - 1);
      var done, id := ClosingRest(active, delivered, ids, n - 1), ids[n - 1];
      PrefixGrows(ids, n - 1);
      if id in active {
        assert open - Prefix(ids, n) == open - Prefix(ids, n - 1);
        assert done + [] == done;
      } else {
        ReplayAppend(open, done, Closed(delivered[id], Shutdown));
        assert open - Prefix(ids, n - 1) - {id} == open - Prefix(ids, n);
      }
    }
  }

  /** From whatever the sink has seen, the closing tail is admissible and closes every stream. */
  lemma ClosingTailClosesAll(active: Streams, delivered: Streams)
    requires Keyed(active) && Keyed(delivered)
    ensures Replay(delivered, ClosingTail(active, delivered)) == Some(map[])
  {
    var open := Ids(active);
    var shown := Ids(delivered);
    hide Ids, Replay, ClosingActive, ClosingRest;
    ClosingActiveReplays(active, delivered, open, |open|);
    PrefixAll(open, active.Keys);
    ClosingRestReplays(active, delivered, delivered - active.Keys, shown, |shown|);
    PrefixAll(shown, delivered.Keys);
    ReplayConcat(delivered, ClosingActive(active, delivered, open, |open|),
                 ClosingRest(active, delivered, shown, |shown|));
    assert delivered - active.Keys - delivered.Keys == map[];
  }

  // ------------------------------------------------------------ the invariant

  /** Replaying the queue from what the sink has open ends with what is active. */
  ghost predicate QueueReplays(s: State) {
    && Keyed(s.active) && Keyed(s.delivered)
    && (s.accepting ==> Replay(s.delivered, s.items) == Some(s.active))
    && (!s.accepting ==> Replay(s.delivered, s.items).Some?)
  }

  /** The terminal item is queued last, once, and only after the subscription stopped accepting. */
  ghost predicate TerminalLast(s: State) {
    && (s.accepting <==> !s.terminalEnqueued)
    && (forall i | 0 <= i < |s.items| :: s.items[i].SubscriptionClosed? ==> !s.accepting && i == |s.items| - 1)
    && (s.terminalDelivered ==> s.items == [] && !s.accepting)
    && (s.callback.Some? && s.callback.value.item.SubscriptionClosed? ==> s.items == [] && !s.accepting)
  }

  ghost predicate ClosedLast(trace: seq<Item>) {
    forall i | 0 <= i < |trace| :: trace[i].SubscriptionClosed? ==> i == |trace| - 1
  }

  ghost predicate Legal(r: Run) {
    && QueueReplays(r.core) && TerminalLast(r.core)
    && Replay(map[], r.trace) == Some(r.core.delivered)
    && ClosedLast(r.trace)
    && (SubscriptionClosed in r.trace ==> r.core.items == [] && !r.core.accepting)
  }

  lemma PublishEventLegal(s: State, event: StreamEvent)
    requires QueueReplays(s) && TerminalLast(s)
    ensures QueueReplays(PublishEvent(s, event)) && TerminalLast(PublishEvent(s, event))
  {
    var t := PublishEvent(s, event);
    if t != s {
      var id := event.stream.key.stream;
      if event.Opened? {
        if id in s.active {
          var replaced := Closed(s.active[id], event.reason);
          ReplayAppend(s.delivered, s.items, replaced);
          ReplayAppend(s.delivered, s.items + [replaced], event);
          assert t.items == s.items + [replaced] + [event];
          assert (s.active - {id})[id := event.stream] == s.active[id := event.stream];
        } else {
          ReplayAppend(s.delivered, s.items, event);
          assert t.items == s.items + [event];
        }
      } else {
        ReplayAppend(s.delivered, s.items, event);
      }
    }
  }

  lemma PublishFrameLegal(s: State, f: Frame)
    requires QueueReplays(s) && TerminalLast(s)
    ensures QueueReplays(PublishFrame(s, f)) && TerminalLast(PublishFrame(s, f))
    ensures PublishFrame(s, f).delivered == s.delivered && PublishFrame(s, f).accepting == s.accepting
  {
    if Accepts(s, f) {
      var q := Append(s, f);
      ReplayAppend(s.delivered, s.items, Media(f));
      if s.options.queued && OverLimit(q) {
        DropsKeepLifecycle(q);
        var kept := DropUntilFits(q);
        MarkKeepsLifecycle(kept.items);
        var notice := Dropped(kept.stats.dropped, kept.stats.droppedBytes);
        AnnounceKeepsLifecycle(MarkNext(kept.items), notice);
        DropsKeepKinds(q);
        AnnounceKeepsKinds(MarkNext(kept.items), notice);
      }
    }
  }

  /** While accepting there is no terminal item for a drop to move. */
  lemma {:induction false} DropsKeepKinds(s: State)
    requires forall i | 0 <= i < |s.items| :: !s.items[i].SubscriptionClosed?
    ensures var t := DropUntilFits(s);
            && (forall i | 0 <= i < |t.items| :: !t.items[i].SubscriptionClosed?)
            && t.accepting == s.accepting && t.terminalEnqueued == s.terminalEnqueued
            && t.terminalDelivered == s.terminalDelivered && t.callback == s.callback
    decreases |s.items|
  {
    if MustDrop(s) {
      DropsKeepKinds(DropOldest(s));
    }
  }

  lemma AnnounceKeepsKinds(items: seq<Item>, notice: Item)
    requires notice.Dropped?
    requires forall i | 0 <= i < |items| :: !items[i].SubscriptionClosed?
    ensures forall i | 0 <= i < |Announce(items, notice)| :: !Announce(items, notice)[i].SubscriptionClosed?
  {
  }

  lemma TerminalAppended(delivered: Streams, tail: seq<Item>)
    requires AllLifecycle(tail) && Replay(delivered, tail).Some?
    ensures ClosedLast(tail + [SubscriptionClosed])
    ensures Replay(delivered, tail + [SubscriptionClosed]) == Replay(delivered, tail)
  {
    ReplayAppend(delivered, tail, SubscriptionClosed);
  }

  lemma CancelLegal(s: State, thread: Thread, closeStreams: bool)
    requires QueueReplays(s) && TerminalLast(s)
    ensures QueueReplays(Cancel(s, thread, closeStreams)) && TerminalLast(Cancel(s, thread, closeStreams))
    ensures s.accepting && closeStreams && !SelfCancel(s, thread) ==>
              Replay(s.delivered, Cancel(s, thread, closeStreams).items) == Some(map[])
  {
    assert Replay(s.delivered, []) == Some(s.delivered);
    hide ClosingTail, Replay;
    TailIsLifecycle(s.active, s.delivered);
    ClosingTailClosesAll(s.active, s.delivered);
    TerminalAppended(s.delivered, ClosingTail(s.active, s.delivered));
    TerminalAppended(s.delivered, []);
  }

  lemma TakeLegal(r: Run, thread: Thread)
    requires Legal(r) && CanTake(r.core)
    ensures Legal(Apply(r, TakeStep(thread)))
  {
    var s, item := r.core, r.core.items[0];
    var t := Take(s, thread);
    assert s.items == [item] + s.items[1..];
    assert Admissible(s.delivered, item);
    assert t.delivered == After(s.delivered, item);
    ReplayAppend(map[], r.trace, item);
  }

  lemma ApplyLegal(r: Run, step: Step)
    requires Legal(r)
    ensures Legal(Apply(r, step))
  {
    match step
    case PublishEventStep(e) => PublishEventLegal(r.core, e);
    case PublishFrameStep(f) => PublishFrameLegal(r.core, f);
    case ActivateStep =>
    case CancelStep(t, c) => CancelLegal(r.core, t, c);
    case TakeStep(t) => if CanTake(r.core) { TakeLegal(r, t); }
    case FinishStep =>
  }

  // ------------------------------------------------------------------ theorems

  lemma {:induction false} ExecuteLegal(r: Run, steps: seq<Step>)
    requires Legal(r)
    ensures Legal(Execute(r, steps))
    decreases |steps|
  {
    if steps != [] {
      ExecuteLegal(r, steps[..|steps| - 1]);
      ApplyLegal(Execute(r, steps[..|steps| - 1]), steps[|steps| - 1]);
    }
  }

  /** Every run hands the sink a legal trace, ending at SubscriptionClosed if that is ever sent. */
  lemma EveryRunIsLegal(options: Options, steps: seq<Step>)
    ensures var r := Execute(Start(options), steps);
            && Replay(map[], r.trace) == Some(r.core.delivered)
            && ClosedLast(r.trace)
  {
    ExecuteLegal(Start(options), steps);
  }

  ghost predicate ClosesAll(r: Run) {
    && Legal(r) && !r.core.accepting
    && Replay(r.core.delivered, r.core.items) == Some(map[])
  }

  lemma ApplyClosesAll(r: Run, step: Step)
    requires ClosesAll(r)
    ensures ClosesAll(Apply(r, step))
  {
    ApplyLegal(r, step);
    if step.TakeStep? && CanTake(r.core) {
      var item := r.core.items[0];
      assert r.core.items == [item] + r.core.items[1..];
      assert Admissible(r.core.delivered, item);
    }
  }

  lemma {:induction false} ExecuteClosesAll(r: Run, steps: seq<Step>)
    requires ClosesAll(r)
    ensures ClosesAll(Execute(r, steps))
    decreases |steps|
  {
    if steps != [] {
      ExecuteClosesAll(r, steps[..|steps| - 1]);
      ApplyClosesAll(Execute(r, steps[..|steps| - 1]), steps[|steps| - 1]);
    }
  }

  /**
   Once a close-streams cancel takes effect from outside a callback, whatever
   happens next, the sink has no stream open by the time the queue has drained.
   */
  lemma OutsideCloseLeavesNothingOpen(options: Options, before: seq<Step>, thread: Thread, after: seq<Step>)
    requires var s := Execute(Start(options), before).core;
             !s.terminalEnqueued && !s.terminalDelivered && !SelfCancel(s, thread)
    ensures var r := Execute(Apply(Execute(Start(options), before), CancelStep(thread, true)), after);
            && Legal(r)
            && (r.core.items == [] || SubscriptionClosed in r.trace ==> Replay(map[], r.trace) == Some(map[]))
  {
    var r := Execute(Start(options), before);
    ExecuteLegal(Start(options), before);
    ApplyLegal(r, CancelStep(thread, true));
    CancelLegal(r.core, thread, true);
    ExecuteClosesAll(Apply(r, CancelStep(thread, true)), after);
  }
}

/**
 What a subscription owes its callers, said about the calls alone: which streams
 are open, which frames were taken on, which events go out and in which order
 follows from the published events, whatever the delivery side did meanwhile.
 */
module SubscriptionHistory {
  import opened Wrappers
  import opened StreamSubscription
  import opened SubscriptionTrace
  import opened SubscriptionAccounting
  import opened SubscriptionGaps

  // -------------------------------------------------------- the calls of a run

  predicate Ended(steps: seq<Step>) {
    exists i | 0 <= i < |steps| :: steps[i].CancelStep?
  }

  /** The event changes what is open: a new key under its id, or the close of exactly the open key. */
  predicate Effective(open: Streams, event: StreamEvent) {
    var d := event.stream;
    var current := d.key.stream in open && open[d.key.stream].key == d.key;
    d.key.generation != 0 && (event.Opened? <==> !current)
  }

  /** The streams the publishers have open. */
  function Published(steps: seq<Step>): Streams {
    if steps == [] then map[]
    else
      var n := |steps| - 1;
      var open := Published(steps[..n]);
      if !steps[n].PublishEventStep? || !Effective(open, steps[n].event) then open
      else
        var d := steps[n].event.stream;
        if steps[n].event.Opened? then open[d.key.stream := d] else open - {d.key.stream}
  }

  /** The events the sink is owed: the effective ones, each reopened id closed first. */
  function Owed(steps: seq<Step>): seq<Item> {
    if steps == [] then []
    else
      var n := |steps| - 1;
      var open := Published(steps[..n]);
      Owed(steps[..n]) +
      if !steps[n].PublishEventStep? || !Effective(open, steps[n].event) then []
      else
        var event := steps[n].event;
        var id := event.stream.key.stream;
        (if event.Opened? && id in open then [Closed(open[id], event.reason)] else []) + [event]
  }

  /** The frames published under a key that was open at that moment. */
  function Submitted(steps: seq<Step>): seq<Frame> {
    if steps == [] then []
    else
      var n := |steps| - 1;
      var open := Published(steps[..n]);
      Submitted(steps[..n]) +
      if !Ended(steps[..n]) && steps[n].PublishFrameStep? && KeyOpen(open, steps[n].frame.key) then [steps[n].frame]
      else []
  }

  predicate KeyOpen(open: Streams, key: StreamKey) {
    key.generation != 0 && key.stream in open && open[key.stream].key == key
  }

  function EventsOf(items: seq<Item>): seq<Item> {
    if items == [] then []
    else
      var n := |items| - 1;
      EventsOf(items[..n]) + if items[n].Lifecycle() then [items[n]] else []
  }

  lemma {:induction false} EventsOfConcat(a: seq<Item>, b: seq<Item>)
    ensures EventsOf(a + b) == EventsOf(a) + EventsOf(b)
    decreases |b|
  {
    if b == [] {
      assert a + b == a;
    } else {
      assert (a + b)[..|a + b| - 1] == a + b[..|b| - 1];
      EventsOfConcat(a, b[..|b| - 1]);
    }
  }

  lemma EventsOfOne(item: Item)
    ensures EventsOf([item]) == if item.Lifecycle() then [item] else []
  {
    assert [item][..0] == [];
  }

  // ---------------------------------------------- drops and notices keep events

  lemma EventsWithout(items: seq<Item>, n: nat)
    requires n < |items| && !items[n].Lifecycle()
    ensures EventsOf(items[..n] + items[n + 1..]) == EventsOf(items)
  {
    hide EventsOf;
    assert items == items[..n] + ([items[n]] + items[n + 1..]);
    EventsOfConcat(items[..n], [items[n]] + items[n + 1..]);
    EventsOfConcat([items[n]], items[n + 1..]);
    EventsOfConcat(items[..n], items[n + 1..]);
    EventsOfOne(items[n]);
  }

  lemma EventsWith(items: seq<Item>, n: nat, item: Item)
    requires n <= |items| && !item.Lifecycle()
    ensures EventsOf(items[..n] + [item] + items[n..]) == EventsOf(items)
  {
    hide EventsOf;
    EventsOfConcat(items[..n] + [item], items[n..]);
    EventsOfConcat(items[..n], [item]);
    EventsOfConcat(items[..n], items[n..]);
    EventsOfOne(item);
    assert items == items[..n] + items[n..];
  }

  lemma EventsChanged(items: seq<Item>, n: nat, item: Item)
    requires n < |items| && !items[n].Lifecycle() && !item.Lifecycle()
    ensures EventsOf(items[n := item]) == EventsOf(items)
  {
    var other := items[n := item];
    EventsWithout(items, n);
    EventsWithout(other, n);
    assert other[..n] + other[n + 1..] == items[..n] + items[n + 1..];
  }

  lemma {:induction false} DropsKeepEvents(s: State)
    ensures var t := DropUntilFits(s);
            && EventsOf(t.items) == EventsOf(s.items)
            && t.active == s.active && t.accepting == s.accepting
    decreases |s.items|
  {
    if MustDrop(s) {
      EventsWithout(s.items, FirstFrame(s.items));
      DropsKeepEvents(DropOldest(s));
    }
  }

  lemma AfterDropsKeepsEvents(s: State)
    ensures EventsOf(AfterDrops(s).items) == EventsOf(s.items)
  {
    hide EventsOf;
    var n := FirstFrame(s.items);
    var marked := MarkNext(s.items);
    if n < |s.items| {
      EventsChanged(s.items, n, Media(Marked(s.items[n].frame)));
    }
    var notice := Dropped(s.stats.dropped, s.stats.droppedBytes);
    match OpenNotice(marked)
    case Some(i) => EventsChanged(marked, i, notice);
    case None => EventsWith(marked, FirstFrame(marked), notice);
  }

  lemma FrameKeepsEvents(s: State, f: Frame)
    ensures var t := PublishFrame(s, f);
            EventsOf(t.items) == EventsOf(s.items) && t.active == s.active && t.accepting == s.accepting
  {
    hide EventsOf, DropUntilFits, AfterDrops;
    if Accepts(s, f) {
      var q := Append(s, f);
      EventsOfConcat(s.items, [Media(f)]);
      EventsOfOne(Media(f));
      DropsKeepEvents(q);
      AfterDropsKeepsEvents(DropUntilFits(q));
      AfterDropsKeepsRest(DropUntilFits(q));
    }
  }

  lemma AfterDropsKeepsRest(s: State)
    ensures AfterDrops(s).active == s.active && AfterDrops(s).accepting == s.accepting
  {
  }

  // ------------------------------------------------------------------ the laws

  /** The state the calls ask for. */
  ghost predicate Follows(r: Run, steps: seq<Step>) {
    && (r.core.accepting <==> !Ended(steps))
    && r.arrivals == Submitted(steps)
    && (r.core.accepting ==>
          && r.core.active == Published(steps)
          && EventsOf(r.trace) + EventsOf(r.core.items) == Owed(steps))
  }

  lemma EventFollows(r: Run, steps: seq<Step>, event: StreamEvent)
    requires Follows(r, steps)
    ensures Follows(Apply(r, PublishEventStep(event)), steps + [PublishEventStep(event)])
  {
    hide EventsOf, Submitted;
    var more := steps + [PublishEventStep(event)];
    Snoc(steps, PublishEventStep(event));
    SubmittedSnoc(steps, PublishEventStep(event));
    var s, t := r.core, PublishEvent(r.core, event);
    if s.accepting {
      var id := event.stream.key.stream;
      if Effective(s.active, event) {
        var added := (if event.Opened? && id in s.active then [Closed(s.active[id], event.reason)] else []) + [event];
        assert t.items == s.items + added;
        EventsOfConcat(s.items, added);
        AllEvents(added);
      }
    }
  }

  lemma {:induction false} AllEvents(items: seq<Item>)
    requires forall i | 0 <= i < |items| :: items[i].Lifecycle()
    ensures EventsOf(items) == items
  {
    if items != [] {
      AllEvents(items[..|items| - 1]);
    }
  }

  lemma Snoc(steps: seq<Step>, step: Step)
    ensures (steps + [step])[..|steps|] == steps
    ensures Ended(steps + [step]) <==> Ended(steps) || step.CancelStep?
  {
    var more := steps + [step];
    assert more[..|steps|] == steps;
    assert forall i | 0 <= i < |steps| :: more[i] == steps[i];
    assert more[|steps|] == step;
  }

  lemma SubmittedSnoc(steps: seq<Step>, step: Step)
    ensures Submitted(steps + [step]) == Submitted(steps) +
              if !Ended(steps) && step.PublishFrameStep? && KeyOpen(Published(steps), step.frame.key) then [step.frame]
              else []
  {
    hide Published;
    Snoc(steps, step);
  }

  lemma OthersSnoc(steps: seq<Step>, step: Step)
    requires !step.PublishEventStep?
    ensures Published(steps + [step]) == Published(steps) && Owed(steps + [step]) == Owed(steps)
  {
    Snoc(steps, step);
  }

  lemma FrameFollows(r: Run, steps: seq<Step>, f: Frame)
    requires Follows(r, steps)
    ensures Follows(Apply(r, PublishFrameStep(f)), steps + [PublishFrameStep(f)])
  {
    hide EventsOf, Submitted, Published, Owed, PublishFrame;
    Snoc(steps, PublishFrameStep(f));
    SubmittedSnoc(steps, PublishFrameStep(f));
    OthersSnoc(steps, PublishFrameStep(f));
    FrameKeepsEvents(r.core, f);
  }

  lemma OtherFollows(r: Run, steps: seq<Step>, step: Step)
    requires Follows(r, steps) && TerminalLast(r.core)
    requires !step.PublishEventStep? && !step.PublishFrameStep?
    ensures Follows(Apply(r, step), steps + [step])
  {
    hide EventsOf, Submitted, Published, Owed, UpdateDelivered, ClosingTail;
    Snoc(steps, step);
    SubmittedSnoc(steps, step);
    OthersSnoc(steps, step);
    if step.TakeStep? && CanTake(r.core) {
      var item, rest := r.core.items[0], r.core.items[1..];
      assert r.core.items == [item] + rest;
      EventsOfConcat(r.trace, [item]);
      EventsOfConcat([item], rest);
    }
  }

  /**
   On every run, until it is cancelled: the open streams are those the published
   events leave open; the frames taken on are those published under an open key;
   and the events handed over, followed by those queued, are exactly the events
   the sink is owed, in order.
   */
  lemma {:induction false} EveryRunFollows(options: Options, steps: seq<Step>)
    ensures Follows(Execute(Start(options), steps), steps)
    decreases |steps|
  {
    hide Follows, Apply;
    if steps == [] {
      StartFollows(options);
    } else {
      var n := |steps| - 1;
      var before, last := steps[..n], steps[n];
      EveryRunFollows(options, before);
      StartLegal(options);
      ExecuteLegal(Start(options), before);
      assert steps == before + [last];
      var r := Execute(Start(options), before);
      match last
      case PublishEventStep(e) => EventFollows(r, before, e);
      case PublishFrameStep(f) => FrameFollows(r, before, f);
      case _ => OtherFollows(r, before, last);
    }
  }

  lemma StartFollows(options: Options)
    ensures Follows(Start(options), [])
  {
  }

  lemma StartLegal(options: Options)
    ensures Legal(Start(options))
  {
  }

  /** Once the queue of a live subscription is empty, the sink has open exactly what the publishers have open. */
  lemma DrainedSinkAgrees(options: Options, steps: seq<Step>)
    requires !Ended(steps) && Execute(Start(options), steps).core.items == []
    ensures var r := Execute(Start(options), steps);
            && Replay(map[], r.trace) == Some(Published(steps))
            && EventsOf(r.trace) == Owed(steps)
  {
    hide Execute, EventsOf, Published, Owed, Submitted;
    EveryRunFollows(options, steps);
    StartLegal(options);
    ExecuteLegal(Start(options), steps);
    NoEvents();
  }

  lemma NoEvents()
    ensures EventsOf([]) == []
  {
  }

  // ------------------------------------------------------------------- delivery

  /** The sink takes `n` items, finishing each before the next. */
  function Rounds(r: Run, n: nat): Run
    decreases n
  {
    if n == 0 then r else Rounds(NextItem(r), n - 1)
  }

  /** A sink that keeps taking gets everything queued, in order. */
  lemma {:induction false} QueueIsDelivered(r: Run)
    requires Legal(r)
    ensures var t := Rounds(r, |r.core.items|);
            Legal(t) && t.core.items == [] && t.trace == r.trace + r.core.items
    decreases |r.core.items|
  {
    hide Legal, NextItem;
    if r.core.items != [] {
      TakesFront(r);
      NextItemLegal(r);
      QueueIsDelivered(NextItem(r));
      assert r.core.items == [r.core.items[0]] + r.core.items[1..];
    }
  }

  lemma NextItemLegal(r: Run)
    requires Legal(r)
    ensures Legal(NextItem(r))
  {
    hide Legal, Apply;
    ApplyLegal(r, ActivateStep);
    ApplyLegal(Apply(r, ActivateStep), FinishStep);
    ApplyLegal(Apply(Apply(r, ActivateStep), FinishStep), TakeStep(0));
  }

  /**
   The first cancel of a run. From inside the sink's own callback nothing more is
   delivered, whatever follows. From outside, the sink gets the closing events of
   its streams, if asked for, and SubscriptionClosed, and nothing else.
   */
  lemma CancelSettles(options: Options, before: seq<Step>, thread: Thread, closeStreams: bool)
    requires !Ended(before)
    ensures var r := Execute(Start(options), before);
            var c := Apply(r, CancelStep(thread, closeStreams));
            var t := Rounds(c, |c.core.items|);
            if SelfCancel(r.core, thread) then c.core.items == [] && c.core.terminalDelivered
            else
              && t.trace == r.trace + c.core.items && t.core.items == []
              && t.trace != [] && t.trace[|t.trace| - 1] == SubscriptionClosed
              && if closeStreams then Replay(map[], t.trace) == Some(map[]) else c.core.items == [SubscriptionClosed]
  {
    hide Execute, Rounds, Replay, ClosingTail, QueueReplays;
    StartLegal(options);
    ExecuteLegal(Start(options), before);
    EveryRunFollows(options, before);
    var r := Execute(Start(options), before);
    var c := Apply(r, CancelStep(thread, closeStreams));
    ApplyLegal(r, CancelStep(thread, closeStreams));
    QueueIsDelivered(c);
    if !SelfCancel(r.core, thread) {
      CancelQueues(r.core, thread, closeStreams);
      if closeStreams {
        CancelLegal(r.core, thread, closeStreams);
        ReplayConcat(map[], r.trace, c.core.items);
      }
    }
  }

  lemma CancelQueues(s: State, thread: Thread, closeStreams: bool)
    requires !s.terminalDelivered && !s.terminalEnqueued && !SelfCancel(s, thread)
    ensures var items := Cancel(s, thread, closeStreams).items;
            && items != [] && items[|items| - 1] == SubscriptionClosed
            && (!closeStreams ==> items == [SubscriptionClosed])
  {
    hide ClosingTail;
  }

  /** A cancel from inside the callback silences the subscription for good. */
  lemma {:induction false} SilencedStaysSilent(r: Run, steps: seq<Step>)
    requires Legal(r) && r.core.terminalDelivered
    ensures Execute(r, steps).trace == r.trace && Execute(r, steps).core.terminalDelivered
    decreases |steps|
  {
    if steps != [] {
      SilencedStaysSilent(r, steps[..|steps| - 1]);
      TerminalSticks(Execute(r, steps[..|steps| - 1]).core, steps[|steps| - 1]);
    }
  }

  lemma TerminalSticks(s: State, step: Step)
    requires s.terminalDelivered
    ensures Next(s, step).terminalDelivered
  {
    hide DropUntilFits, Announce, MarkNext, UpdateDelivered;
    if step.PublishFrameStep? && Accepts(s, step.frame) {
      DropsKeepTerminal(Append(s, step.frame));
    }
  }

  lemma {:induction false} DropsKeepTerminal(s: State)
    ensures DropUntilFits(s).terminalDelivered == s.terminalDelivered
    decreases |s.items|
  {
    if MustDrop(s) {
      DropsKeepTerminal(DropOldest(s));
    }
  }

  // --------------------------------------------------------------- minimal drops

  predicate TooMuch(options: Options, frames: seq<Frame>) {
    || (options.maxFrames != 0 && |frames| > options.maxFrames)
    || (options.maxBytes != 0 && PayloadBytes(frames) > options.maxBytes)
  }

  lemma {:induction false} DropsAreMinimal(s: State)
    requires CountersExact(s)
    ensures var t, frames := DropUntilFits(s), FramesOf(s.items);
            var k := t.stats.dropped - s.stats.dropped;
            && 0 <= k <= |frames| && FramesOf(t.items) == frames[k..]
            && !TooMuch(s.options, frames[k..])
            && forall j | 0 <= j < k :: TooMuch(s.options, frames[j..])
    decreases |s.items|
  {
    hide FramesOf, PayloadBytes;
    var t, frames := DropUntilFits(s), FramesOf(s.items);
    assert frames[0..] == frames;
    FirstFrameSplits(s.items);
    if MustDrop(s) {
      DropOldestExact(s);
      var rest := DropOldest(s);
      DropsAreMinimal(rest);
      var k := t.stats.dropped - s.stats.dropped;
      assert frames[1..][k - 1..] == frames[k..];
      forall j | 0 <= j < k ensures TooMuch(s.options, frames[j..]) {
        if j > 0 {
          assert frames[1..][j - 1..] == frames[j..];
        }
      }
    } else {
      NoBytes(frames);
    }
  }

  lemma NoBytes(frames: seq<Frame>)
    ensures frames == [] ==> PayloadBytes(frames) == 0
  {
  }

  /** A publish drops the oldest frames, and no more of them than the limits demand. */
  lemma DropsNoMoreThanNeeded(s: State, f: Frame)
    requires CountersExact(s) && Accepts(s, f)
    ensures var t, frames := PublishFrame(s, f), FramesOf(s.items) + [f];
            var k := t.stats.dropped - s.stats.dropped;
            && 0 <= k <= |frames| && |FramesOf(t.items)| == |frames| - k
            && (!s.options.queued ==> k == 0)
            && (s.options.queued ==>
                  && !TooMuch(s.options, frames[k..])
                  && forall j | 0 <= j < k :: TooMuch(s.options, frames[j..]))
  {
    hide PayloadBytes, Announce, MarkNext, DropUntilFits;
    var q, frames := Append(s, f), FramesOf(s.items) + [f];
    AppendExact(s, f);
    FramesOfConcat(s.items, [Media(f)]);
    assert FramesOf([Media(f)]) == [f];
    hide FramesOf;
    assert FramesOf(q.items) == frames;
    DropsAreMinimal(q);
    assert frames[0..] == frames;
    var kept := DropUntilFits(q);
    MarkNextFrames(kept.items);
    AnnounceFrames(MarkNext(kept.items), Dropped(kept.stats.dropped, kept.stats.droppedBytes));
  }
}

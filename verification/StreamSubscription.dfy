/**
 The media stream subscription queue: one bounded FIFO mixing lifecycle events,
 frames and delivery notices. Every locked region of the source is one step.

 The first half gives each step as a function on a `State` value; the class
 `Core` is the same queue updated in place, each method proved equal to its
 step. What the steps promise over whole runs is in `SubscriptionTrace` and
 `SubscriptionAccounting`.
 */
module StreamSubscription {
  import opened Wrappers
  import opened Ordering

  datatype StreamKey = StreamKey(session: string, stream: nat, generation: nat)

  /** `attributes` stands for codec, geometry and the other fields carried unread. */
  datatype Descriptor = Descriptor(key: StreamKey, attributes: string)

  datatype Reason =
    | Unspecified | Snapshot | InitialOpen | SourceRecovery
    | SessionRecovery | ParameterReconfigure | Shutdown

  datatype Flag = KeyFrame | Config | Discontinuity | EndOfFrame

  datatype Frame = Frame(key: StreamKey, payload: seq<bv8>, flags: set<Flag>)

  datatype Item =
    | Opened(stream: Descriptor, reason: Reason)
    | Closed(stream: Descriptor, reason: Reason)
    | Media(frame: Frame)
    | Dropped(frames: nat, bytes: nat)
    | SubscriptionClosed
  {
    predicate Lifecycle() { Opened? || Closed? }
  }

  type StreamEvent = i: Item | i.Lifecycle()
    witness Opened(Descriptor(StreamKey("", 0, 0), ""), Unspecified)

  /** A zero limit means unlimited; `queued` is AsyncQueued dispatch, otherwise Direct. */
  datatype Options = Options(queued: bool, maxFrames: nat, maxBytes: nat)

  type Thread = nat

  /** The item being handed to the sink, and the thread that took it. */
  datatype Callback = Callback(thread: Thread, item: Item)

  /** Totals over the life of the subscription. */
  datatype Stats = Stats(received: nat, delivered: nat, dropped: nat, droppedBytes: nat)

  datatype State = State(
    options: Options,
    items: seq<Item>,
    active: map<nat, Descriptor>,
    delivered: map<nat, Descriptor>,
    queuedFrames: int,
    queuedBytes: int,
    stats: Stats,
    accepting: bool,
    activated: bool,
    terminalEnqueued: bool,
    terminalDelivered: bool,
    callback: Option<Callback>)

  function Initial(options: Options): State {
    State(options, [], map[], map[], 0, 0, Stats(0, 0, 0, 0), true, false, false, false, None)
  }

  // ---------------------------------------------------------------- contents

  function FramesOf(items: seq<Item>): seq<Frame> {
    if items == [] then []
    else (if items[0].Media? then [items[0].frame] else []) + FramesOf(items[1..])
  }

  function PayloadBytes(frames: seq<Frame>): nat {
    if frames == [] then 0 else |frames[0].payload| + PayloadBytes(frames[1..])
  }

  ghost predicate CountersExact(s: State) {
    && s.queuedFrames == |FramesOf(s.items)|
    && s.queuedBytes == PayloadBytes(FramesOf(s.items))
  }

  /** The position of the oldest frame, or the length when there is none. */
  function FirstFrame(items: seq<Item>): (i: nat)
    ensures i <= |items|
    ensures i < |items| ==> items[i].Media?
    ensures forall j | 0 <= j < i :: !items[j].Media?
  {
    if items == [] || items[0].Media? then 0 else 1 + FirstFrame(items[1..])
  }

  lemma {:induction false} FramesOfConcat(a: seq<Item>, b: seq<Item>)
    ensures FramesOf(a + b) == FramesOf(a) + FramesOf(b)
    ensures PayloadBytes(FramesOf(a + b)) == PayloadBytes(FramesOf(a)) + PayloadBytes(FramesOf(b))
  {
    if a == [] {
      assert a + b == b;
    } else {
      assert (a + b)[1..] == a[1..] + b;
      FramesOfConcat(a[1..], b);
    }
    PayloadBytesConcat(FramesOf(a), FramesOf(b));
  }

  lemma FramesOfThree(a: seq<Item>, b: seq<Item>, c: seq<Item>)
    ensures FramesOf(a + b + c) == FramesOf(a) + FramesOf(b) + FramesOf(c)
  {
    FramesOfConcat(a + b, c);
    FramesOfConcat(a, b);
  }

  lemma {:induction false} PayloadBytesConcat(a: seq<Frame>, b: seq<Frame>)
    ensures PayloadBytes(a + b) == PayloadBytes(a) + PayloadBytes(b)
  {
    if a == [] {
      assert a + b == b;
    } else {
      assert (a + b)[1..] == a[1..] + b;
      PayloadBytesConcat(a[1..], b);
    }
  }

  lemma {:induction false} NoFrames(items: seq<Item>)
    requires forall i | 0 <= i < |items| :: !items[i].Media?
    ensures FramesOf(items) == []
  {
    if items != [] {
      NoFrames(items[1..]);
    }
  }

  lemma {:induction false} FirstFrameSplits(items: seq<Item>)
    ensures var n := FirstFrame(items);
            && FramesOf(items[..n]) == []
            && (n == |items| ==> FramesOf(items) == [])
            && (n < |items| ==> FramesOf(items) == [items[n].frame] + FramesOf(items[n + 1..]))
  {
    if items != [] && !items[0].Media? {
      var n := FirstFrame(items[1..]);
      FirstFrameSplits(items[1..]);
      assert items[..n + 1][1..] == items[1..][..n];
      assert n < |items[1..]| ==> items[1..][n + 1..] == items[n + 2..];
    }
  }

  /** What is left, as frames and bytes, once the oldest frame is taken out. */
  lemma RemoveFirstFrame(items: seq<Item>)
    requires FramesOf(items) != []
    ensures var n := FirstFrame(items);
            && n < |items|
            && FramesOf(items[..n] + items[n + 1..]) == FramesOf(items)[1..]
            && PayloadBytes(FramesOf(items)) ==
               |items[n].frame.payload| + PayloadBytes(FramesOf(items[..n] + items[n + 1..]))
  {
    var n := FirstFrame(items);
    FirstFrameSplits(items);
    FramesOfConcat(items[..n], items[n + 1..]);
  }

  // ------------------------------------------------------------------- steps

  function PublishEvent(s: State, event: StreamEvent): State {
    var id := event.stream.key.stream;
    if !s.accepting || event.stream.key.generation == 0 then s
    else if event.Opened? then
      if id in s.active && s.active[id].key == event.stream.key then s
      else
        var replaced := if id in s.active then [Closed(s.active[id], event.reason)] else [];
        s.(active := s.active[id := event.stream], items := s.items + (replaced + [event]))
    else if id !in s.active || s.active[id].key != event.stream.key then s
    else s.(active := s.active - {id}, items := s.items + [event])
  }

  predicate OverLimit(s: State) {
    || (s.options.maxFrames != 0 && s.queuedFrames > s.options.maxFrames)
    || (s.options.maxBytes != 0 && s.queuedBytes > s.options.maxBytes)
  }

  /** The state without its oldest frame; unchanged when no frame is queued. */
  function DropOldest(s: State): State {
    var n := FirstFrame(s.items);
    if n == |s.items| then s
    else
      var size := |s.items[n].frame.payload|;
      s.(items := s.items[..n] + s.items[n + 1..],
         queuedFrames := s.queuedFrames - 1,
         queuedBytes := s.queuedBytes - size,
         stats := s.stats.(dropped := s.stats.dropped + 1, droppedBytes := s.stats.droppedBytes + size))
  }

  predicate MustDrop(s: State) {
    OverLimit(s) && s.queuedFrames != 0 && FirstFrame(s.items) < |s.items|
  }

  /** With exact counters the loop guard `OverLimit && queuedFrames != 0` is `MustDrop`. */
  function DropUntilFits(s: State): State
    decreases |s.items|
  {
    if MustDrop(s) then DropUntilFits(DropOldest(s)) else s
  }

  function Marked(f: Frame): Frame {
    f.(flags := f.flags + {Discontinuity})
  }

  function MarkNext(items: seq<Item>): seq<Item> {
    var n := FirstFrame(items);
    if n == |items| then items else items[n := Media(Marked(items[n].frame))]
  }

  /** The notice a new total is folded into: the last one not followed by a lifecycle event. */
  function OpenNotice(items: seq<Item>): (i: Option<nat>)
    ensures i.Some? ==> i.value < |items| && items[i.value].Dropped?
  {
    if items == [] then None
    else
      var last := |items| - 1;
      if items[last].Lifecycle() then None
      else if items[last].Dropped? then Some(last)
      else OpenNotice(items[..last])
  }

  function Announce(items: seq<Item>, notice: Item): seq<Item> {
    match OpenNotice(items)
    case Some(i) => items[i := notice]
    case None =>
      var n := FirstFrame(items);
      items[..n] + [notice] + items[n..]
  }

  predicate Accepts(s: State, f: Frame) {
    && s.accepting && f.key.generation != 0
    && f.key.stream in s.active && s.active[f.key.stream].key == f.key
  }

  function Append(s: State, f: Frame): State {
    s.(items := s.items + [Media(f)],
       queuedFrames := s.queuedFrames + 1,
       queuedBytes := s.queuedBytes + |f.payload|,
       stats := s.stats.(received := s.stats.received + 1))
  }

  /** What a publish that dropped at least one frame does after the drops. */
  function AfterDrops(s: State): State {
    s.(items := Announce(MarkNext(s.items), Dropped(s.stats.dropped, s.stats.droppedBytes)))
  }

  function PublishFrame(s: State, f: Frame): State {
    if !Accepts(s, f) then s
    else
      var q := Append(s, f);
      if s.options.queued && OverLimit(q) then AfterDrops(DropUntilFits(q)) else q
  }

  /** Close what was delivered, open and close what was only queued, in id order. */
  function ClosingPair(active: map<nat, Descriptor>, delivered: map<nat, Descriptor>, id: nat): seq<Item>
    requires id in active
  {
    (if id in delivered then [Closed(delivered[id], Shutdown)] else []) +
    (if id in delivered && delivered[id].key == active[id].key then []
     else [Opened(active[id], Snapshot), Closed(active[id], Shutdown)])
  }

  function ClosingActive(active: map<nat, Descriptor>, delivered: map<nat, Descriptor>, ids: seq<nat>, n: nat)
    : seq<Item>
    requires n <= |ids| && forall id | id in ids :: id in active
  {
    if n == 0 then []
    else ClosingActive(active, delivered, ids, n - 1) + ClosingPair(active, delivered, ids[n - 1])
  }

  function ClosingRest(active: map<nat, Descriptor>, delivered: map<nat, Descriptor>, ids: seq<nat>, n: nat): seq<Item>
    requires n <= |ids| && forall id | id in ids :: id in delivered
  {
    if n == 0 then []
    else ClosingRest(active, delivered, ids, n - 1)
         + (if ids[n - 1] in active then [] else [Closed(delivered[ids[n - 1]], Shutdown)])
  }

  function ClosingTail(active: map<nat, Descriptor>, delivered: map<nat, Descriptor>): seq<Item> {
    var open := Ids(active);
    var shown := Ids(delivered);
    ClosingActive(active, delivered, open, |open|) + ClosingRest(active, delivered, shown, |shown|)
  }

  function PrepareTerminal(s: State, closeStreams: bool): State {
    s.(accepting := false,
       items := (if closeStreams then ClosingTail(s.active, s.delivered) else []) + [SubscriptionClosed],
       queuedFrames := 0, queuedBytes := 0,
       active := map[], terminalEnqueued := true, activated := true)
  }

  /** A cancel issued by the thread inside the current callback. */
  predicate SelfCancel(s: State, thread: Thread) {
    s.callback.Some? && s.callback.value.thread == thread
  }

  function Cancel(s: State, thread: Thread, closeStreams: bool): State {
    if s.terminalDelivered || s.terminalEnqueued then s
    else
      var p := PrepareTerminal(s, closeStreams);
      if SelfCancel(s, thread) then p.(items := [], terminalDelivered := true) else p
  }

  function Activate(s: State): State {
    s.(activated := true)
  }

  function UpdateDelivered(delivered: map<nat, Descriptor>, item: Item): map<nat, Descriptor> {
    match item
    case Opened(d, _) => delivered[d.key.stream := d]
    case Closed(d, _) =>
      if d.key.stream in delivered && delivered[d.key.stream].key == d.key
      then delivered - {d.key.stream} else delivered
    case _ => delivered
  }

  predicate CanTake(s: State) {
    s.activated && !s.terminalDelivered && s.items != [] && s.callback.None?
  }

  function Take(s: State, thread: Thread): State {
    if !CanTake(s) then s
    else
      var item := s.items[0];
      var t := s.(items := s.items[1..],
                  delivered := UpdateDelivered(s.delivered, item),
                  callback := Some(Callback(thread, item)));
      if item.Media? then
        t.(queuedFrames := s.queuedFrames - 1, queuedBytes := s.queuedBytes - |item.frame.payload|)
      else t
  }

  function Finish(s: State): State {
    match s.callback
    case None => s
    case Some(c) =>
      s.(callback := None,
         stats := s.stats.(delivered := s.stats.delivered + (if c.item.Media? then 1 else 0)),
         terminalDelivered := s.terminalDelivered || c.item.SubscriptionClosed?)
  }

  // ------------------------------------------- every step keeps the counters

  lemma PublishEventExact(s: State, event: StreamEvent)
    requires CountersExact(s)
    ensures CountersExact(PublishEvent(s, event))
  {
    var added := PublishEvent(s, event).items[|s.items|..];
    NoFrames(added);
    FramesOfConcat(s.items, added);
    assert PublishEvent(s, event).items == s.items + added;
  }

  lemma ReplaceItem(items: seq<Item>, i: nat, item: Item)
    requires i < |items|
    ensures FramesOf(items[i := item]) == FramesOf(items[..i]) + FramesOf([item]) + FramesOf(items[i + 1..])
    ensures FramesOf(items) == FramesOf(items[..i]) + FramesOf([items[i]]) + FramesOf(items[i + 1..])
  {
    hide FramesOf;
    assert items[i := item] == items[..i] + [item] + items[i + 1..];
    FramesOfThree(items[..i], [item], items[i + 1..]);
    assert items == items[..i] + [items[i]] + items[i + 1..];
    FramesOfThree(items[..i], [items[i]], items[i + 1..]);
  }

  lemma InsertItem(a: seq<Item>, item: Item, b: seq<Item>)
    requires !item.Media?
    ensures FramesOf(a + [item] + b) == FramesOf(a + b)
  {
    FramesOfThree(a, [item], b);
    FramesOfConcat(a, b);
    NoFrames([item]);
  }

  lemma AnnounceFrames(items: seq<Item>, notice: Item)
    requires notice.Dropped?
    ensures FramesOf(Announce(items, notice)) == FramesOf(items)
  {
    match OpenNotice(items)
    case Some(i) =>
      ReplaceItem(items, i, notice);
    case None =>
      var n := FirstFrame(items);
      InsertItem(items[..n], notice, items[n..]);
      assert items == items[..n] + items[n..];
  }

  /** The frames of the queue once the oldest one is marked. */
  lemma MarkNextFrames(items: seq<Item>)
    ensures var frames := FramesOf(items);
            && FramesOf(MarkNext(items)) == (if frames == [] then [] else [Marked(frames[0])] + frames[1..])
            && PayloadBytes(FramesOf(MarkNext(items))) == PayloadBytes(frames)
  {
    var n := FirstFrame(items);
    FirstFrameSplits(items);
    if n < |items| {
      ReplaceItem(items, n, Media(Marked(items[n].frame)));
    }
  }

  lemma AppendExact(s: State, f: Frame)
    requires CountersExact(s)
    ensures CountersExact(Append(s, f))
  {
    FramesOfConcat(s.items, [Media(f)]);
    assert FramesOf([Media(f)]) == [f];
    assert PayloadBytes([f]) == |f.payload|;
  }

  lemma DropOldestExact(s: State)
    requires CountersExact(s)
    ensures CountersExact(DropOldest(s))
    ensures FramesOf(s.items) != [] ==> FramesOf(DropOldest(s).items) == FramesOf(s.items)[1..]
    ensures s.queuedFrames != 0 <==> FirstFrame(s.items) < |s.items|
  {
    FirstFrameSplits(s.items);
    if FramesOf(s.items) != [] {
      RemoveFirstFrame(s.items);
    }
  }

  /** The drop loop ends within the limits. */
  lemma {:induction false} DropUntilFitsExact(s: State)
    requires CountersExact(s)
    ensures CountersExact(DropUntilFits(s)) && !OverLimit(DropUntilFits(s))
    decreases |s.items|
  {
    DropOldestExact(s);
    if MustDrop(s) {
      DropUntilFitsExact(DropOldest(s));
    }
  }

  lemma AfterDropsExact(s: State)
    requires CountersExact(s)
    ensures CountersExact(AfterDrops(s))
  {
    MarkNextFrames(s.items);
    AnnounceFrames(MarkNext(s.items), Dropped(s.stats.dropped, s.stats.droppedBytes));
  }

  lemma PublishFrameExact(s: State, f: Frame)
    requires CountersExact(s)
    ensures CountersExact(PublishFrame(s, f))
  {
    AppendExact(s, f);
    DropUntilFitsExact(Append(s, f));
    AfterDropsExact(DropUntilFits(Append(s, f)));
  }

  predicate AllLifecycle(items: seq<Item>) {
    forall i | 0 <= i < |items| :: items[i].Lifecycle()
  }

  lemma TerminalHasNoFrames(tail: seq<Item>)
    requires AllLifecycle(tail)
    ensures FramesOf(tail + [SubscriptionClosed]) == []
  {
    NoFrames(tail + [SubscriptionClosed]);
  }

  lemma CancelExact(s: State, thread: Thread, closeStreams: bool)
    requires CountersExact(s)
    ensures CountersExact(Cancel(s, thread, closeStreams))
  {
    TerminalHasNoFrames([]);
    TailIsLifecycle(s.active, s.delivered);
    TerminalHasNoFrames(ClosingTail(s.active, s.delivered));
  }

  lemma TailIsLifecycle(active: map<nat, Descriptor>, delivered: map<nat, Descriptor>)
    ensures AllLifecycle(ClosingTail(active, delivered))
  {
    ClosingActiveLifecycle(active, delivered, Ids(active), |Ids(active)|);
    ClosingRestLifecycle(active, delivered, Ids(delivered), |Ids(delivered)|);
  }

  lemma {:induction false} ClosingActiveLifecycle(
    active: map<nat, Descriptor>, delivered: map<nat, Descriptor>, ids: seq<nat>, n: nat)
    requires n <= |ids| && forall id | id in ids :: id in active
    ensures AllLifecycle(ClosingActive(active, delivered, ids, n))
  {
    if n != 0 {
      ClosingActiveLifecycle(active, delivered, ids, n - 1);
    }
  }

  lemma {:induction false} ClosingRestLifecycle(
    active: map<nat, Descriptor>, delivered: map<nat, Descriptor>, ids: seq<nat>, n: nat)
    requires n <= |ids| && forall id | id in ids :: id in delivered
    ensures AllLifecycle(ClosingRest(active, delivered, ids, n))
  {
    if n != 0 {
      ClosingRestLifecycle(active, delivered, ids, n - 1);
    }
  }

  lemma TakeExact(s: State, thread: Thread)
    requires CountersExact(s)
    ensures CountersExact(Take(s, thread))
  {
    if CanTake(s) {
      assert s.items == [s.items[0]] + s.items[1..];
      FramesOfConcat([s.items[0]], s.items[1..]);
    }
  }

  method CloseActive(active: map<nat, Descriptor>, delivered: map<nat, Descriptor>, ids: seq<nat>)
    returns (tail: seq<Item>)
    requires forall id | id in ids :: id in active
    ensures tail == ClosingActive(active, delivered, ids, |ids|)
  {
    tail := [];
    for i := 0 to |ids|
      invariant tail == ClosingActive(active, delivered, ids, i)
    {
      var id := ids[i];
      var pair: seq<Item> := [];
      if id in delivered {
        pair := [Closed(delivered[id], Shutdown)];
      }
      if id !in delivered || delivered[id].key != active[id].key {
        pair := pair + [Opened(active[id], Snapshot), Closed(active[id], Shutdown)];
      }
      tail := tail + pair;
    }
  }

  method CloseRest(active: map<nat, Descriptor>, delivered: map<nat, Descriptor>, ids: seq<nat>)
    returns (tail: seq<Item>)
    requires forall id | id in ids :: id in delivered
    ensures tail == ClosingRest(active, delivered, ids, |ids|)
  {
    tail := [];
    for i := 0 to |ids|
      invariant tail == ClosingRest(active, delivered, ids, i)
    {
      if ids[i] !in active {
        tail := tail + [Closed(delivered[ids[i]], Shutdown)];
      }
    }
  }

  method BuildClosingTail(active: map<nat, Descriptor>, delivered: map<nat, Descriptor>)
    returns (tail: seq<Item>)
    ensures tail == ClosingTail(active, delivered)
  {
    var first := CloseActive(active, delivered, Ids(active));
    var rest := CloseRest(active, delivered, Ids(delivered));
    tail := first + rest;
  }

  // -------------------------------------------------- the queue held in place

  class Core {
    const options: Options
    var items: seq<Item>
    var active: map<nat, Descriptor>
    var delivered: map<nat, Descriptor>
    var queuedFrames: nat
    var queuedBytes: nat
    var stats: Stats
    var accepting: bool
    var activated: bool
    var terminalEnqueued: bool
    var terminalDelivered: bool
    var callback: Option<Callback>

    ghost function View(): State
      reads this
    {
      State(options, items, active, delivered, queuedFrames, queuedBytes, stats,
            accepting, activated, terminalEnqueued, terminalDelivered, callback)
    }

    ghost predicate Valid()
      reads this
    {
      CountersExact(View())
    }

    constructor (options: Options)
      ensures View() == Initial(options)
      ensures Valid()
    {
      this.options := options;
      items, active, delivered := [], map[], map[];
      queuedFrames, queuedBytes := 0, 0;
      stats := Stats(0, 0, 0, 0);
      accepting, activated, terminalEnqueued, terminalDelivered := true, false, false, false;
      callback := None;
    }

    method PublishStreamEvent(event: StreamEvent)
      requires Valid()
      modifies this
      ensures View() == PublishEvent(old(View()), event)
      ensures Valid()
    {
      hide FramesOf, PayloadBytes;
      PublishEventExact(View(), event);
      if !accepting || event.stream.key.generation == 0 {
        return;
      }
      var id := event.stream.key.stream;
      var added: seq<Item> := [];
      if event.Opened? {
        if id in active && active[id].key == event.stream.key {
          return;
        }
        if id in active {
          added := added + [Closed(active[id], event.reason)];
        }
        active := active[id := event.stream];
        added := added + [event];
      } else {
        if id !in active || active[id].key != event.stream.key {
          return;
        }
        added := added + [event];
        active := active - {id};
      }
      items := items + added;
    }

    method DropOldestFrame()
      requires Valid() && queuedFrames != 0
      modifies this`items, this`queuedFrames, this`queuedBytes, this`stats
      ensures View() == DropOldest(old(View()))
      ensures Valid()
    {
      hide FramesOf, PayloadBytes;
      DropOldestExact(View());
      var i := 0;
      while i < |items| && !items[i].Media?
        invariant i <= FirstFrame(items)
      {
        i := i + 1;
      }
      var size := |items[i].frame.payload|;
      items := items[..i] + items[i + 1..];
      queuedBytes := queuedBytes - size;
      queuedFrames := queuedFrames - 1;
      stats := stats.(dropped := stats.dropped + 1, droppedBytes := stats.droppedBytes + size);
    }

    method MarkNextFrameDiscontinuous()
      modifies this`items
      ensures items == MarkNext(old(items))
    {
      var i := 0;
      while i < |items|
        invariant i <= FirstFrame(items)
        invariant items == old(items)
      {
        if items[i].Media? {
          items := items[i := Media(Marked(items[i].frame))];
          return;
        }
        i := i + 1;
      }
    }

    method EnqueueDropEvent()
      modifies this`items
      ensures items == Announce(old(items), Dropped(stats.dropped, stats.droppedBytes))
    {
      var notice := Dropped(stats.dropped, stats.droppedBytes);
      var i := |items|;
      assert items[..i] == items;
      while i > 0 && !items[i - 1].Lifecycle()
        invariant 0 <= i <= |items|
        invariant OpenNotice(items[..i]) == OpenNotice(items)
        invariant items == old(items)
      {
        assert items[..i][..i - 1] == items[..i - 1];
        if items[i - 1].Dropped? {
          items := items[i - 1 := notice];
          return;
        }
        i := i - 1;
      }
      var next := 0;
      while next < |items| && !items[next].Media?
        invariant next <= FirstFrame(items)
      {
        next := next + 1;
      }
      items := items[..next] + [notice] + items[next..];
    }

    method PublishMediaFrame(frame: Frame)
      requires Valid()
      modifies this
      ensures View() == PublishFrame(old(View()), frame)
      ensures Valid()
    {
      if !accepting || frame.key.generation == 0 || frame.key.stream !in active
         || active[frame.key.stream].key != frame.key {
        return;
      }
      ghost var appended := Append(View(), frame);
      AppendExact(View(), frame);
      queuedBytes := queuedBytes + |frame.payload|;
      queuedFrames := queuedFrames + 1;
      stats := stats.(received := stats.received + 1);
      items := items + [Media(frame)];
      if options.queued {
        var dropped := false;
        while IsOverLimit() && queuedFrames != 0
          invariant Valid()
          invariant DropUntilFits(View()) == DropUntilFits(appended)
          invariant dropped <==> View() != appended
          invariant dropped ==> OverLimit(appended)
          invariant queuedFrames <= appended.queuedFrames
          invariant dropped ==> queuedFrames < appended.queuedFrames
          decreases queuedFrames
        {
          DropOldestExact(View());
          DropOldestFrame();
          dropped := true;
        }
        if dropped {
          AfterDropsExact(View());
          MarkNextFrameDiscontinuous();
          EnqueueDropEvent();
        }
      }
    }

    predicate IsOverLimit()
      reads this
      ensures IsOverLimit() <==> OverLimit(View())
    {
      || (options.maxFrames != 0 && queuedFrames > options.maxFrames)
      || (options.maxBytes != 0 && queuedBytes > options.maxBytes)
    }

    method CancelFrom(thread: Thread, closeStreams: bool)
      requires Valid()
      modifies this
      ensures View() == Cancel(old(View()), thread, closeStreams)
      ensures Valid()
    {
      hide FramesOf, PayloadBytes, ClosingTail;
      CancelExact(View(), thread, closeStreams);
      if terminalDelivered || terminalEnqueued {
        return;
      }
      var closing: seq<Item> := [];
      if closeStreams {
        closing := BuildClosingTail(active, delivered);
      }
      accepting, active := false, map[];
      items, queuedFrames, queuedBytes := closing + [SubscriptionClosed], 0, 0;
      terminalEnqueued, activated := true, true;
      if callback.Some? && callback.value.thread == thread {
        items, terminalDelivered := [], true;
      }
    }

    method ActivateDelivery()
      modifies this
      ensures View() == Activate(old(View()))
    {
      activated := true;
    }

    /** Moves the front item into the callback slot; false when nothing may be delivered now. */
    method TakeNext(thread: Thread) returns (taken: bool)
      requires Valid()
      modifies this
      ensures View() == Take(old(View()), thread)
      ensures Valid()
      ensures taken <==> CanTake(old(View()))
      ensures taken ==> callback == Some(Callback(thread, old(items)[0]))
    {
      hide FramesOf, PayloadBytes;
      TakeExact(View(), thread);
      if !activated || terminalDelivered || items == [] || callback.Some? {
        return false;
      }
      var item := items[0];
      items := items[1..];
      if item.Media? {
        queuedBytes := queuedBytes - |item.frame.payload|;
        queuedFrames := queuedFrames - 1;
      }
      delivered := UpdateDelivered(delivered, item);
      callback := Some(Callback(thread, item));
      return true;
    }

    method FinishItem()
      modifies this
      ensures View() == Finish(old(View()))
    {
      if callback.None? {
        return;
      }
      var item := callback.value.item;
      if item.Media? {
        stats := stats.(delivered := stats.delivered + 1);
      }
      if item.SubscriptionClosed? {
        terminalDelivered := true;
      }
      callback := None;
    }
  }
}

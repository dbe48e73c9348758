/**
 When the sink of a media stream subscription sees Discontinuity after a gap.

 A drop marks the oldest frame still queued. That is not always the next frame
 delivered: a frame larger than the byte limit evicts everything, itself
 included, and the frame published after it goes out unmarked
 (`OversizeLeavesAnUnmarkedGap`). From any state in which gaps were marked so
 far, a publish keeps them marked if and only if its frame is not oversize
 (`MarkingExact`); hence runs without such a frame mark every gap
 (`GapsAreMarked`).
 */
module SubscriptionGaps {
  import opened Wrappers
  import opened StreamSubscription
  import opened SubscriptionTrace
  import opened SubscriptionAccounting

  /** The total that had been announced when the last frame of `trace` was handed over. */
  function AtLastFrame(trace: seq<Item>): nat
    decreases |trace|
  {
    if trace == [] then 0
    else
      var seen := trace[..|trace| - 1];
      if trace[|trace| - 1].Media? then Announced(seen).frames else AtLastFrame(seen)
  }

  /** Every frame that follows newly announced drops carries Discontinuity. */
  predicate GapsMarked(trace: seq<Item>)
    decreases |trace|
  {
    trace == [] ||
    var seen, last := trace[..|trace| - 1], trace[|trace| - 1];
    && GapsMarked(seen)
    && (last.Media? && Announced(seen).frames > AtLastFrame(seen) ==> Discontinuity in last.frame.flags)
  }

  predicate Oversize(options: Options, f: Frame) {
    options.queued && options.maxBytes != 0 && |f.payload| > options.maxBytes
  }

  // ------------------------------------------------------------ who survives

  lemma LastFrameBytes(frames: seq<Frame>)
    requires frames != []
    ensures PayloadBytes(frames) >= |frames[|frames| - 1].payload|
    ensures |frames| == 1 ==> PayloadBytes(frames) == |frames[0].payload|
  {
    var n := |frames| - 1;
    assert frames == frames[..n] + [frames[n]];
    PayloadBytesConcat(frames[..n], [frames[n]]);
  }

  lemma {:induction false} DropsSpareTheNewest(s: State)
    requires CountersExact(s) && FramesOf(s.items) != []
    ensures var frames, kept := FramesOf(s.items), FramesOf(DropUntilFits(s).items);
            var newest := frames[|frames| - 1];
            if s.options.maxBytes != 0 && |newest.payload| > s.options.maxBytes then kept == []
            else kept != [] && kept[|kept| - 1] == newest
    decreases |s.items|
  {
    hide FramesOf, PayloadBytes;
    var frames := FramesOf(s.items);
    DropOldestExact(s);
    LastFrameBytes(frames);
    if MustDrop(s) && |frames| > 1 {
      DropsSpareTheNewest(DropOldest(s));
    } else if MustDrop(s) {
      assert FramesOf(DropOldest(s).items) == [];
      assert DropOldest(s).queuedFrames == 0;
    }
  }

  /** A publish that has to drop leaves a frame queued exactly when its own frame fits the byte limit. */
  lemma SurvivorUnlessOversize(s: State, f: Frame)
    requires CountersExact(s) && s.options.queued && Accepts(s, f) && OverLimit(Append(s, f))
    ensures var frames := FramesOf(PublishFrame(s, f).items);
            && (frames == [] <==> Oversize(s.options, f))
            && (frames != [] ==> Discontinuity in frames[0].flags)
  {
    hide PayloadBytes, Announce, MarkNext;
    var q := Append(s, f);
    AppendExact(s, f);
    FramesOfConcat(s.items, [Media(f)]);
    assert FramesOf([Media(f)]) == [f];
    hide FramesOf;
    DropsSpareTheNewest(q);
    var kept := DropUntilFits(q);
    MarkNextFrames(kept.items);
    AnnounceFrames(MarkNext(kept.items), Dropped(kept.stats.dropped, kept.stats.droppedBytes));
  }

  // -------------------------------------------------------------- the invariant

  ghost predicate WillMark(r: Run) {
    var frames, shown := FramesOf(r.core.items), AtLastFrame(r.trace);
    && (frames == [] ==> r.core.stats.dropped == shown)
    && (frames != [] && r.core.stats.dropped > shown ==> Discontinuity in frames[0].flags)
    && shown <= r.core.stats.dropped
  }

  ghost predicate Marking(r: Run) {
    && Balanced(r) && GapsMarked(r.trace)
    && (r.core.accepting ==> WillMark(r))
  }

  lemma PublishFrameMarks(r: Run, f: Frame)
    requires Marking(r) && Accepts(r.core, f) && !Oversize(r.core.options, f)
    ensures WillMark(Apply(r, PublishFrameStep(f)))
  {
    var s := r.core;
    var q := Append(s, f);
    hide PayloadBytes, AtLastFrame, GapsMarked, Accounted, QueueTells, LastTotals, Announce, MarkNext;
    AppendExact(s, f);
    FramesOfConcat(s.items, [Media(f)]);
    assert FramesOf([Media(f)]) == [f];
    hide FramesOf;
    if s.options.queued && OverLimit(q) {
      SurvivorUnlessOversize(s, f);
      DropsCount(q);
    }
  }

  lemma {:induction false} DropsCount(s: State)
    ensures DropUntilFits(s).stats.dropped >= s.stats.dropped
    decreases |s.items|
  {
    if MustDrop(s) {
      DropsCount(DropOldest(s));
    }
  }

  lemma TakeMarks(r: Run, thread: Thread)
    requires Marking(r) && CanTake(r.core)
    ensures Marking(Apply(r, TakeStep(thread)))
  {
    hide FramesOf, PayloadBytes, Accounted, QueueTells, LastTotals, Balanced, UpdateDelivered;
    var item, rest := r.core.items[0], r.core.items[1..];
    var trace := r.trace + [item];
    ApplyBalanced(r, TakeStep(thread));
    assert trace[..|trace| - 1] == r.trace;
    if item.Media? {
      FrontFrame(r);
      FrontFrameFrames(r.core.items, []);
    } else {
      OtherFrames(r.trace, item, rest);
      assert r.core.items == [item] + rest;
    }
  }

  lemma PublishEventMarks(r: Run, event: StreamEvent)
    requires Marking(r)
    ensures Marking(Apply(r, PublishEventStep(event)))
  {
    hide FramesOf, PayloadBytes, AtLastFrame, GapsMarked, LastTotals, Balanced;
    ApplyBalanced(r, PublishEventStep(event));
    var s, t := r.core, PublishEvent(r.core, event);
    if t != s {
      var added := t.items[|s.items|..];
      assert t.items == s.items + added;
      NoFrames(added);
      FramesOfConcat(s.items, added);
    }
  }

  lemma ApplyMarks(r: Run, step: Step)
    requires Marking(r)
    requires step.PublishFrameStep? ==> !Oversize(r.core.options, step.frame)
    ensures Marking(Apply(r, step))
  {
    hide FramesOf, PayloadBytes, AtLastFrame, GapsMarked, LastTotals, Balanced;
    ApplyBalanced(r, step);
    match step
    case PublishEventStep(e) => PublishEventMarks(r, e);
    case PublishFrameStep(f) => if Accepts(r.core, f) { PublishFrameMarks(r, f); }
    case ActivateStep =>
    case CancelStep(t, c) =>
    case TakeStep(t) => if CanTake(r.core) { TakeMarks(r, t); }
    case FinishStep =>
  }

  // ------------------------------------------------------------------ theorems

  /** No frame published by these steps exceeds the byte limit. */
  predicate OversizeFree(options: Options, steps: seq<Step>) {
    forall i | 0 <= i < |steps| :: steps[i].PublishFrameStep? ==> !Oversize(options, steps[i].frame)
  }

  lemma {:induction false} ExecuteMarks(r: Run, steps: seq<Step>)
    requires Marking(r) && OversizeFree(r.core.options, steps)
    ensures Marking(Execute(r, steps)) && Execute(r, steps).core.options == r.core.options
    decreases |steps|
  {
    hide Marking, Next;
    if steps != [] {
      var before, last := steps[..|steps| - 1], steps[|steps| - 1];
      ExecuteMarks(r, before);
      ApplyMarks(Execute(r, before), last);
      NextKeepsOptions(Execute(r, before).core, last);
    }
  }

  lemma StartMarks(options: Options)
    ensures Marking(Start(options))
  {
  }

  /** Without oversize frames, every gap in the delivered frames is marked on its next frame. */
  lemma GapsAreMarked(options: Options, steps: seq<Step>)
    requires OversizeFree(options, steps)
    ensures GapsMarked(Execute(Start(options), steps).trace)
  {
    hide Execute;
    StartMarks(options);
    ExecuteMarks(Start(options), steps);
  }

  lemma ExecuteLast(r: Run, steps: seq<Step>, step: Step)
    ensures Execute(r, steps + [step]) == Apply(Execute(r, steps), step)
  {
    assert (steps + [step])[..|steps|] == steps;
  }

  // ------------------------------------------------------------- the failing side

  /** Whatever happens next, short of another oversize frame, every gap is marked. */
  ghost predicate MarksFrom(r: Run) {
    forall steps | OversizeFree(r.core.options, steps) :: GapsMarked(Execute(r, steps).trace)
  }

  /** An unmarked frame waits behind events and notices that will announce drops the sink has not seen. */
  ghost predicate GapWaits(r: Run) {
    && Balanced(r) && Legal(r) && r.core.accepting && r.core.items != []
    && var n := |r.core.items| - 1;
    && r.core.items[n].Media? && Discontinuity !in r.core.items[n].frame.flags
    && (forall i | 0 <= i < n :: !r.core.items[i].Media?)
    && r.core.stats.dropped > AtLastFrame(r.trace)
  }

  /** The sink finishes what it is at and takes the next item. */
  function NextItem(r: Run): Run {
    Apply(Apply(Apply(r, ActivateStep), FinishStep), TakeStep(0))
  }

  lemma TakesFront(r: Run)
    requires Legal(r) && r.core.items != []
    ensures var t := NextItem(r);
            && t.trace == r.trace + [r.core.items[0]] && t.core.items == r.core.items[1..]
            && t.core.accepting == r.core.accepting
            && t.core.stats.dropped == r.core.stats.dropped && t.core.options == r.core.options
  {
    hide UpdateDelivered, QueueReplays, Replay;
  }

  lemma GapMoves(r: Run)
    requires GapWaits(r) && |r.core.items| > 1
    ensures GapWaits(NextItem(r))
  {
    hide Balanced, Legal, AtLastFrame, Next;
    var t, item := NextItem(r), r.core.items[0];
    TakesFront(r);
    ApplyBalanced(r, ActivateStep);
    ApplyBalanced(Apply(r, ActivateStep), FinishStep);
    ApplyBalanced(Apply(Apply(r, ActivateStep), FinishStep), TakeStep(0));
    ApplyLegal(r, ActivateStep);
    ApplyLegal(Apply(r, ActivateStep), FinishStep);
    ApplyLegal(Apply(Apply(r, ActivateStep), FinishStep), TakeStep(0));
    SameLastFrame(r.trace, item);
  }

  lemma SameLastFrame(trace: seq<Item>, item: Item)
    requires !item.Media?
    ensures AtLastFrame(trace + [item]) == AtLastFrame(trace)
  {
    assert (trace + [item])[..|trace|] == trace;
  }

  /** With only the frame left, everything dropped has been announced. */
  lemma GapShows(r: Run)
    requires GapWaits(r) && |r.core.items| == 1
    ensures !GapsMarked(NextItem(r).trace)
  {
    TakesFront(r);
    var f := r.core.items[0];
    assert r.core.items[..0] == [];
    assert Announced(r.trace).frames == r.core.stats.dropped by { AllAnnounced(r); }
    assert (r.trace + [f])[..|r.trace|] == r.trace;
  }

  lemma AllAnnounced(r: Run)
    requires Balanced(r) && r.core.accepting && |r.core.items| == 1 && r.core.items[0].Media?
    ensures Announced(r.trace).frames == r.core.stats.dropped
  {
    NoNoticeNoChange(Announced(r.trace), r.core.items);
  }

  lemma {:induction false} GapIsDelivered(r: Run) returns (steps: seq<Step>)
    requires GapWaits(r)
    ensures OversizeFree(r.core.options, steps) && !GapsMarked(Execute(r, steps).trace)
    decreases |r.core.items|
  {
    hide GapsMarked, Execute, GapWaits, NextItem;
    var three := [ActivateStep, FinishStep, TakeStep(0)];
    ExecuteNextItem(r);
    GapTakesFront(r);
    if |r.core.items| == 1 {
      GapShows(r);
      steps := three;
    } else {
      GapMoves(r);
      var rest := GapIsDelivered(NextItem(r));
      steps := three + rest;
      ExecuteConcat(r, three, rest);
    }
  }

  lemma GapTakesFront(r: Run)
    requires GapWaits(r)
    ensures var t := NextItem(r);
            r.core.items != [] && t.core.items == r.core.items[1..] && t.core.options == r.core.options
  {
    hide NextItem, Legal, Balanced, AtLastFrame;
    TakesFront(r);
  }

  lemma ExecuteNextItem(r: Run)
    ensures Execute(r, [ActivateStep, FinishStep, TakeStep(0)]) == NextItem(r)
  {
    hide Apply, Execute;
    ExecuteThree(r, ActivateStep, FinishStep, TakeStep(0));
  }

  lemma ExecuteThree(r: Run, a: Step, b: Step, c: Step)
    ensures Execute(r, [a, b, c]) == Apply(Apply(Apply(r, a), b), c)
  {
    hide Apply;
    assert [a] == [] + [a] && [a, b] == [a] + [b] && [a, b, c] == [a, b] + [c];
    ExecuteLast(r, [], a);
    ExecuteLast(r, [a], b);
    ExecuteLast(r, [a, b], c);
  }

  /** The smallest frame of the stream, without flags. */
  function EmptyFrame(key: StreamKey): Frame {
    Frame(key, [], {})
  }

  /** An oversize frame drops everything; an empty frame published next then waits for its gap. */
  lemma OversizeThenEmpty(r: Run, f: Frame)
    requires Marking(r) && Legal(r) && Accepts(r.core, f) && Oversize(r.core.options, f)
    ensures GapWaits(Apply(Apply(r, PublishFrameStep(f)), PublishFrameStep(EmptyFrame(f.key))))
  {
    hide Balanced, Legal, GapsMarked, AtLastFrame, DropUntilFits, Announce, MarkNext, FramesOf, PayloadBytes;
    var e := EmptyFrame(f.key);
    var r1 := Apply(r, PublishFrameStep(f));
    var r2 := Apply(r1, PublishFrameStep(e));
    ApplyBalanced(r, PublishFrameStep(f));
    ApplyBalanced(r1, PublishFrameStep(e));
    ApplyLegal(r, PublishFrameStep(f));
    ApplyLegal(r1, PublishFrameStep(e));
    OversizeLeavesNoFrame(r.core, f, r);
    EmptyFits(r1.core, e, r1);
  }

  lemma OversizeLeavesNoFrame(s: State, f: Frame, r: Run)
    requires r.core == s && Balanced(r) && Accepts(s, f) && Oversize(s.options, f)
    ensures var t := PublishFrame(s, f);
            && FramesOf(t.items) == [] && t.stats.dropped > s.stats.dropped
            && t.active == s.active && t.accepting && t.options == s.options
  {
    hide Accounted, Backed, QueueTells, LastTotals, PayloadBytes, Announce, MarkNext;
    var q := Append(s, f);
    SurvivorUnlessOversize(s, f);
    AppendExact(s, f);
    FramesOfConcat(s.items, [Media(f)]);
    assert FramesOf([Media(f)]) == [f];
    hide FramesOf;
    FirstFrameSplits(q.items);
    DropsCount(DropOldest(q));
    DropsKeepRest(q);
  }

  lemma {:induction false} DropsKeepRest(s: State)
    ensures var t := DropUntilFits(s); t.active == s.active && t.accepting == s.accepting && t.options == s.options
    decreases |s.items|
  {
    if MustDrop(s) {
      DropsKeepRest(DropOldest(s));
    }
  }

  lemma EmptyFits(s: State, e: Frame, r: Run)
    requires r.core == s && Balanced(r) && FramesOf(s.items) == [] && Accepts(s, e) && e.payload == []
    ensures PublishFrame(s, e) == Append(s, e) && forall i | 0 <= i < |s.items| :: !s.items[i].Media?
  {
    hide Accounted, Backed, QueueTells, LastTotals, PayloadBytes, DropUntilFits;
    FirstFrameSplits(s.items);
  }

  /** From every state in which the property still holds, an accepted oversize frame loses it. */
  lemma OversizeGapUnmarked(r: Run, f: Frame)
    requires Marking(r) && Legal(r) && Accepts(r.core, f) && Oversize(r.core.options, f)
    ensures !MarksFrom(Apply(r, PublishFrameStep(f)))
  {
    hide GapsMarked, Execute, Apply, Marking, GapWaits;
    var r1, empty := Apply(r, PublishFrameStep(f)), PublishFrameStep(EmptyFrame(f.key));
    OversizeThenEmpty(r, f);
    var rest := GapIsDelivered(Apply(r1, empty));
    ExecuteConcat(r1, [empty], rest);
    assert Execute(r1, [empty]) == Apply(r1, empty) by {
      ExecuteLast(r1, [], empty);
      ExecuteNone(r1);
      assert [] + [empty] == [empty];
    }
    SameOptions(r, PublishFrameStep(f));
    SameOptions(r1, empty);
    assert OversizeFree(r1.core.options, [empty] + rest);
  }

  lemma ExecuteNone(r: Run)
    ensures Execute(r, []) == r
  {
  }

  lemma SameOptions(r: Run, step: Step)
    ensures Apply(r, step).core.options == r.core.options
  {
    hide Next;
    NextKeepsOptions(r.core, step);
  }

  /**
   Publishing a frame keeps every later gap marked, on every continuation without
   an oversize frame, if and only if the frame itself is not oversize.
   */
  lemma MarkingExact(r: Run, f: Frame)
    requires Marking(r) && Legal(r) && Accepts(r.core, f)
    ensures MarksFrom(Apply(r, PublishFrameStep(f))) <==> !Oversize(r.core.options, f)
  {
    hide GapsMarked, Execute, Apply, Marking, Legal;
    var r1 := Apply(r, PublishFrameStep(f));
    if Oversize(r.core.options, f) {
      OversizeGapUnmarked(r, f);
    } else {
      ApplyMarks(r, PublishFrameStep(f));
      forall steps | OversizeFree(r1.core.options, steps) ensures GapsMarked(Execute(r1, steps).trace) {
        ExecuteMarks(r1, steps);
        MarkingShows(Execute(r1, steps));
      }
    }
  }

  lemma MarkingShows(r: Run)
    requires Marking(r)
    ensures GapsMarked(r.trace)
  {
  }

  /** The same for every run that published no oversize frame so far. */
  lemma EveryRunMarksExactly(options: Options, steps: seq<Step>, f: Frame)
    requires OversizeFree(options, steps) && Accepts(Execute(Start(options), steps).core, f)
    ensures MarksFrom(Apply(Execute(Start(options), steps), PublishFrameStep(f))) <==> !Oversize(options, f)
  {
    hide Execute, Marking, MarksFrom, Apply;
    StartMarks(options);
    ExecuteMarks(Start(options), steps);
    ExecuteLegal(Start(options), steps);
    MarkingExact(Execute(Start(options), steps), f);
  }

  lemma ExecuteFour(r: Run, a: Step, b: Step, c: Step, d: Step)
    ensures Execute(r, [a, b, c, d]) == Apply(Apply(Apply(Apply(r, a), b), c), d)
  {
    hide Apply;
    assert [a, b, c, d] == [a, b, c] + [d];
    ExecuteThree(r, a, b, c);
    ExecuteLast(r, [a, b, c], d);
  }

  lemma {:induction false} ExecuteConcat(r: Run, before: seq<Step>, after: seq<Step>)
    ensures Execute(r, before + after) == Execute(Execute(r, before), after)
    decreases |after|
  {
    if after == [] {
      assert before + after == before;
    } else {
      var n := |after| - 1;
      assert before + after == (before + after[..n]) + [after[n]];
      ExecuteLast(r, before + after[..n], after[n]);
      ExecuteConcat(r, before, after[..n]);
    }
  }

  /** A subscription with one open stream and nothing queued. */
  lemma IdleRun(options: Options, key: StreamKey)
    requires key.generation != 0
    ensures var d := Descriptor(key, "");
            var r := Execute(Start(options),
                             [PublishEventStep(Opened(d, InitialOpen)), ActivateStep, TakeStep(0), FinishStep]);
            && r.core.items == [] && r.core.callback == None && r.core.activated && !r.core.terminalDelivered
            && r.core.accepting && r.core.options == options && r.core.active == map[key.stream := d]
  {
    var e := Opened(Descriptor(key, ""), InitialOpen);
    ExecuteFour(Start(options), PublishEventStep(e), ActivateStep, TakeStep(0), FinishStep);
    assert PublishEvent(Initial(options), e).items == [e];
  }

  /** The failure is reachable: one open stream, a byte limit of one and a two-byte frame. */
  lemma OversizeLeavesAnUnmarkedGap()
    ensures exists steps: seq<Step> :: !GapsMarked(Execute(Start(Options(true, 0, 1)), steps).trace)
  {
    hide GapsMarked, Execute, Apply;
    var key, options := StreamKey("s", 1, 1), Options(true, 0, 1);
    var big := Frame(key, [0, 0], {});
    var idle := [PublishEventStep(Opened(Descriptor(key, ""), InitialOpen)), ActivateStep, TakeStep(0), FinishStep];
    IdleRun(options, key);
    EveryRunMarksExactly(options, idle, big);
    var r := Execute(Start(options), idle);
    var r1 := Apply(r, PublishFrameStep(big));
    var rest :| OversizeFree(r1.core.options, rest) && !GapsMarked(Execute(r1, rest).trace);
    ExecuteLast(Start(options), idle, PublishFrameStep(big));
    ExecuteConcat(Start(options), idle + [PublishFrameStep(big)], rest);
    assert !GapsMarked(Execute(Start(options), idle + [PublishFrameStep(big)] + rest).trace);
  }
}

/**
 What a media stream subscription drops, and what it tells the sink about it.

 The frames handed over are the accepted frames in arrival order with gaps, and
 the drop notices measure the gaps exactly: before each frame, the announced
 total is the number of accepted frames skipped so far.
 */
module SubscriptionAccounting {
  import opened Wrappers
  import opened StreamSubscription
  import opened SubscriptionTrace

  datatype Totals = Totals(frames: nat, bytes: nat)
  {
    predicate AtMost(other: Totals) {
      frames <= other.frames && bytes <= other.bytes
    }
  }

  /** The totals announced by the last notice in `items`, or `from` when there is none. */
  function LastTotals(from: Totals, items: seq<Item>): Totals
    decreases |items|
  {
    if items == [] then from
    else
      var last := items[|items| - 1];
      if last.Dropped? then Totals(last.frames, last.bytes) else LastTotals(from, items[..|items| - 1])
  }

  /** Notice totals never decrease, starting at `from`. */
  predicate Rising(from: Totals, items: seq<Item>)
    decreases |items|
  {
    items == [] ||
    var rest, last := items[..|items| - 1], items[|items| - 1];
    Rising(from, rest) && (last.Dropped? ==> LastTotals(from, rest).AtMost(Totals(last.frames, last.bytes)))
  }

  function Announced(trace: seq<Item>): Totals {
    LastTotals(Totals(0, 0), trace)
  }

  predicate NoNotice(items: seq<Item>) {
    forall i | 0 <= i < |items| :: !items[i].Dropped?
  }

  /** No notice is queued behind a frame. */
  predicate NoticesFirst(items: seq<Item>) {
    forall i, j | 0 <= i < j < |items| :: items[i].Media? ==> !items[j].Dropped?
  }

  predicate SameFrame(f: Frame, accepted: Frame) {
    f == accepted || f == Marked(accepted)
  }

  /**
   Each frame of the trace is the accepted frame whose index is the number of
   frames seen before it plus the number announced as dropped; the announced
   bytes are those of the skipped frames, and announcements never go back.
   */
  ghost predicate Accounted(trace: seq<Item>, arrivals: seq<Frame>)
    decreases |trace|
  {
    trace == [] ||
    var seen, last := trace[..|trace| - 1], trace[|trace| - 1];
    var skipped := Announced(seen);
    && Accounted(seen, arrivals)
    && (last.Dropped? ==> skipped.AtMost(Totals(last.frames, last.bytes)))
    && (last.Media? ==>
          var index := |FramesOf(seen)| + skipped.frames;
          && index < |arrivals| && SameFrame(last.frame, arrivals[index])
          && PayloadBytes(arrivals[..index]) == PayloadBytes(FramesOf(seen)) + skipped.bytes)
  }

  // ------------------------------------------------------ totals along a queue

  lemma {:induction false} TotalsConcat(from: Totals, a: seq<Item>, b: seq<Item>)
    ensures LastTotals(from, a + b) == LastTotals(LastTotals(from, a), b)
    ensures Rising(from, a + b) <==> Rising(from, a) && Rising(LastTotals(from, a), b)
    decreases |b|
  {
    if b == [] {
      assert a + b == a;
    } else {
      assert (a + b)[..|a + b| - 1] == a + b[..|b| - 1];
      TotalsConcat(from, a, b[..|b| - 1]);
    }
  }

  lemma {:induction false} NoNoticeNoChange(from: Totals, items: seq<Item>)
    requires NoNotice(items)
    ensures LastTotals(from, items) == from && Rising(from, items)
    decreases |items|
  {
    if items != [] {
      NoNoticeNoChange(from, items[..|items| - 1]);
    }
  }

  /** Notices are all ahead of the oldest frame. */
  lemma NoticesAhead(from: Totals, items: seq<Item>, n: nat)
    requires NoticesFirst(items) && FirstFrame(items) <= n <= |items|
    ensures NoNotice(items[n..])
    ensures LastTotals(from, items[..n]) == LastTotals(from, items)
    ensures Rising(from, items[..n]) <==> Rising(from, items)
  {
    var first := FirstFrame(items);
    assert first < |items| ==> items[first].Media?;
    assert NoNotice(items[n..]);
    assert items == items[..n] + items[n..];
    TotalsConcat(from, items[..n], items[n..]);
    NoNoticeNoChange(LastTotals(from, items[..n]), items[n..]);
  }

  /** Taking out or changing an item that is no notice leaves the totals alone. */
  lemma ReplaceNonNotice(from: Totals, a: seq<Item>, x: seq<Item>, y: seq<Item>, b: seq<Item>)
    requires NoNotice(x) && NoNotice(y)
    ensures LastTotals(from, a + x + b) == LastTotals(from, a + y + b)
    ensures Rising(from, a + x + b) <==> Rising(from, a + y + b)
  {
    TotalsConcat(from, a + x, b);
    TotalsConcat(from, a + y, b);
    TotalsConcat(from, a, x);
    TotalsConcat(from, a, y);
    NoNoticeNoChange(LastTotals(from, a), x);
    NoNoticeNoChange(LastTotals(from, a), y);
  }

  lemma {:induction false} OpenNoticeIsLast(items: seq<Item>)
    requires OpenNotice(items).Some?
    ensures NoNotice(items[OpenNotice(items).value + 1..])
    decreases |items|
  {
    var last := |items| - 1;
    if !items[last].Dropped? {
      OpenNoticeIsLast(items[..last]);
      var i := OpenNotice(items).value;
      assert items[i + 1..] == items[..last][i + 1..] + [items[last]];
    }
  }

  ghost predicate QueueTells(from: Totals, items: seq<Item>) {
    NoticesFirst(items) && Rising(from, items)
  }

  lemma AnnounceKeepsNoticesFirst(items: seq<Item>, notice: Item)
    requires NoticesFirst(items) && notice.Dropped?
    ensures NoticesFirst(Announce(items, notice))
  {
  }

  /** Announcing a larger total keeps notices first and rising, and makes it the last word. */
  lemma AnnounceTells(from: Totals, items: seq<Item>, total: Totals)
    requires QueueTells(from, items) && LastTotals(from, items).AtMost(total)
    ensures var told := Announce(items, Dropped(total.frames, total.bytes));
            QueueTells(from, told) && LastTotals(from, told) == total
  {
    hide Rising, LastTotals, OpenNotice, NoticesFirst, NoNotice, FirstFrame;
    var notice := Dropped(total.frames, total.bytes);
    AnnounceKeepsNoticesFirst(items, notice);
    match OpenNotice(items)
    case Some(i) =>
      OpenNoticeIsLast(items);
      assert items == items[..i] + [items[i]] + items[i + 1..];
      NoticePlaced(from, items[..i], [items[i]], notice, items[i + 1..]);
      assert items[i := notice] == items[..i] + [notice] + items[i + 1..];
    case None =>
      var n := FirstFrame(items);
      NoticesAhead(from, items, n);
      assert items == items[..n] + [] + items[n..];
      NoticePlaced(from, items[..n], [], notice, items[n..]);
  }

  lemma NoticePlaced(from: Totals, a: seq<Item>, was: seq<Item>, notice: Item, b: seq<Item>)
    requires notice.Dropped? && NoNotice(b)
    requires was == [] || (|was| == 1 && was[0].Dropped?)
    requires Rising(from, a + was + b)
    requires LastTotals(from, a + was + b).AtMost(Totals(notice.frames, notice.bytes))
    ensures Rising(from, a + [notice] + b)
    ensures LastTotals(from, a + [notice] + b) == Totals(notice.frames, notice.bytes)
  {
    TotalsConcat(from, a + was, b);
    TotalsConcat(from, a + [notice], b);
    NoNoticeNoChange(LastTotals(from, a + was), b);
    NoNoticeNoChange(Totals(notice.frames, notice.bytes), b);
    assert (a + [notice])[..|a + [notice]| - 1] == a;
    if was != [] {
      assert (a + was)[..|a + was| - 1] == a;
    } else {
      assert a + was == a;
    }
  }

  // -------------------------------------------------------------- the invariant

  /** The newest accepted frames, in order, are the queued ones. */
  ghost predicate Newest(queued: seq<Frame>, arrivals: seq<Frame>, gone: nat) {
    && |arrivals| == gone + |queued|
    && (forall i | 0 <= i < |queued| :: SameFrame(queued[i], arrivals[gone + i]))
  }

  lemma OldestLeaves(queued: seq<Frame>, arrivals: seq<Frame>, gone: nat)
    requires queued != [] && Newest(queued, arrivals, gone)
    ensures gone < |arrivals| && SameFrame(queued[0], arrivals[gone]) && Newest(queued[1..], arrivals, gone + 1)
    ensures PayloadBytes(arrivals[..gone + 1]) == PayloadBytes(arrivals[..gone]) + |queued[0].payload|
  {
    assert SameFrame(queued[0], arrivals[gone + 0]);
    assert arrivals[..gone + 1] == arrivals[..gone] + [arrivals[gone]];
    PayloadBytesConcat(arrivals[..gone], [arrivals[gone]]);
    forall i | 0 <= i < |queued[1..]| ensures SameFrame(queued[1..][i], arrivals[gone + 1 + i]) {
      assert SameFrame(queued[i + 1], arrivals[gone + (i + 1)]);
    }
  }

  /** The queued frames are the newest accepted ones; the rest were handed over or dropped. */
  ghost predicate Backed(s: State, seen: seq<Frame>, arrivals: seq<Frame>) {
    var gone := |seen| + s.stats.dropped;
    && CountersExact(s)
    && |arrivals| == s.stats.received
    && Newest(FramesOf(s.items), arrivals, gone)
    && PayloadBytes(arrivals[..gone]) == PayloadBytes(seen) + s.stats.droppedBytes
  }

  function DroppedTotals(s: State): Totals {
    Totals(s.stats.dropped, s.stats.droppedBytes)
  }

  ghost predicate Balanced(r: Run) {
    && CountersExact(r.core)
    && (r.core.options.queued ==> !OverLimit(r.core))
    && Accounted(r.trace, r.arrivals)
    && (r.core.accepting ==>
          && Backed(r.core, FramesOf(r.trace), r.arrivals)
          && QueueTells(Announced(r.trace), r.core.items)
          && LastTotals(Announced(r.trace), r.core.items) == DroppedTotals(r.core))
    && (!r.core.accepting ==> FramesOf(r.core.items) == [] && NoNotice(r.core.items))
  }

  lemma AppendBacked(s: State, f: Frame, seen: seq<Frame>, arrivals: seq<Frame>)
    requires Backed(s, seen, arrivals)
    ensures Backed(Append(s, f), seen, arrivals + [f])
  {
    hide FramesOf, PayloadBytes, CountersExact, Newest;
    AppendExact(s, f);
    FramesOfConcat(s.items, [Media(f)]);
    OneFrame(f);
    var gone := |seen| + s.stats.dropped;
    NewestLeaves(FramesOf(s.items), arrivals, gone, f);
  }

  lemma OneFrame(f: Frame)
    ensures FramesOf([Media(f)]) == [f]
  {
  }

  lemma NewestLeaves(queued: seq<Frame>, arrivals: seq<Frame>, gone: nat, f: Frame)
    requires Newest(queued, arrivals, gone)
    ensures Newest(queued + [f], arrivals + [f], gone)
    ensures gone <= |arrivals| && (arrivals + [f])[..gone] == arrivals[..gone]
  {
  }

  lemma DropBacked(s: State, seen: seq<Frame>, arrivals: seq<Frame>)
    requires Backed(s, seen, arrivals) && MustDrop(s)
    ensures Backed(DropOldest(s), seen, arrivals)
  {
    DropOldestExact(s);
    FirstFrameSplits(s.items);
    hide FramesOf, PayloadBytes, Newest;
    OldestLeaves(FramesOf(s.items), arrivals, |seen| + s.stats.dropped);
  }

  lemma DropTells(s: State, from: Totals)
    requires QueueTells(from, s.items) && MustDrop(s)
    ensures QueueTells(from, DropOldest(s).items)
    ensures LastTotals(from, DropOldest(s).items) == LastTotals(from, s.items)
  {
    var n := FirstFrame(s.items);
    hide Rising, LastTotals;
    assert s.items == s.items[..n] + [s.items[n]] + s.items[n + 1..];
    assert DropOldest(s).items == s.items[..n] + [] + s.items[n + 1..];
    ReplaceNonNotice(from, s.items[..n], [s.items[n]], [], s.items[n + 1..]);
  }

  /** The drop loop moves frames from queued to dropped and nothing else. */
  lemma {:induction false} DropsBalance(s: State, from: Totals, seen: seq<Frame>, arrivals: seq<Frame>)
    requires Backed(s, seen, arrivals) && QueueTells(from, s.items)
    ensures var t := DropUntilFits(s);
            && Backed(t, seen, arrivals) && QueueTells(from, t.items)
            && LastTotals(from, t.items) == LastTotals(from, s.items)
            && DroppedTotals(s).AtMost(DroppedTotals(t))
            && t.accepting == s.accepting && t.options == s.options
    decreases |s.items|
  {
    hide Backed, QueueTells, LastTotals;
    if MustDrop(s) {
      DropBacked(s, seen, arrivals);
      DropTells(s, from);
      DropsBalance(DropOldest(s), from, seen, arrivals);
    }
  }

  lemma MarkBacked(s: State, from: Totals, seen: seq<Frame>, arrivals: seq<Frame>)
    requires Backed(s, seen, arrivals) && QueueTells(from, s.items)
    ensures var t := s.(items := MarkNext(s.items));
            && Backed(t, seen, arrivals) && QueueTells(from, t.items)
            && LastTotals(from, t.items) == LastTotals(from, s.items)
  {
    MarkNextFrames(s.items);
    hide FramesOf, PayloadBytes, Rising, LastTotals;
    var n := FirstFrame(s.items);
    if n < |s.items| {
      var changed := Media(Marked(s.items[n].frame));
      assert s.items == s.items[..n] + [s.items[n]] + s.items[n + 1..];
      assert MarkNext(s.items) == s.items[..n] + [changed] + s.items[n + 1..];
      ReplaceNonNotice(from, s.items[..n], [s.items[n]], [changed], s.items[n + 1..]);
    }
  }

  lemma AnnounceBacked(s: State, from: Totals, seen: seq<Frame>, arrivals: seq<Frame>)
    requires Backed(s, seen, arrivals) && QueueTells(from, s.items)
    requires LastTotals(from, s.items).AtMost(DroppedTotals(s))
    ensures var t := s.(items := Announce(s.items, Dropped(s.stats.dropped, s.stats.droppedBytes)));
            && Backed(t, seen, arrivals) && QueueTells(from, t.items)
            && LastTotals(from, t.items) == DroppedTotals(s)
  {
    hide FramesOf, PayloadBytes, Rising, LastTotals, Announce;
    AnnounceFrames(s.items, Dropped(s.stats.dropped, s.stats.droppedBytes));
    AnnounceTells(from, s.items, DroppedTotals(s));
  }

  lemma AppendTells(s: State, item: Item, from: Totals)
    requires QueueTells(from, s.items) && !item.Dropped?
    ensures QueueTells(from, s.items + [item])
    ensures LastTotals(from, s.items + [item]) == LastTotals(from, s.items)
  {
    TotalsConcat(from, s.items, [item]);
    NoNoticeNoChange(LastTotals(from, s.items), [item]);
  }

  lemma {:induction false} MoreArrivals(trace: seq<Item>, arrivals: seq<Frame>, f: Frame)
    requires Accounted(trace, arrivals)
    ensures Accounted(trace, arrivals + [f])
    decreases |trace|
  {
    if trace != [] {
      var seen, last := trace[..|trace| - 1], trace[|trace| - 1];
      MoreArrivals(seen, arrivals, f);
      if last.Media? {
        var index := |FramesOf(seen)| + Announced(seen).frames;
        assert (arrivals + [f])[..index] == arrivals[..index];
      }
    }
  }

  lemma PublishFrameBalanced(r: Run, f: Frame)
    requires Balanced(r) && Accepts(r.core, f)
    ensures Balanced(Apply(r, PublishFrameStep(f)))
  {
    var s, from, seen := r.core, Announced(r.trace), FramesOf(r.trace);
    var q, arrivals := Append(s, f), r.arrivals + [f];
    hide Backed, QueueTells, LastTotals, Accounted, FramesOf, PayloadBytes, Announce, MarkNext;
    MoreArrivals(r.trace, r.arrivals, f);
    AppendBacked(s, f, seen, r.arrivals);
    AppendTells(s, Media(f), from);
    AppendExact(s, f);
    PublishFrameExact(s, f);
    if s.options.queued && OverLimit(q) {
      DropUntilFitsExact(q);
      DropsBalance(q, from, seen, arrivals);
      var t := DropUntilFits(q);
      MarkBacked(t, from, seen, arrivals);
      AnnounceBacked(t.(items := MarkNext(t.items)), from, seen, arrivals);
    }
  }

  /** Appending lifecycle events leaves frames and notices alone. */
  lemma EventsTell(s: State, added: seq<Item>, from: Totals)
    requires QueueTells(from, s.items) && AllLifecycle(added)
    ensures QueueTells(from, s.items + added)
    ensures LastTotals(from, s.items + added) == LastTotals(from, s.items)
    ensures FramesOf(s.items + added) == FramesOf(s.items)
  {
    NoFrames(added);
    FramesOfConcat(s.items, added);
    TotalsConcat(from, s.items, added);
    NoNoticeNoChange(LastTotals(from, s.items), added);
  }

  lemma PublishEventBalanced(r: Run, event: StreamEvent)
    requires Balanced(r)
    ensures Balanced(Apply(r, PublishEventStep(event)))
  {
    var s, from := r.core, Announced(r.trace);
    var t := PublishEvent(s, event);
    hide FramesOf, PayloadBytes, Accounted, QueueTells, LastTotals;
    PublishEventExact(s, event);
    if t != s {
      var added := t.items[|s.items|..];
      assert t.items == s.items + added;
      EventsTell(s, added, from);
    }
  }

  lemma CancelBalanced(r: Run, thread: Thread, closeStreams: bool)
    requires Balanced(r)
    ensures Balanced(Apply(r, CancelStep(thread, closeStreams)))
  {
    var s := r.core;
    var t := Cancel(s, thread, closeStreams);
    hide Accounted, Backed, QueueTells, LastTotals, ClosingTail, FramesOf, PayloadBytes;
    CancelExact(s, thread, closeStreams);
    if t != s {
      TailIsLifecycle(s.active, s.delivered);
      TerminalHasNoFrames(ClosingTail(s.active, s.delivered));
      TerminalHasNoFrames([]);
      NoFrames([]);
    }
  }

  lemma TakeOther(r: Run, thread: Thread)
    requires Balanced(r) && CanTake(r.core) && !r.core.items[0].Media?
    ensures Balanced(Apply(r, TakeStep(thread)))
  {
    hide FramesOf, LastTotals, QueueTells, Backed, Accounted, Take, CountersExact;
    var s, t := r.core, Take(r.core, thread);
    var item, rest := s.items[0], s.items[1..];
    assert s.items == [item] + rest;
    OtherFrames(r.trace, item, rest);
    TakeExact(s, thread);
    TakeFront(s, thread);
    TakeOtherKeeps(s, thread);
    OtherTells(r.trace, item, rest);
    AccountedOther(r.trace, item, r.arrivals);
    if s.accepting {
      BackedOther(s, t, FramesOf(r.trace), r.arrivals);
    }
  }

  lemma TakeOtherKeeps(s: State, thread: Thread)
    requires CanTake(s) && !s.items[0].Media?
    ensures var t := Take(s, thread);
            && t.accepting == s.accepting && t.options == s.options
            && t.queuedFrames == s.queuedFrames && t.queuedBytes == s.queuedBytes
  {
    hide UpdateDelivered;
  }

  lemma AccountedOther(trace: seq<Item>, item: Item, arrivals: seq<Frame>)
    requires Accounted(trace, arrivals) && !item.Media?
    requires item.Dropped? ==> Announced(trace).AtMost(Totals(item.frames, item.bytes))
    ensures Accounted(trace + [item], arrivals)
  {
    assert (trace + [item])[..|trace|] == trace;
  }

  lemma BackedOther(s: State, t: State, seen: seq<Frame>, arrivals: seq<Frame>)
    requires Backed(s, seen, arrivals) && CountersExact(t)
    requires t.stats == s.stats && FramesOf(t.items) == FramesOf(s.items)
    ensures Backed(t, seen, arrivals)
  {
    hide FramesOf, PayloadBytes, CountersExact;
  }

  lemma OtherFrames(trace: seq<Item>, item: Item, rest: seq<Item>)
    requires !item.Media?
    ensures FramesOf(trace + [item]) == FramesOf(trace)
    ensures FramesOf([item] + rest) == FramesOf(rest)
  {
    NoFrames([item]);
    FramesOfConcat([item], rest);
    FramesOfConcat(trace, [item]);
  }

  lemma OtherTells(trace: seq<Item>, item: Item, rest: seq<Item>)
    ensures var from, later := Announced(trace), Announced(trace + [item]);
            && (QueueTells(from, [item] + rest) ==>
                  && QueueTells(later, rest)
                  && (item.Dropped? ==> from.AtMost(Totals(item.frames, item.bytes))))
            && LastTotals(later, rest) == LastTotals(from, [item] + rest)
  {
    var from := Announced(trace);
    TotalsConcat(Totals(0, 0), trace, [item]);
    TotalsConcat(from, [item], rest);
    assert [item][..0] == [];
    if QueueTells(from, [item] + rest) {
      forall i, j | 0 <= i < j < |rest| ensures rest[i].Media? ==> !rest[j].Dropped? {
        assert ([item] + rest)[i + 1] == rest[i] && ([item] + rest)[j + 1] == rest[j];
      }
    }
  }

  /** A frame reaches the front only after every notice ahead of it has been handed over. */
  lemma FrontFrame(r: Run)
    requires Balanced(r) && r.core.items != [] && r.core.items[0].Media?
    ensures r.core.accepting
    ensures var from, item, rest := Announced(r.trace), r.core.items[0], r.core.items[1..];
            && from == Announced(r.trace + [item]) == LastTotals(from, rest) == DroppedTotals(r.core)
            && QueueTells(from, rest)
            && FramesOf(r.core.items) == [item.frame] + FramesOf(rest)
            && FramesOf(r.trace + [item]) == FramesOf(r.trace) + [item.frame]
  {
    hide FramesOf, LastTotals, QueueTells;
    FrontFrameSplits(r.trace, r.core.items);
    FrontFrameTold(r);
  }

  lemma FrontFrameSplits(trace: seq<Item>, items: seq<Item>)
    requires items != [] && items[0].Media?
    ensures FramesOf(items) == [items[0].frame] + FramesOf(items[1..])
    ensures FramesOf(trace + [items[0]]) == FramesOf(trace) + [items[0].frame]
  {
    FramesOfConcat(trace, [items[0]]);
    assert FramesOf([items[0]]) == [items[0].frame];
  }

  lemma FrontFrameTold(r: Run)
    requires Balanced(r) && r.core.items != [] && r.core.items[0].Media? && FramesOf(r.core.items) != []
    ensures r.core.accepting
    ensures var from, item, rest := Announced(r.trace), r.core.items[0], r.core.items[1..];
            && from == Announced(r.trace + [item]) == LastTotals(from, rest) == DroppedTotals(r.core)
            && QueueTells(from, rest)
  {
    hide FramesOf, Accounted, Backed;
    var s, item, rest := r.core, r.core.items[0], r.core.items[1..];
    var from := Announced(r.trace);
    OtherTells(r.trace, item, rest);
    assert s.items == [item] + rest;
    NoticesAhead(from, s.items, 0);
    assert s.items[0..] == s.items;
    NoNoticeNoChange(from, s.items);
    NoNoticeNoChange(from, [item]);
    TotalsConcat(Totals(0, 0), r.trace, [item]);
    NoNoticeNoChange(from, rest);
  }

  lemma TakeFrameBacked(s: State, thread: Thread, seen: seq<Frame>, arrivals: seq<Frame>)
    requires Backed(s, seen, arrivals) && CanTake(s) && s.items[0].Media?
    ensures Backed(Take(s, thread), seen + [s.items[0].frame], arrivals)
  {
    hide FramesOf, PayloadBytes, Newest, CountersExact, SameFrame, Take;
    FrameLeaves(s.items, seen, arrivals, DroppedTotals(s));
    TakeExact(s, thread);
    TakeFront(s, thread);
  }

  lemma FrontFrameLocated(s: State, seen: seq<Frame>, arrivals: seq<Frame>)
    requires Backed(s, seen, arrivals) && s.items != [] && s.items[0].Media?
    ensures var f, index := s.items[0].frame, |seen| + s.stats.dropped;
            && index < |arrivals| && SameFrame(f, arrivals[index])
            && PayloadBytes(arrivals[..index]) == PayloadBytes(seen) + s.stats.droppedBytes
  {
    hide FramesOf, PayloadBytes, Newest, CountersExact, SameFrame;
    FrameLeaves(s.items, seen, arrivals, DroppedTotals(s));
  }

  /** The frame at the front of the queue is the oldest one not yet seen or dropped. */
  lemma FrameLeaves(items: seq<Item>, seen: seq<Frame>, arrivals: seq<Frame>, dropped: Totals)
    requires items != [] && items[0].Media?
    requires var gone := |seen| + dropped.frames;
             && Newest(FramesOf(items), arrivals, gone)
             && PayloadBytes(arrivals[..gone]) == PayloadBytes(seen) + dropped.bytes
    ensures var gone, after := |seen| + dropped.frames, seen + [items[0].frame];
            && gone < |arrivals| && SameFrame(items[0].frame, arrivals[gone])
            && |after| + dropped.frames == gone + 1
            && Newest(FramesOf(items[1..]), arrivals, gone + 1)
            && PayloadBytes(arrivals[..gone + 1]) == PayloadBytes(after) + dropped.bytes
  {
    FrontFrameFrames(items, seen);
    hide FramesOf, PayloadBytes, SameFrame;
    OldestLeaves(FramesOf(items), arrivals, |seen| + dropped.frames);
  }

  lemma TakeFront(s: State, thread: Thread)
    requires CanTake(s)
    ensures Take(s, thread).items == s.items[1..] && Take(s, thread).stats == s.stats
  {
    hide UpdateDelivered;
  }

  lemma FrontFrameFrames(items: seq<Item>, seen: seq<Frame>)
    requires items != [] && items[0].Media?
    ensures FramesOf(items) != [] && FramesOf(items)[0] == items[0].frame
    ensures FramesOf(items)[1..] == FramesOf(items[1..])
    ensures PayloadBytes(seen + [items[0].frame]) == PayloadBytes(seen) + |items[0].frame.payload|
  {
    PayloadBytesConcat(seen, [items[0].frame]);
  }

  lemma TakeFrameBalanced(r: Run, thread: Thread)
    requires Balanced(r) && CanTake(r.core) && r.core.items[0].Media?
    ensures Balanced(Apply(r, TakeStep(thread)))
  {
    FrontFrame(r);
    TakeExact(r.core, thread);
    TakeFrameBacked(r.core, thread, FramesOf(r.trace), r.arrivals);
    FrontFrameLocated(r.core, FramesOf(r.trace), r.arrivals);
    var trace := r.trace + [r.core.items[0]];
    assert trace[..|trace| - 1] == r.trace;
    hide FramesOf, LastTotals, Backed, QueueTells, PayloadBytes;
  }

  lemma ApplyBalanced(r: Run, step: Step)
    requires Balanced(r)
    ensures Balanced(Apply(r, step))
  {
    hide Accounted, QueueTells, LastTotals, FramesOf, PayloadBytes;
    match step
    case PublishEventStep(e) => PublishEventBalanced(r, e);
    case PublishFrameStep(f) => if Accepts(r.core, f) { PublishFrameBalanced(r, f); }
    case ActivateStep =>
    case CancelStep(t, c) => CancelBalanced(r, t, c);
    case TakeStep(t) =>
      if CanTake(r.core) {
        if r.core.items[0].Media? {
          TakeFrameBalanced(r, t);
        } else {
          TakeOther(r, t);
        }
      }
    case FinishStep =>
  }

  // ------------------------------------------------------------------ theorems

  lemma {:induction false} ExecuteBalanced(options: Options, steps: seq<Step>)
    ensures Balanced(Execute(Start(options), steps))
    decreases |steps|
  {
    if steps != [] {
      hide Balanced;
      ExecuteBalanced(options, steps[..|steps| - 1]);
      ApplyBalanced(Execute(Start(options), steps[..|steps| - 1]), steps[|steps| - 1]);
    }
  }

  /**
   On every run the notices account for every gap in the delivered frames, the
   counters match the queue, the limits hold, and no notice waits behind a frame.
   */
  lemma EveryRunAccounts(options: Options, steps: seq<Step>)
    ensures var r := Execute(Start(options), steps);
            && Accounted(r.trace, r.arrivals)
            && CountersExact(r.core)
            && (options.queued ==> !OverLimit(r.core))
            && (r.core.accepting ==>
                  && NoticesFirst(r.core.items)
                  && |r.arrivals| == |FramesOf(r.trace)| + r.core.stats.dropped + r.core.queuedFrames)
  {
    ExecuteBalanced(options, steps);
    OptionsFixed(options, steps);
  }

  lemma {:induction false} OptionsFixed(options: Options, steps: seq<Step>)
    ensures Execute(Start(options), steps).core.options == options
    decreases |steps|
  {
    hide Next;
    if steps != [] {
      OptionsFixed(options, steps[..|steps| - 1]);
      NextKeepsOptions(Execute(Start(options), steps[..|steps| - 1]).core, steps[|steps| - 1]);
    }
  }

  lemma NextKeepsOptions(s: State, step: Step)
    ensures Next(s, step).options == s.options
  {
    hide DropUntilFits, ClosingTail, Announce, MarkNext, UpdateDelivered, Append;
    if step.PublishFrameStep? {
      DropsKeepOptions(Append(s, step.frame));
      AppendKeepsOptions(s, step.frame);
    }
  }

  lemma AppendKeepsOptions(s: State, f: Frame)
    ensures Append(s, f).options == s.options
  {
  }

  lemma {:induction false} DropsKeepOptions(s: State)
    ensures DropUntilFits(s).options == s.options
    decreases |s.items|
  {
    if MustDrop(s) {
      DropsKeepOptions(DropOldest(s));
    }
  }
}

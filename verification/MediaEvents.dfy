/**
 Stream events as a consumer reads them: which streams are open, the last
 generation of each id, and what sequences of closes do to that.
 */
module MediaEvents {
  import opened Wrappers
  import opened Ordering
  import opened MediaLifecycle

  /** The streams a consumer of the events believes open, and the last generation per id. */
  datatype Life = Life(open: map<nat, Descriptor>, last: map<nat, nat>)

  function LastOf(l: Life, stream: nat): nat {
    if stream in l.last then l.last[stream] else 0
  }

  predicate Admissible(l: Life, e: Event) {
    var d := e.descriptor;
    match e
    case Opened(_) => d.stream !in l.open && d.generation > LastOf(l, d.stream)
    case Closed(_) => d.stream in l.open && l.open[d.stream] == d
  }

  function After(l: Life, e: Event): Life {
    var d := e.descriptor;
    match e
    case Opened(_) => Life(l.open[d.stream := d], l.last[d.stream := d.generation])
    case Closed(_) => Life(l.open - {d.stream}, l.last)
  }

  function Replay(l: Life, events: seq<Event>): Option<Life>
    decreases |events|
  {
    if events == [] then Some(l)
    else if Admissible(l, events[0]) then Replay(After(l, events[0]), events[1..])
    else None
  }

  const NoLife := Life(map[], map[])

  function EventOf(item: Item): seq<Event> {
    if item.Lifecycle? then [item.event] else []
  }

  function EventsOf(items: seq<Item>): seq<Event> {
    if items == [] then [] else EventOf(items[0]) + EventsOf(items[1..])
  }

  /** Each frame of the log is inside the open interval of its own generation. */
  ghost predicate LegalLog(log: seq<Item>)
    decreases |log|
  {
    log == [] ||
    var seen, last := log[..|log| - 1], log[|log| - 1];
    && LegalLog(seen)
    && (last.Media? && last.frame.generation != 0 ==>
          && var l := Replay(NoLife, EventsOf(seen));
          && l.Some? && last.frame.stream in l.value.open
          && l.value.open[last.frame.stream].generation == last.frame.generation)
  }

  // -------------------------------------------------------- replay on sequences

  lemma {:induction false} ReplayConcat(l: Life, a: seq<Event>, b: seq<Event>)
    ensures Replay(l, a).None? ==> Replay(l, a + b).None?
    ensures Replay(l, a).Some? ==> Replay(l, a + b) == Replay(Replay(l, a).value, b)
    decreases |a|
  {
    if a == [] {
      assert a + b == b;
    } else {
      assert (a + b)[1..] == a[1..] + b;
      if Admissible(l, a[0]) {
        ReplayConcat(After(l, a[0]), a[1..], b);
      }
    }
  }

  lemma ReplayOne(l: Life, e: Event)
    ensures Replay(l, [e]) == if Admissible(l, e) then Some(After(l, e)) else None
  {
    assert [e][1..] == [];
  }

  lemma {:induction false} EventsOfConcat(a: seq<Item>, b: seq<Item>)
    ensures EventsOf(a + b) == EventsOf(a) + EventsOf(b)
  {
    hide EventOf;
    if a == [] {
      assert a + b == b;
    } else {
      assert (a + b)[1..] == a[1..] + b;
      EventsOfConcat(a[1..], b);
    }
  }

  lemma EventsOfOne(item: Item)
    ensures EventsOf([item]) == EventOf(item) && EventsOf([]) == []
  {
  }

  lemma {:induction false} EventsOfItems(events: seq<Event>)
    ensures EventsOf(AsItems(events)) == events
  {
    if events != [] {
      assert AsItems(events)[1..] == AsItems(events[1..]);
      EventsOfItems(events[1..]);
    }
  }

  lemma {:induction false} EventsOfFrames(frames: seq<Frame>)
    ensures EventsOf(AsFrames(frames)) == []
  {
    if frames != [] {
      assert AsFrames(frames)[1..] == AsFrames(frames[1..]);
      EventsOfFrames(frames[1..]);
    }
  }

  lemma {:induction false} EventsOfLifecycleOnly(items: seq<Item>)
    ensures EventsOf(LifecycleOnly(items)) == EventsOf(items)
  {
    hide EventsOf;
    EventsOfOne(Media(Frame(0, 0, Unknown, "", 0, 0)));
    if items != [] {
      var init, last := items[..|items| - 1], items[|items| - 1];
      var kept := if last.Lifecycle? then [last] else [];
      EventsOfLifecycleOnly(init);
      EventsOfOne(last);
      assert items == init + [last];
      EventsOfConcat(init, [last]);
      EventsOfConcat(LifecycleOnly(init), kept);
    }
  }

  ghost predicate OpenedIn(events: seq<Event>, stream: nat, generation: nat) {
    exists i :: 0 <= i < |events| && events[i].Opened?
             && events[i].descriptor.stream == stream && events[i].descriptor.generation == generation
  }

  lemma OpenedInPrefix(a: seq<Event>, b: seq<Event>, stream: nat, generation: nat)
    requires OpenedIn(a, stream, generation)
    ensures OpenedIn(a + b, stream, generation)
  {
    var i :| 0 <= i < |a| && a[i].Opened?
          && a[i].descriptor.stream == stream && a[i].descriptor.generation == generation;
    assert (a + b)[i] == a[i];
  }

  /** The stream table and the generation counters agree. */
  ghost predicate Keyed(l: Life) {
    forall id | id in l.open ::
      && l.open[id].stream == id && l.open[id].generation != 0
      && id in l.last && l.last[id] == l.open[id].generation
  }

  lemma {:induction false} ReplayKeyed(l: Life, events: seq<Event>)
    requires Keyed(l) && Replay(l, events).Some?
    ensures Keyed(Replay(l, events).value)
    ensures forall id | id in l.last :: LastOf(Replay(l, events).value, id) >= l.last[id]
    decreases |events|
  {
    if events != [] {
      ReplayKeyed(After(l, events[0]), events[1..]);
    }
  }

  /** The last generation of an id was opened. */
  lemma {:induction false} LastWasOpened(events: seq<Event>, stream: nat)
    requires Replay(NoLife, events).Some? && stream in Replay(NoLife, events).value.last
    ensures OpenedIn(events, stream, Replay(NoLife, events).value.last[stream])
    decreases |events|
  {
    assert events != [];
    var n := |events| - 1;
    var init, e := events[..n], events[n];
    assert events == init + [e];
    ReplayConcat(NoLife, init, [e]);
    ReplayOne(Replay(NoLife, init).value, e);
    if e.Closed? || e.descriptor.stream != stream {
      LastWasOpened(init, stream);
      OpenedInPrefix(init, [e], stream, Replay(NoLife, events).value.last[stream]);
    }
  }

  /** A generation that was opened, and is current once later events are in, is open now. */
  lemma {:induction false} StillOpen(l: Life, events: seq<Event>, stream: nat, generation: nat)
    requires Keyed(l) && LastOf(l, stream) >= generation != 0 && Replay(l, events).Some?
    requires stream in Replay(l, events).value.open
    requires Replay(l, events).value.open[stream].generation == generation
    ensures stream in l.open && l.open[stream].generation == generation
    decreases |events|
  {
    if events != [] {
      ReplayKeyed(l, [events[0]]);
      ReplayOne(l, events[0]);
      StillOpen(After(l, events[0]), events[1..], stream, generation);
    }
  }

  lemma {:induction false} OpenedBelowLast(l: Life, events: seq<Event>, stream: nat, generation: nat)
    requires Keyed(l) && Replay(l, events).Some? && OpenedIn(events, stream, generation)
    ensures LastOf(Replay(l, events).value, stream) >= generation
    decreases |events|
  {
    var rest := After(l, events[0]);
    ReplayOne(l, events[0]);
    ReplayKeyed(l, [events[0]]);
    ReplayKeyed(rest, events[1..]);
    var i :| 0 <= i < |events| && events[i].Opened?
          && events[i].descriptor.stream == stream && events[i].descriptor.generation == generation;
    if i > 0 {
      assert events[1..][i - 1] == events[i];
      OpenedBelowLast(rest, events[1..], stream, generation);
    }
  }

  // ---------------------------------------------------------------------- closes

  predicate AllClosed(events: seq<Event>) {
    forall i | 0 <= i < |events| :: events[i].Closed?
  }

  /** Staged events are closes, with at most one open, which comes last. */
  ghost predicate OpensLast(events: seq<Event>) {
    forall i | 0 <= i < |events| && events[i].Opened? :: i == |events| - 1
  }

  lemma OpenedBeforeCloses(a: seq<Event>, b: seq<Event>, stream: nat, generation: nat)
    requires AllClosed(b) && OpenedIn(a + b, stream, generation)
    ensures OpenedIn(a, stream, generation)
  {
    var i :| 0 <= i < |a + b| && (a + b)[i].Opened?
          && (a + b)[i].descriptor.stream == stream && (a + b)[i].descriptor.generation == generation;
    assert forall k | |a| <= k < |a + b| :: (a + b)[k] == b[k - |a|];
    assert i < |a| && (a + b)[i] == a[i];
  }

  function Without(streams: map<nat, Descriptor>, ids: seq<nat>, n: nat): map<nat, Descriptor>
    requires n <= |ids|
  {
    map id | id in streams && id !in ids[..n] :: streams[id]
  }

  lemma {:induction false} CloseCapturedReplays(l: Life, captured: seq<Descriptor>)
    requires Keyed(l)
    ensures var (left, events) := CloseCaptured(l.open, captured);
            && Replay(l, events) == Some(Life(left, l.last)) && AllClosed(events)
            && (forall id | id in left :: id in l.open && left[id] == l.open[id])
  {
    if captured != [] {
      var d := captured[|captured| - 1];
      CloseCapturedReplays(l, captured[..|captured| - 1]);
      var (left, events) := CloseCaptured(l.open, captured[..|captured| - 1]);
      if d.stream in left && left[d.stream].generation == d.generation {
        ReplayConcat(l, events, [Closed(left[d.stream])]);
        ReplayOne(Life(left, l.last), Closed(left[d.stream]));
      }
    }
  }

  lemma {:induction false} ClosesReplay(l: Life, streams: map<nat, Descriptor>, ids: seq<nat>, n: nat)
    requires Keyed(l) && n <= |ids| && (forall id | id in ids :: id in streams)
    requires forall id | id in streams :: id in l.open && l.open[id] == streams[id]
    requires forall i, j | 0 <= i < j < |ids| :: ids[i] != ids[j]
    ensures Replay(l, Closes(streams, ids, n)) == Some(Life(Without(l.open, ids, n), l.last))
    ensures AllClosed(Closes(streams, ids, n))
  {
    if n == 0 {
      assert Without(l.open, ids, n) == l.open;
    } else {
      ClosesReplay(l, streams, ids, n - 1);
      var left, id := Without(l.open, ids, n - 1), ids[n - 1];
      assert id !in ids[..n - 1];
      ReplayConcat(l, Closes(streams, ids, n - 1), [Closed(streams[id])]);
      ReplayOne(Life(left, l.last), Closed(streams[id]));
      assert ids[..n] == ids[..n - 1] + [id];
      assert left - {id} == Without(l.open, ids, n);
    }
  }

  lemma CloseAllReplays(l: Life, streams: map<nat, Descriptor>)
    requires Keyed(l) && forall id | id in streams :: id in l.open && l.open[id] == streams[id]
    ensures Replay(l, CloseAll(streams)) == Some(Life(l.open - streams.Keys, l.last))
    ensures AllClosed(CloseAll(streams))
  {
    var ids := Ids(streams);
    hide Ids, Closes, Replay;
    ClosesReplay(l, streams, ids, |ids|);
    assert ids[..|ids|] == ids;
    assert Without(l.open, ids, |ids|) == l.open - streams.Keys;
  }

  lemma {:induction false} ClosesCommute(l: Life, events: seq<Event>, ids: set<nat>)
    requires Keyed(l) && AllClosed(events) && Replay(l, events).Some?
    requires ids <= Replay(l, events).value.open.Keys
    ensures Replay(Life(l.open - ids, l.last), events) == Some(Life(Replay(l, events).value.open - ids, l.last))
    ensures forall id | id in Replay(l, events).value.open ::
              id in l.open && l.open[id] == Replay(l, events).value.open[id]
    ensures Replay(l, events).value.last == l.last
    decreases |events|
  {
    if events != [] {
      var d := events[0].descriptor;
      ReplayOne(l, events[0]);
      ReplayKeyed(l, [events[0]]);
      var rest := After(l, events[0]);
      ClosesCommute(rest, events[1..], ids);
      assert d.stream !in ids;
      assert l.open - ids - {d.stream} == rest.open - ids;
    }
  }

  lemma {:induction false} ClosesEach(streams: map<nat, Descriptor>, ids: seq<nat>, n: nat, k: nat)
    requires k < n <= |ids| && forall id | id in ids :: id in streams
    ensures |Closes(streams, ids, n)| == n && Closes(streams, ids, n)[k] == Closed(streams[ids[k]])
  {
    if n > 1 {
      ClosesEach(streams, ids, n - 1, if k < n - 1 then k else 0);
    }
  }

  lemma {:induction false} ClosesAllClosed(streams: map<nat, Descriptor>, ids: seq<nat>, n: nat)
    requires n <= |ids| && forall id | id in ids :: id in streams
    ensures AllClosed(Closes(streams, ids, n))
  {
    if n > 0 {
      ClosesAllClosed(streams, ids, n - 1);
    }
  }

  /** Closing a generation that was never opened is not a legal event. */
  lemma UnopenedClose(l: Life, streams: map<nat, Descriptor>, stream: nat)
    requires Keyed(l) && stream in streams && streams[stream].stream == stream
    requires LastOf(l, stream) < streams[stream].generation
    ensures Replay(l, CloseAll(streams)).None?
  {
    hide Replay, Ids, Closes;
    var ids, closes := Ids(streams), CloseAll(streams);
    var k :| 0 <= k < |ids| && ids[k] == stream;
    ClosesEach(streams, ids, |ids|, k);
    if Replay(l, closes).Some? {
      assert closes == (closes[..k] + [closes[k]]) + closes[k + 1..];
      ReplayConcat(l, closes[..k] + [closes[k]], closes[k + 1..]);
      ReplayConcat(l, closes[..k], [closes[k]]);
      assert AllClosed(closes[..k]) by { ClosesAllClosed(streams, ids, |ids|); }
      ClosesCommute(l, closes[..k], {});
      var m := Replay(l, closes[..k]).value;
      ReplayKeyed(l, closes[..k]);
      ReplayOne(m, closes[k]);
    }
  }

  ghost predicate StreamIn(events: seq<Event>, stream: nat) {
    exists i :: 0 <= i < |events| && events[i].descriptor.stream == stream
  }

  ghost predicate ClearOf(b: seq<Event>, a: seq<Event>) {
    forall i | 0 <= i < |b| && b[i].Opened? :: !StreamIn(a, b[i].descriptor.stream)
  }

  /** A close and a later event of another stream can change places. */
  lemma SwapTwo(l: Life, x: Event, e: Event)
    requires x.Closed? && (e.Opened? ==> e.descriptor.stream != x.descriptor.stream)
    requires Admissible(l, x) && Admissible(After(l, x), e)
    ensures Admissible(l, e) && Admissible(After(l, e), x) && After(After(l, e), x) == After(After(l, x), e)
  {
    var i, j := x.descriptor.stream, e.descriptor.stream;
    if e.Opened? {
      assert (l.open - {i})[j := e.descriptor] == l.open[j := e.descriptor] - {i};
    } else {
      assert l.open - {i} - {j} == l.open - {j} - {i};
    }
  }

  lemma {:induction false} OneMovesAhead(l: Life, a: seq<Event>, e: Event)
    requires AllClosed(a) && (e.Opened? ==> !StreamIn(a, e.descriptor.stream)) && Replay(l, a + [e]).Some?
    ensures Replay(l, [e] + a) == Replay(l, a + [e])
    decreases |a|
  {
    hide Admissible, After;
    if a == [] {
      assert a + [e] == [e] + a;
    } else {
      var x, rest := a[0], a[1..];
      assert (a + [e])[1..] == rest + [e] && (a + [e])[0] == x;
      assert forall i | 0 <= i < |rest| :: rest[i] == a[i + 1];
      OneMovesAhead(After(l, x), rest, e);
      assert ([e] + rest)[0] == e && ([e] + rest)[1..] == rest;
      SwapTwo(l, x, e);
      assert ([e] + a)[0] == e && ([e] + a)[1..] == a;
    }
  }

  /** Closes can be replayed after events that do not reopen their streams. */
  lemma {:induction false} ClosesMoveBack(l: Life, a: seq<Event>, b: seq<Event>)
    requires AllClosed(a) && ClearOf(b, a) && Replay(l, a + b).Some?
    ensures Replay(l, b + a) == Replay(l, a + b)
    decreases |b|
  {
    hide Replay, StreamIn, AllClosed;
    if b == [] {
      assert b + a == a + b;
    } else {
      var e, rest := b[0], b[1..];
      assert a + b == (a + [e]) + rest;
      ReplayConcat(l, a + [e], rest);
      OneMovesAhead(l, a, e);
      assert ([e] + a) + rest == [e] + (a + rest) && [e] + (rest + a) == b + a;
      ReplayConcat(l, [e] + a, rest);
      ReplayConcat(l, [e], a + rest);
      var m := Replay(l, [e]).value;
      assert ClearOf(rest, a) by { assert forall i | 0 <= i < |rest| :: rest[i] == b[i + 1]; }
      ClosesMoveBack(m, a, rest);
      ReplayConcat(l, [e], rest + a);
    }
  }

  /** A stream that the worker closes is open until its Closed event is queued. */
  lemma {:induction false} ClosedWasOpen(l: Life, a: seq<Event>, stream: nat)
    requires AllClosed(a) && Replay(l, a).Some? && StreamIn(a, stream)
    ensures stream in l.open && stream !in Replay(l, a).value.open
    decreases |a|
  {
    var x, rest := a[0], a[1..];
    var i :| 0 <= i < |a| && a[i].descriptor.stream == stream;
    assert forall k | 0 <= k < |rest| :: rest[k] == a[k + 1];
    if i > 0 {
      assert rest[i - 1].descriptor.stream == stream;
      ClosedWasOpen(After(l, x), rest, stream);
    } else {
      OnlyCloses(After(l, x), rest, stream);
    }
  }

  lemma {:induction false} OnlyCloses(l: Life, a: seq<Event>, stream: nat)
    requires AllClosed(a) && Replay(l, a).Some? && stream !in l.open
    ensures stream !in Replay(l, a).value.open && !StreamIn(a, stream)
    decreases |a|
  {
    if a != [] {
      OnlyCloses(After(l, a[0]), a[1..], stream);
      forall i | 0 <= i < |a| ensures a[i].descriptor.stream != stream {
        if i > 0 {
          assert a[i] == a[1..][i - 1];
        }
      }
    }
  }

  lemma {:induction false} ClosesKeepOpen(l: Life, a: seq<Event>, stream: nat)
    requires AllClosed(a) && Replay(l, a).Some? && stream in l.open && !StreamIn(a, stream)
    ensures stream in Replay(l, a).value.open
    decreases |a|
  {
    if a != [] {
      assert a[0].descriptor.stream != stream;
      assert forall i | 0 <= i < |a| - 1 :: a[1..][i] == a[i + 1];
      ClosesKeepOpen(After(l, a[0]), a[1..], stream);
    }
  }
}

/**
 The leaf adapter as an object: each method is one locked region that updates the
 fields in place, proved to take exactly the step of `MediaLifecycle`.
 */
module MediaAdapter {
  import opened Wrappers
  import opened Ordering
  import opened MediaLifecycle

  /** The first active stream, in id order, that a terminal event speaks about. */
  method FindTerminal(s: State, event: SourceEvent) returns (found: Option<nat>)
    ensures found == TerminalMatch(s, event)
  {
    hide Ids, LeastId, Matches;
    if event.stream != 0 {
      if event.stream in s.active && Matches(s, event, s.active[event.stream]) {
        return Some(event.stream);
      }
      return None;
    }
    ghost var matching := set id | id in s.active && Matches(s, event, s.active[id]);
    var ids := Ids(s.active);
    for i := 0 to |ids|
      invariant forall k | 0 <= k < i :: ids[k] !in matching
    {
      if Matches(s, event, s.active[ids[i]]) {
        FirstIsLeast(ids, i, matching);
        return Some(ids[i]);
      }
    }
    assert forall id | id in s.active :: id in ids;
    return None;
  }

  lemma FirstIsLeast(ids: seq<nat>, i: nat, matching: set<nat>)
    requires forall j, k | 0 <= j < k < |ids| :: ids[j] < ids[k]
    requires i < |ids| && ids[i] in matching
    requires forall k | 0 <= k < i :: ids[k] !in matching
    requires forall id | id in matching :: id in ids
    ensures LeastId(matching) == ids[i]
  {
    hide LeastId;
    var least := LeastId(matching);
    var k :| 0 <= k < |ids| && ids[k] == least;
  }

  method CollectCloses(streams: map<nat, Descriptor>) returns (events: seq<Event>)
    ensures events == CloseAll(streams)
  {
    hide Ids;
    var ids := Ids(streams);
    events := [];
    for i := 0 to |ids|
      invariant events == Closes(streams, ids, i)
    {
      events := events + [Closed(streams[ids[i]])];
    }
  }

  /** What the callbacks are told of these items: every event, and the frames that are current. */
  function Deliverable(s: State, items: seq<Item>): seq<Item> {
    if items == [] then []
    else
      (if items[0].Lifecycle? || IsCurrent(s, items[0].frame) then [items[0]] else []) + Deliverable(s, items[1..])
  }

  /** The frame the dispatcher holds comes before the queue. */
  function Undelivered(s: State): seq<Item> {
    (if s.hand.Some? then [Media(s.hand.value)] else []) + s.dispatch
  }

  predicate SameCurrency(s: State, t: State) {
    s.session == t.session && s.epoch == t.epoch && s.active == t.active
  }

  lemma {:induction false} SameDeliverable(s: State, t: State, items: seq<Item>)
    requires SameCurrency(s, t)
    ensures Deliverable(s, items) == Deliverable(t, items)
  {
    if items != [] {
      SameDeliverable(s, t, items[1..]);
    }
  }

  /** One turn of the dispatcher moves an item from the queue to the hand, or out. */
  lemma TurnDelivers(s: State)
    requires s.hand.Some? || s.dispatch != []
    ensures var t := if s.hand.Some? then Deliver(s) else Pop(s);
            && t == s.(hand := t.hand, dispatch := t.dispatch, log := t.log)
            && t.log + Deliverable(s, Undelivered(t)) == s.log + Deliverable(s, Undelivered(s))
            && if s.hand.Some? then t.hand.None? && t.dispatch == s.dispatch else |t.dispatch| < |s.dispatch|
  {
    hide IsCurrent;
    var t := if s.hand.Some? then Deliver(s) else Pop(s);
    if t.hand.Some? {
      assert Undelivered(t) == Undelivered(s);
    } else {
      var item := Undelivered(s)[0];
      assert Undelivered(s) == [item] + Undelivered(t);
      assert Undelivered(s)[1..] == Undelivered(t);
    }
  }

  lemma NothingUndelivered(s: State, t: State)
    requires s.hand.None? && s.dispatch == []
    ensures Deliverable(t, Undelivered(s)) == []
  {
  }

  class LeafMedia {
    const config: Config
    var active: map<nat, Descriptor>
    var generations: map<nat, nat>
    var staged: seq<Event>
    var racing: seq<Event>
    var ingress: seq<Frame>
    var batch: seq<Frame>
    var dispatch: seq<Item>
    var hand: Option<Frame>
    var log: seq<Item>
    var arrivals: nat
    var opening: Opening
    var candidates: set<nat>
    var terminal: set<Kind>
    var orphans: seq<(Kind, nat)>
    var reconfiguring: bool
    var session: Option<string>
    var epoch: nat

    function View(): State
      reads this
    {
      State(config, active, generations, staged, racing, ingress, batch, dispatch, hand, log, arrivals, opening,
            candidates, terminal, orphans, reconfiguring, session, epoch)
    }

    constructor (config: Config)
      ensures View() == Initial(config)
    {
      this.config := config;
      active, generations, staged, racing, ingress, batch, dispatch := map[], map[], [], [], [], [], [];
      hand, log, arrivals, opening, candidates, terminal := None, [], 0, Idle, {}, {};
      orphans, reconfiguring, session, epoch := [], false, None, 1;
    }

    /** Resolves an answered open: one orphan close, or a new generation in the stream table. */
    method ResolveOpen(stream: nat, source: string)
      modifies this
      ensures View() == OpenReturns(old(View()), stream, source)
    {
      if staged != [] || batch != [] || !opening.InFlight? || stream == 0 {
        return;
      }
      var kind := opening.kind;
      if stream in candidates {
        terminal := terminal + {kind};
      }
      candidates := {};
      opening := Settled(kind);
      if kind in terminal {
        orphans := orphans + [(kind, stream)];
        return;
      }
      PublishStream(Descriptor(stream, Generation(View(), stream) + 1, kind, source));
    }

    /** Enters a descriptor in the stream table and stages the events that announce it. */
    method PublishStream(d: Descriptor)
      modifies this
      ensures View() == Publish(old(View()), d)
    {
      generations := generations[d.stream := d.generation];
      var events := if d.stream in active then [Closed(active[d.stream])] else [];
      active := active[d.stream := d];
      staged := events + [Opened(d)];
      terminal := terminal - {d.kind};
    }

    method ProcessTerminal(event: SourceEvent)
      modifies this
      ensures View() == TerminalEvent(old(View()), event)
    {
      hide LeastId;
      if staged != [] || batch != [] || opening.Settled? || !Relevant(View(), event) {
        return;
      }
      var found := FindTerminal(View(), event);
      if event.stream != 0 && found.None? {
        if opening == InFlight(event.kind) {
          candidates := candidates + {event.stream};
        }
        return;
      }
      terminal := terminal + {event.kind};
      if found.Some? {
        staged := [Closed(active[found.value])];
        active := active - {found.value};
      }
    }

    /** Closes the captured streams that still have the captured generation. */
    method ClosePreviousStreams(captured: seq<Descriptor>)
      modifies this
      ensures View() == ClosePrevious(old(View()), captured)
    {
      if staged != [] || batch != [] || opening != Idle {
        return;
      }
      var left, events := active, [];
      for i := 0 to |captured|
        invariant CloseCaptured(active, captured[..i]) == (left, events)
      {
        assert captured[..i + 1][..i] == captured[..i];
        var d := captured[i];
        if d.stream in left && left[d.stream].generation == d.generation {
          events := events + [Closed(left[d.stream])];
          left := left - {d.stream};
        }
      }
      assert captured[..|captured|] == captured;
      active, staged := left, events;
    }

    method ClearStreams()
      modifies this
      ensures View() == Clear(old(View()))
    {
      hide CloseAll, Forget;
      if staged != [] || batch != [] || opening != Idle {
        return;
      }
      var closes := CollectCloses(active);
      ForgetStreams();
      staged := closes;
    }

    method ForgetStreams()
      modifies this
      ensures View() == Forget(old(View()))
    {
      active := map[];
      terminal, candidates, orphans := {}, {}, [];
    }

    /** The recovery worker empties the table without owning the session. */
    method TakeForRecovery()
      modifies this
      ensures View() == RacingTake(old(View()))
    {
      hide CloseAll;
      if racing == [] {
        racing := CollectCloses(active);
        active := map[];
      }
    }

    method QueueRecovered()
      modifies this
      ensures View() == RacingPush(old(View()))
    {
      ghost var before := dispatch;
      for i := 0 to |racing|
        modifies `dispatch
        invariant dispatch == before + AsItems(racing)[..i]
      {
        dispatch := dispatch + [Lifecycle(racing[i])];
      }
      racing := [];
    }

    method QueueEvents()
      modifies this
      ensures View() == EnqueueStaged(old(View()))
    {
      ghost var before := dispatch;
      for i := 0 to |staged|
        modifies `dispatch
        invariant dispatch == before + AsItems(staged)[..i]
      {
        dispatch := dispatch + [Lifecycle(staged[i])];
      }
      staged := [];
    }

    method Receive(stream: nat, token: nat)
      modifies this
      ensures View() == Ingress(old(View()), stream, token)
    {
      if staged != [] || batch != [] || opening.Settled? {
        return;
      }
      var lease := if session.Some? then session.value else "";
      var frame: Frame;
      if stream in active {
        frame := Frame(stream, active[stream].generation, active[stream].kind, lease, token, arrivals);
      } else if stream in generations {
        frame := Frame(stream, generations[stream], Unknown, lease, token, arrivals);
      } else {
        frame := Frame(stream, 0, LegacyKind(stream), lease, token, arrivals);
      }
      ingress := ingress + [frame];
      arrivals := arrivals + 1;
    }

    /** Splits the ingress queue at the lifecycle fence. */
    method TakeBatch(sourceEventsPending: bool)
      modifies this
      ensures View() == CommitTake(old(View()), sourceEventsPending)
    {
      if staged != [] || batch != [] || sourceEventsPending {
        return;
      }
      var frames, retained := [], [];
      for i := 0 to |ingress|
        invariant frames == Select(ingress[..i], opening, false)
        invariant retained == Select(ingress[..i], opening, true)
      {
        assert ingress[..i + 1][..i] == ingress[..i];
        if Fenced(opening, ingress[i].kind) {
          retained := retained + [ingress[i]];
        } else {
          frames := frames + [ingress[i]];
        }
      }
      assert ingress[..|ingress|] == ingress;
      batch, ingress := frames, retained;
    }

    method PushBatch()
      modifies this
      ensures View() == CommitPush(old(View()))
    {
      ghost var before := dispatch;
      for i := 0 to |batch|
        modifies `dispatch
        invariant dispatch == before + AsFrames(batch)[..i]
      {
        dispatch := dispatch + [Media(batch[i])];
      }
      batch := [];
    }

    method PopItem()
      modifies this
      ensures View() == Pop(old(View()))
    {
      if hand.Some? || dispatch == [] {
        return;
      }
      var item := dispatch[0];
      dispatch := dispatch[1..];
      match item
      case Lifecycle(_) => log := log + [item];
      case Media(f) => hand := Some(f);
    }

    method DeliverFrame()
      modifies this
      ensures View() == Deliver(old(View()))
    {
      if hand.Some? {
        if IsCurrent(View(), hand.value) {
          log := log + [Media(hand.value)];
        }
        hand := None;
      }
    }

    /** Hands out everything queued: events as they are, and the frames that are still current, in order. */
    method DrainCallbacks()
      modifies this
      ensures var s := old(View());
              View() == s.(hand := None, dispatch := [], log := s.log + Deliverable(s, Undelivered(s)))
    {
      hide Pop, Deliver, Deliverable, Undelivered, IsCurrent;
      ghost var s := View();
      while hand.Some? || dispatch != []
        invariant View() == s.(hand := hand, dispatch := dispatch, log := log)
        invariant log + Deliverable(s, Undelivered(View())) == s.log + Deliverable(s, Undelivered(s))
        decreases |dispatch|, hand.Some?
      {
        ghost var before := View();
        TurnDelivers(before);
        SameDeliverable(s, before, Undelivered(before));
        if hand.Some? {
          DeliverFrame();
        } else {
          PopItem();
        }
        SameDeliverable(s, before, Undelivered(View()));
      }
      NothingUndelivered(View(), s);
    }

    /** Moves the frames no open holds back from the ingress queue behind the queued events. */
    method CommitPending(sourceEventsPending: bool)
      modifies this
      ensures View() == CommitPush(CommitTake(old(View()), sourceEventsPending))
    {
      hide CommitTake, CommitPush;
      TakeBatch(sourceEventsPending);
      PushBatch();
    }

    /** An answered open up to its queued events. */
    method CompleteOpen(stream: nat, source: string)
      modifies this
      ensures View() == EnqueueStaged(OpenReturns(old(View()), stream, source))
    {
      hide OpenReturns, EnqueueStaged;
      ResolveOpen(stream, source);
      QueueEvents();
    }

    method BindSession(id: string)
      modifies this
      ensures View() == Bind(old(View()), id)
    {
      epoch := epoch + 1;
      session := Some(id);
    }

    /** Ends the binding it names, then drops the frames staged and queued under it. */
    method UnbindSession(id: string)
      modifies this
      ensures var s := Unbind(old(View()), id);
              View() == if old(session) == Some(id) then DropDispatch(DropIngress(s)) else s
    {
      if session != Some(id) {
        return;
      }
      epoch := epoch + 1;
      session := None;
      DropPending();
    }

    method DropPending()
      modifies this
      ensures View() == DropDispatch(DropIngress(old(View())))
    {
      ingress := [];
      var kept := [];
      for i := 0 to |dispatch|
        invariant kept == LifecycleOnly(dispatch[..i])
      {
        assert dispatch[..i + 1][..i] == dispatch[..i];
        if dispatch[i].Lifecycle? {
          kept := kept + [dispatch[i]];
        }
      }
      assert dispatch[..|dispatch|] == dispatch;
      dispatch := kept;
    }
  }
}

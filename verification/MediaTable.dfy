/**
 Exactly which streams a step takes out of the leaf adapter's table and which one
 it enters, said about the table and the step's own inputs; and what follows for
 the callbacks: a stream that left is announced closed, and no frame of its
 generation is handed out any more.
 */
module MediaTable {
  import opened Wrappers
  import opened Ordering
  import opened MediaLifecycle
  import opened MediaFences
  import opened MediaAdapter

  // --------------------------------------------------------------- terminal events

  /** The source an event speaks about: its own, or the one configured for its kind. */
  function SpokenSource(s: State, event: SourceEvent): string {
    if event.source != "" then event.source
    else if event.kind == Video then s.config.videoSource
    else s.config.audioSource
  }

  predicate Concerns(s: State, event: SourceEvent, d: Descriptor) {
    d.kind == event.kind && (SpokenSource(s, event) == "" || SpokenSource(s, event) == d.source)
  }

  /** The event is not put off, and it speaks about a source this adapter is configured for. */
  predicate Heeded(s: State, event: SourceEvent) {
    var configured := if event.kind == Video then s.config.videoSource else s.config.audioSource;
    && s.staged == [] && s.batch == [] && !s.opening.Settled? && !s.reconfiguring
    && event.kind != Unknown && (configured == "" || SpokenSource(s, event) == configured)
  }

  /** The stream an event ends: the named one, or else the least concerned id. */
  ghost predicate Ends(s: State, event: SourceEvent, id: nat) {
    && id in s.active && Concerns(s, event, s.active[id])
    && if event.stream != 0 then id == event.stream
       else forall other | other in s.active && Concerns(s, event, s.active[other]) :: id <= other
  }

  lemma MatchEnds(s: State, event: SourceEvent)
    ensures match TerminalMatch(s, event)
            case Some(id) => forall other :: Ends(s, event, other) <==> other == id
            case None => forall other :: !Ends(s, event, other)
  {
    forall id | id in s.active ensures Matches(s, event, s.active[id]) <==> Concerns(s, event, s.active[id]) {
    }
    var ids := set id | id in s.active && Matches(s, event, s.active[id]);
    if event.stream == 0 {
      if ids == {} {
        forall other ensures !Ends(s, event, other) {
          assert other !in ids;
        }
      } else {
        var least := LeastId(ids);
        forall other | other in s.active && Concerns(s, event, s.active[other]) ensures other in ids && least <= other {
        }
        forall other ensures Ends(s, event, other) <==> other == least {
          assert least in ids;
          if Ends(s, event, other) {
            assert other in ids;
          }
        }
      }
    }
  }

  lemma HeededExact(s: State, event: SourceEvent)
    ensures Heeded(s, event) <==> OwnerFree(s) && !s.opening.Settled? && Relevant(s, event)
  {
  }

  /**
   A heeded terminal event ends at most one stream: exactly that entry leaves the
   table, and exactly its Closed event is staged. If it ends none, it stops
   automatic opens of its kind when it names no stream, and otherwise only waits
   for an open of its kind to return the id it names.
   */
  lemma TerminalExact(s: State, event: SourceEvent)
    ensures var t := TerminalEvent(s, event);
            && (!Heeded(s, event) ==> t == s)
            && (forall id | Heeded(s, event) && Ends(s, event, id) ::
                  t == s.(active := s.active - {id}, staged := [Closed(s.active[id])],
                          terminal := s.terminal + {event.kind}))
            && (Heeded(s, event) && (forall id :: !Ends(s, event, id)) ==>
                  if event.stream == 0 then t == s.(terminal := s.terminal + {event.kind})
                  else if s.opening == InFlight(event.kind) then t == s.(candidates := s.candidates + {event.stream})
                  else t == s)
  {
    hide LeastId, Relevant, Matches, Ends;
    HeededExact(s, event);
    MatchEnds(s, event);
    var found := TerminalMatch(s, event);
    assert found.Some? ==> Ends(s, event, found.value);
  }

  // ------------------------------------------------------------------ every step

  /** The step takes the active stream out of the table. */
  ghost predicate Leaves(s: State, step: Step, id: nat)
    requires id in s.active
  {
    match step
    case TerminalStep(event) => Heeded(s, event) && Ends(s, event, id)
    case ClosePreviousStep(captured) =>
      && s.staged == [] && s.batch == [] && s.opening == Idle
      && exists d | d in captured :: d.stream == id && d.generation == s.active[id].generation
    case ClearStep => s.staged == [] && s.batch == [] && s.opening == Idle
    case RacingTakeStep => s.racing == []
    case _ => false
  }

  /** The step enters the id, at the next generation. */
  predicate Enters(s: State, step: Step, id: nat) {
    && step.OpenReturnsStep? && step.stream == id && id != 0
    && s.staged == [] && s.batch == [] && s.opening.InFlight?
    && s.opening.kind !in s.terminal && id !in s.candidates
  }

  lemma {:induction false} CapturedLeaves(active: map<nat, Descriptor>, captured: seq<Descriptor>, id: nat)
    ensures var left := CloseCaptured(active, captured).0;
            && (id in left ==> id in active && left[id] == active[id])
            && (id in active ==>
                  (id !in left <==>
                   exists d | d in captured :: d.stream == id && d.generation == active[id].generation))
  {
    if captured != [] {
      var n := |captured| - 1;
      CapturedLeaves(active, captured[..n], id);
      assert captured == captured[..n] + [captured[n]];
    }
  }

  lemma TerminalTable(s: State, event: SourceEvent, id: nat)
    ensures var t := TerminalEvent(s, event);
            && (id in t.active <==> id in s.active && !(Heeded(s, event) && Ends(s, event, id)))
            && (id in t.active ==> t.active[id] == s.active[id])
  {
    hide TerminalEvent, Heeded, Ends;
    TerminalExact(s, event);
    if Heeded(s, event) && exists other :: Ends(s, event, other) {
      var other :| Ends(s, event, other);
      if Ends(s, event, id) { OneEnds(s, event, other, id); }
      EndsActive(s, event, other);
    }
  }

  lemma EndsActive(s: State, event: SourceEvent, id: nat)
    requires Ends(s, event, id)
    ensures id in s.active
  {
  }

  lemma OneEnds(s: State, event: SourceEvent, a: nat, b: nat)
    requires Ends(s, event, a) && Ends(s, event, b)
    ensures a == b
  {
  }

  /** On every state and every step: the ids in the table afterwards, and what they stand for. */
  lemma TableExact(s: State, step: Step, id: nat)
    ensures var t := Apply(s, step);
            && (id in t.active <==> Enters(s, step, id) || (id in s.active && !Leaves(s, step, id)))
            && (Enters(s, step, id) ==>
                  t.active[id] == Descriptor(id, Generation(s, id) + 1, s.opening.kind, step.source))
            && (id in t.active && !Enters(s, step, id) ==> t.active[id] == s.active[id])
  {
    hide CloseCaptured, CloseAll, Select, LifecycleOnly, TerminalEvent, Ends, Heeded, AsItems, AsFrames, Stamp,
         IsCurrent, Generation;
    match step
    case TerminalStep(event) => TerminalTable(s, event, id);
    case ClosePreviousStep(captured) => CapturedLeaves(s.active, captured, id);
    case _ =>
  }

  // ------------------------------------------------------------- opens and retries

  /** The owner is between publications and no open is under way. */
  predicate AtRest(s: State) {
    s.staged == [] && s.batch == [] && s.opening == Idle
  }

  /** Automatic opens of the kind are stopped. */
  ghost predicate Stops(s: State, step: Step, kind: Kind) {
    match step
    case TerminalStep(event) =>
      Heeded(s, event) && event.kind == kind && (event.stream == 0 || exists id :: Ends(s, event, id))
    case OpenReturnsStep(stream, _) =>
      s.staged == [] && s.batch == [] && s.opening == InFlight(kind) && stream != 0 && stream in s.candidates
    case OpenFailsStep(terminal) => terminal && s.staged == [] && s.batch == [] && s.opening == InFlight(kind)
    case _ => false
  }

  /** They are allowed again. */
  predicate Resumes(s: State, step: Step, kind: Kind) {
    match step
    case OpenReturnsStep(stream, _) => Enters(s, step, stream) && s.opening == InFlight(kind)
    case StreamableStep(k) => AtRest(s) && !s.reconfiguring && k == kind
    case ClearStep => AtRest(s)
    case RacingForgetStep => true
    case _ => false
  }

  /** Whether a kind is stopped changes exactly as its events, its opens and the session say. */
  lemma StoppedExact(s: State, step: Step, kind: Kind)
    ensures kind in Apply(s, step).terminal <==>
              Stops(s, step, kind) || (kind in s.terminal && !Resumes(s, step, kind))
  {
    hide CloseCaptured, CloseAll, Select, LifecycleOnly, TerminalEvent, Ends, Heeded, AsItems, AsFrames, Stamp,
         IsCurrent, Generation, OpenReturns, Enters;
    match step
    case TerminalStep(event) => TerminalExact(s, event);
    case OpenReturnsStep(stream, source) => AnswerStops(s, stream, source, kind);
    case _ =>
  }

  lemma AnswerStops(s: State, stream: nat, source: string, kind: Kind)
    ensures kind in OpenReturns(s, stream, source).terminal <==>
              || Stops(s, OpenReturnsStep(stream, source), kind)
              || (kind in s.terminal && !Resumes(s, OpenReturnsStep(stream, source), kind))
  {
    hide Generation;
  }

  /**
   An open starts if and only if none is under way, its kind is known and not
   stopped, and it is the reconfiguration's own or none is running. It then
   stays under way until it is answered, and its guard until it is ended.
   */
  lemma OpeningExact(s: State, step: Step)
    ensures var t := Apply(s, step);
            t.opening ==
              match step
              case BeginOpenStep(kind, fromReconfigure) =>
                if AtRest(s) && kind != Unknown && kind !in s.terminal && (fromReconfigure || !s.reconfiguring)
                then InFlight(kind) else s.opening
              case OpenReturnsStep(stream, _) =>
                if s.staged == [] && s.batch == [] && s.opening.InFlight? && stream != 0
                then Settled(s.opening.kind) else s.opening
              case OpenFailsStep(_) =>
                if s.staged == [] && s.batch == [] && s.opening.InFlight? then Settled(s.opening.kind) else s.opening
              case EndOpenStep =>
                if s.staged == [] && s.batch == [] && s.opening.Settled? then Idle else s.opening
              case _ => s.opening
  {
    hide CloseCaptured, CloseAll, Select, LifecycleOnly, TerminalMatch, Relevant, AsItems, AsFrames, Stamp, IsCurrent;
  }

  // ----------------------------------------------------- a stream that left is over

  predicate Of(item: Item, id: nat, generation: nat) {
    item.Media? && item.frame.stream == id && item.frame.generation == generation
  }

  /** The generation is over: it was reached, and the table does not hold it. */
  predicate Over(s: State, id: nat, generation: nat) {
    && Generation(s, id) >= generation > 0
    && !(id in s.active && s.active[id].generation == generation)
  }

  lemma OverStays(s: State, step: Step, id: nat, generation: nat)
    requires Over(s, id, generation)
    ensures Over(Apply(s, step), id, generation)
  {
    hide Apply;
    OneIdChanges(s, step, id);
  }

  /** What a step adds to the log. */
  lemma LogGrows(s: State, step: Step)
    ensures var t := Apply(s, step);
            || t.log == s.log
            || (t.log[..|t.log| - 1] == s.log && t.log != []
                && var item := t.log[|t.log| - 1];
                   item.Media? ==> step.DeliverStep? && s.hand == Some(item.frame) && IsCurrent(s, item.frame))
  {
    match step
    case PopStep =>
      assert s.dispatch != [] ==> (s.log + [s.dispatch[0]])[..|s.log|] == s.log;
    case DeliverStep =>
      assert s.hand.Some? ==> (s.log + [Media(s.hand.value)])[..|s.log|] == s.log;
    case _ => OthersKeepLog(s, step);
  }

  lemma OthersKeepLog(s: State, step: Step)
    requires !step.PopStep? && !step.DeliverStep?
    ensures Apply(s, step).log == s.log
  {
    hide CloseCaptured, CloseAll, Select, LifecycleOnly, TerminalMatch, Relevant, Stamp, AsItems, AsFrames;
  }

  /** Whatever happens next, no frame of a generation that is over is handed out. */
  lemma {:induction false} OverIsSilent(s: State, steps: seq<Step>, id: nat, generation: nat)
    requires Over(s, id, generation)
    ensures var t := Execute(s, steps);
            && Over(t, id, generation) && |s.log| <= |t.log|
            && forall i | |s.log| <= i < |t.log| :: !Of(t.log[i], id, generation)
    decreases |steps|
  {
    hide Apply, Over;
    if steps != [] {
      var n := |steps| - 1;
      var u := Execute(s, steps[..n]);
      OverIsSilent(s, steps[..n], id, generation);
      OverStays(u, steps[n], id, generation);
      LogGrows(u, steps[n]);
      NotCurrent(u, id, generation);
    }
  }

  lemma NotCurrent(s: State, id: nat, generation: nat)
    requires Over(s, id, generation)
    ensures forall f: Frame | f.stream == id && f.generation == generation :: !IsCurrent(s, f)
  {
  }

  lemma LeavingIsOver(s: State, step: Step, id: nat)
    requires Filed(s) && id in s.active && Leaves(s, step, id)
    ensures Over(Apply(s, step), id, s.active[id].generation)
  {
    hide Apply, Leaves;
    TableExact(s, step, id);
    OneIdChanges(s, step, id);
    EntersOrLeaves(s, step, id);
  }

  lemma EntersOrLeaves(s: State, step: Step, id: nat)
    requires id in s.active && Leaves(s, step, id)
    ensures !Enters(s, step, id)
  {
    hide Ends, Heeded;
  }

  /**
   On every run, whatever step takes a stream out of the table: no frame of that
   generation is handed out afterwards.
   */
  lemma NothingAfterLeaving(config: Config, before: seq<Step>, step: Step, id: nat, after: seq<Step>)
    requires var s := Execute(Initial(config), before);
             id in s.active && Leaves(s, step, id)
    ensures var s := Execute(Initial(config), before);
            var t := Execute(Apply(s, step), after);
            && |s.log| <= |t.log|
            && forall i | |s.log| <= i < |t.log| :: !Of(t.log[i], id, s.active[id].generation)
  {
    hide Execute, Apply, Leaves, Over;
    var s := Execute(Initial(config), before);
    ExecuteFiled(config, before);
    LeavingIsOver(s, step, id);
    OverIsSilent(Apply(s, step), after, id, s.active[id].generation);
    LeavingKeepsLog(s, step, id);
  }

  lemma LeavingKeepsLog(s: State, step: Step, id: nat)
    requires id in s.active && Leaves(s, step, id)
    ensures Apply(s, step).log == s.log
  {
    hide CloseCaptured, CloseAll, TerminalMatch, Relevant, Heeded, Ends;
  }

  // ------------------------------------------------------------ and is announced

  lemma {:induction false} DeliverableConcat(s: State, a: seq<Item>, b: seq<Item>)
    ensures Deliverable(s, a + b) == Deliverable(s, a) + Deliverable(s, b)
  {
    if a == [] {
      assert a + b == b;
    } else {
      assert (a + b)[1..] == a[1..] + b;
      DeliverableConcat(s, a[1..], b);
    }
  }

  lemma {:induction false} DeliverableSilent(s: State, items: seq<Item>, id: nat, generation: nat)
    requires Over(s, id, generation)
    ensures forall i | 0 <= i < |Deliverable(s, items)| :: !Of(Deliverable(s, items)[i], id, generation)
  {
    hide IsCurrent, Over;
    NotCurrent(s, id, generation);
    if items != [] {
      DeliverableSilent(s, items[1..], id, generation);
    }
  }

  /**
   A terminal event that ends a stream, queued and handed out: its Closed event is
   the last thing the callbacks are told, and no frame of the stream comes on the
   way there.
   */
  lemma TerminalIsAnnounced(s: State, event: SourceEvent, id: nat)
    requires Filed(s) && Heeded(s, event) && Ends(s, event, id)
    ensures var t := EnqueueStaged(TerminalEvent(s, event));
            var told := Deliverable(t, Undelivered(t));
            && told != [] && told[|told| - 1] == Lifecycle(Closed(s.active[id]))
            && forall i | 0 <= i < |told| :: !Of(told[i], id, s.active[id].generation)
  {
    hide TerminalEvent, Heeded, Ends, IsCurrent, Deliverable;
    TerminalExact(s, event);
    EndsActive(s, event, id);
    var d := s.active[id];
    var u := TerminalEvent(s, event);
    var t := EnqueueStaged(u);
    assert AsItems([Closed(d)]) == [Lifecycle(Closed(d))];
    assert Undelivered(t) == Undelivered(u) + [Lifecycle(Closed(d))];
    DeliverableConcat(t, Undelivered(u), [Lifecycle(Closed(d))]);
    DeliverableEvent(t, Closed(d));
    DeliverableSilent(t, Undelivered(t), id, d.generation);
  }

  lemma DeliverableEvent(s: State, e: Event)
    ensures Deliverable(s, [Lifecycle(e)]) == [Lifecycle(e)]
  {
    assert [Lifecycle(e)][1..] == [];
  }
}

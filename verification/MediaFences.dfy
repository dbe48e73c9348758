/**
 Two fences of the leaf adapter, each with the exact condition under which it
 lets something pass: the binding fence, which rejects a frame whose provenance
 token was taken under an earlier lease binding, and the open fence, which turns
 an open into one orphan close when a terminal event overtook it.
 */
module MediaFences {
  import opened Wrappers
  import opened MediaLifecycle

  // -------------------------------------------------------------- binding fence

  /** A step that changes who owns the device, whatever the session id. */
  predicate Rebinds(s: State, step: Step) {
    match step
    case BindStep(_) => true
    case UnbindStep(id) => s.session == Some(id)
    case ResetBindingStep => s.session.Some?
    case _ => false
  }

  ghost predicate Undisturbed(s: State, steps: seq<Step>)
    decreases |steps|
  {
    steps == [] ||
    var n := |steps| - 1;
    Undisturbed(s, steps[..n]) && !Rebinds(Execute(s, steps[..n]), steps[n])
  }

  lemma ApplyEpoch(s: State, step: Step)
    ensures var t := Apply(s, step);
            if Rebinds(s, step) then t.epoch == s.epoch + 1 else t.epoch == s.epoch && t.session == s.session
  {
    hide CloseCaptured, CloseAll, Select, LifecycleOnly, TerminalMatch, Relevant;
  }

  lemma {:induction false} ExecuteEpoch(s: State, steps: seq<Step>)
    ensures var t := Execute(s, steps);
            && t.epoch >= s.epoch
            && (t.epoch == s.epoch <==> Undisturbed(s, steps))
            && (t.epoch == s.epoch ==> t.session == s.session)
    decreases |steps|
  {
    hide Apply, Rebinds;
    if steps != [] {
      var n := |steps| - 1;
      ExecuteEpoch(s, steps[..n]);
      ApplyEpoch(Execute(s, steps[..n]), steps[n]);
    }
  }

  /** Two moments of a run with equal epochs have the same binding. */
  lemma EqualEpochsSameBinding(s: State, steps: seq<Step>)
    requires Execute(s, steps).epoch == s.epoch
    ensures Execute(s, steps).session == s.session
  {
    ExecuteEpoch(s, steps);
  }

  /**
   A frame whose token was taken at `s` passes the binding check after any later
   steps exactly when none of them bound, effectively unbound or reset the lease
   and the frame names that lease, however late the frame was made from its bytes.
   */
  lemma TokenFence(s: State, steps: seq<Step>, f: Frame)
    requires f.epoch == IngressToken(s) != 0
    ensures BindingCurrent(Execute(s, steps), f)
            <==> Undisturbed(s, steps) && f.session != "" && Some(f.session) == s.session
    ensures Undisturbed(s, steps) ==> Execute(s, steps).session == s.session
  {
    hide Execute, Undisturbed;
    ExecuteEpoch(s, steps);
  }

  // ----------------------------------------------------------------- open fence

  /** A terminal event that the open of `kind` answered by `stream` must not survive. */
  predicate Kills(s: State, event: SourceEvent, kind: Kind, stream: nat) {
    && OwnerFree(s) && Relevant(s, event) && event.kind == kind
    && (event.stream == 0 || event.stream == stream || TerminalMatch(s, event).Some?)
  }

  /** The open stays unanswered. */
  predicate Unanswered(steps: seq<Step>) {
    forall i | 0 <= i < |steps| :: !steps[i].OpenReturnsStep? && !steps[i].OpenFailsStep?
  }

  /** A killing terminal event was processed and the recovery worker has not cleared it since. */
  ghost predicate Overtaken(s: State, steps: seq<Step>, kind: Kind, stream: nat)
    decreases |steps|
  {
    steps != [] &&
    var n := |steps| - 1;
    match steps[n]
    case TerminalStep(e) =>
      Overtaken(s, steps[..n], kind, stream) || Kills(Execute(s, steps[..n]), e, kind, stream)
    case RacingForgetStep => false
    case _ => Overtaken(s, steps[..n], kind, stream)
  }

  predicate Marked(s: State, kind: Kind, stream: nat) {
    kind in s.terminal || stream in s.candidates
  }

  lemma WindowStep(s: State, step: Step, kind: Kind, stream: nat)
    requires s.opening == InFlight(kind) && !step.OpenReturnsStep? && !step.OpenFailsStep?
    ensures var t := Apply(s, step);
            && t.opening == InFlight(kind)
            && (Marked(t, kind, stream) <==>
                  match step
                  case TerminalStep(e) => Marked(s, kind, stream) || Kills(s, e, kind, stream)
                  case RacingForgetStep => false
                  case _ => Marked(s, kind, stream))
  {
    hide CloseCaptured, CloseAll, Select, LifecycleOnly, TerminalMatch, Relevant, AsItems, AsFrames, Stamp, IsCurrent,
         Publish, Kills;
    match step
    case TerminalStep(e) => TerminalWindow(s, e, kind, stream);
    case _ =>
  }

  lemma TerminalWindow(s: State, e: SourceEvent, kind: Kind, stream: nat)
    requires s.opening == InFlight(kind)
    ensures TerminalEvent(s, e).opening == s.opening
    ensures Marked(TerminalEvent(s, e), kind, stream) <==> Marked(s, kind, stream) || Kills(s, e, kind, stream)
  {
    hide Matches, LeastId, Relevant;
  }

  lemma {:induction false} WindowMarks(s: State, steps: seq<Step>, kind: Kind, stream: nat)
    requires s.opening == InFlight(kind) && !Marked(s, kind, stream) && Unanswered(steps)
    ensures var t := Execute(s, steps);
            t.opening == InFlight(kind) && (Marked(t, kind, stream) <==> Overtaken(s, steps, kind, stream))
    decreases |steps|
  {
    hide Apply, Kills, Marked;
    if steps != [] {
      var n := |steps| - 1;
      WindowMarks(s, steps[..n], kind, stream);
      WindowStep(Execute(s, steps[..n]), steps[n], kind, stream);
    }
  }

  /** Candidate terminals are kept only while an open is under way. */
  predicate NoStaleCandidates(s: State) {
    s.opening == Idle ==> s.candidates == {}
  }

  lemma ApplyNoStaleCandidates(s: State, step: Step)
    requires NoStaleCandidates(s)
    ensures NoStaleCandidates(Apply(s, step))
  {
    hide CloseCaptured, CloseAll, Select, LifecycleOnly, TerminalMatch, Relevant;
  }

  lemma {:induction false} ExecuteNoStaleCandidates(config: Config, steps: seq<Step>)
    ensures NoStaleCandidates(Execute(Initial(config), steps))
    decreases |steps|
  {
    hide Apply;
    if steps != [] {
      ExecuteNoStaleCandidates(config, steps[..|steps| - 1]);
      ApplyNoStaleCandidates(Execute(Initial(config), steps[..|steps| - 1]), steps[|steps| - 1]);
    }
  }

  /**
   In every run, an open that started after `before` and is answered by `stream`
   after `window` publishes nothing and leaves exactly one orphan close when a
   relevant terminal event in the window named no stream, an active stream of
   its source or this very id; otherwise it publishes exactly this stream.
   */
  lemma OpenFence(config: Config, before: seq<Step>, kind: Kind, reconfigure: bool, window: seq<Step>,
                  stream: nat, source: string)
    requires var s := Execute(Initial(config), before);
             s.opening == Idle && BeginOpen(s, kind, reconfigure).opening == InFlight(kind)
    requires Unanswered(window) && stream != 0
    requires OwnerFree(Execute(BeginOpen(Execute(Initial(config), before), kind, reconfigure), window))
    ensures var s := BeginOpen(Execute(Initial(config), before), kind, reconfigure);
            var u := Execute(s, window);
            var t := OpenReturns(u, stream, source);
            if Overtaken(s, window, kind, stream) then
              && t.active == u.active && t.generations == u.generations && t.staged == []
              && t.orphans == u.orphans + [(kind, stream)]
            else
              && t.orphans == u.orphans && stream in t.active && t.staged != []
              && t.staged[|t.staged| - 1] == Opened(t.active[stream])
              && t.active[stream] == Descriptor(stream, Generation(u, stream) + 1, kind, source)
  {
    hide Execute, Overtaken;
    var s := Execute(Initial(config), before);
    ExecuteNoStaleCandidates(config, before);
    WindowMarks(BeginOpen(s, kind, reconfigure), window, kind, stream);
  }

  /** A terminal event for any other inactive id leaves the open alone. */
  lemma ForeignTerminalHarmless(s: State, window: seq<Step>, event: SourceEvent, kind: Kind, stream: nat)
    requires event.stream != 0 && event.stream != stream
    requires TerminalMatch(Execute(s, window), event).None?
    ensures Overtaken(s, window + [TerminalStep(event)], kind, stream) <==> Overtaken(s, window, kind, stream)
  {
    hide Execute, TerminalMatch;
    var steps := window + [TerminalStep(event)];
    assert steps[..|steps| - 1] == window;
  }

  // ---------------------------------------------------------- generation identity

  ghost predicate Named(s: State, d: Descriptor) {
    && Generation(s, d.stream) >= d.generation
    && (d.stream in s.active && s.active[d.stream].generation == d.generation ==> s.active[d.stream] == d)
  }

  lemma {:induction false} CloseCapturedShrinks(active: map<nat, Descriptor>, captured: seq<Descriptor>, id: nat)
    ensures var left := CloseCaptured(active, captured).0;
            id in left ==> id in active && left[id] == active[id]
  {
    if captured != [] {
      CloseCapturedShrinks(active, captured[..|captured| - 1], id);
    }
  }

  /** A step keeps the active descriptor of an id, removes it, or enters one with the next generation. */
  lemma OneIdChanges(s: State, step: Step, id: nat)
    ensures var t := Apply(s, step);
            if id in t.active && !(id in s.active && t.active[id] == s.active[id]) then
              t.active[id].stream == id && t.active[id].generation == Generation(t, id) == Generation(s, id) + 1
            else Generation(t, id) >= Generation(s, id)
  {
    hide CloseCaptured, CloseAll, Select, LifecycleOnly, TerminalMatch, Relevant;
    if step.ClosePreviousStep? {
      CloseCapturedShrinks(s.active, step.captured, id);
    }
  }

  lemma ApplyNamed(s: State, step: Step, d: Descriptor)
    requires Named(s, d)
    ensures Named(Apply(s, step), d)
  {
    hide Apply;
    OneIdChanges(s, step, d.stream);
  }

  /** After any steps, an active stream with the id and generation of `d` is `d` itself. */
  lemma {:induction false} GenerationNamesOneDescriptor(s: State, steps: seq<Step>, d: Descriptor)
    requires Named(s, d)
    ensures Named(Execute(s, steps), d)
    decreases |steps|
  {
    hide Apply, Named;
    if steps != [] {
      GenerationNamesOneDescriptor(s, steps[..|steps| - 1], d);
      ApplyNamed(Execute(s, steps[..|steps| - 1]), steps[|steps| - 1], d);
    }
  }

  /** Every active stream is filed under its own id, with a generation its counter has reached. */
  ghost predicate Filed(s: State) {
    forall id | id in s.active ::
      s.active[id].stream == id && Generation(s, id) >= s.active[id].generation && s.active[id].generation > 0
  }

  lemma ApplyFiled(s: State, step: Step)
    requires Filed(s)
    ensures Filed(Apply(s, step))
  {
    hide Apply;
    var t := Apply(s, step);
    forall id | id in t.active
      ensures t.active[id].stream == id && Generation(t, id) >= t.active[id].generation && t.active[id].generation > 0
    {
      OneIdChanges(s, step, id);
    }
  }

  lemma {:induction false} ExecuteFiled(config: Config, steps: seq<Step>)
    ensures Filed(Execute(Initial(config), steps))
    decreases |steps|
  {
    hide Apply;
    if steps != [] {
      ExecuteFiled(config, steps[..|steps| - 1]);
      ApplyFiled(Execute(Initial(config), steps[..|steps| - 1]), steps[|steps| - 1]);
    }
  }

  /**
   A descriptor captured from the stream table of any run: whatever happens next,
   an active stream with its id and generation is that descriptor.
   */
  lemma CapturedStaysItself(config: Config, before: seq<Step>, id: nat, after: seq<Step>)
    requires id in Execute(Initial(config), before).active
    ensures var s := Execute(Initial(config), before);
            var d, t := s.active[id], Execute(s, after);
            id in t.active && t.active[id].generation == d.generation ==> t.active[id] == d
  {
    hide Execute;
    ExecuteFiled(config, before);
    var s := Execute(Initial(config), before);
    GenerationNamesOneDescriptor(s, after, s.active[id]);
  }
}

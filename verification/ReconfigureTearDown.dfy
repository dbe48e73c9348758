/**
 A teardown of the session is safe for the frame-rate change exactly between two
 ticks. Inside a tick, the tick goes on with its copy of an operation that no
 longer exists, and some continuation always ends in an illegal action log.
 */
module ReconfigureTearDown {
  import opened Wrappers
  import M = MediaLifecycle
  import opened VideoReconfigure
  import opened ReconfigureRuns

  predicate Quiet(steps: seq<Step>) {
    forall i | 0 <= i < |steps| ::
      CapturesByKind(steps[i]) && !steps[i].TearDownStep? && !steps[i].OpenSessionStep?
  }

  /** Whatever happens next, short of another teardown or session, the log stays legal. */
  ghost predicate SafeFrom(s: State) {
    forall steps | Quiet(steps) :: Read(Execute(s, steps).log).Some?
  }

  lemma {:induction false} QuietUndisturbed(s: State, steps: seq<Step>)
    requires Quiet(steps)
    ensures Undisturbed(s, steps)
    decreases |steps|
  {
    if steps != [] {
      QuietUndisturbed(s, steps[..|steps| - 1]);
    }
  }

  lemma SoundIsSafe(s: State)
    requires Sound(s)
    ensures SafeFrom(s)
  {
    forall steps | Quiet(steps) ensures Read(Execute(s, steps).log).Some? {
      hide Read, Execute, Quiet, Undisturbed;
      QuietUndisturbed(s, steps);
      ExecuteSound(s, steps);
    }
  }

  // ------------------------------------------------------------- the failing side

  /** The log already is illegal, or the operation at work is not the one the log has pending. */
  ghost predicate Doomed(s: State) {
    || Read(s.log).None?
    || (&& Latest(s).Some? && s.operation.Some?
        && Read(s.log).value.pending.Some? && Read(s.log).value.pending.value.id != Latest(s).value.id)
  }

  function Distance(s: State): nat {
    if s.tick.None? then 8
    else
      match s.tick.value.place
      case ClosingVideo => 7
      case ClosingAudio => if s.tick.value.op.video.terminal then 6 else 10
      case Saving => if BothTerminal(s.tick.value.op) then 5 else 9
      case Rechecking => 4
      case OpeningVideo => 3
      case OpeningAudio => 2
      case Completing => 1
  }

  function NextStep(s: State): Step {
    if s.tick.None? then StartTickStep(true, 0)
    else
      match s.tick.value.place
      case ClosingVideo => CloseVideoStep(StateClosed, 0)
      case ClosingAudio => CloseAudioStep(StateClosed, 0)
      case Saving => SaveClosesStep
      case Rechecking => RecheckStep
      case OpeningVideo => OpenVideoStep(true)
      case OpeningAudio => OpenAudioStep(true, None)
      case Completing => CompleteStep
  }

  /** An action under an id that is not pending makes the log illegal. */
  lemma StrayAction(log: seq<Action>, a: Action)
    requires Read(log).Some? && Read(log).value.pending.Some?
    requires Read(log).value.pending.value.id != a.id && !a.Accepted?
    ensures Read(log + [a]).None?
  {
    ReadRejects(log, a);
  }

  lemma StrayLeg(s: State, actions: seq<Action>, op: Operation)
    requires Read(s.log).Some? && Read(s.log).value.pending.Some? && Read(s.log).value.pending.value.id != op.id
    requires |actions| <= 1 && (actions != [] ==> actions[0].id == op.id && !actions[0].Accepted?)
    ensures actions == [] ==> s.log + actions == s.log
    ensures actions != [] ==> Read(s.log + actions).None?
    ensures Read(s.log + actions + [Ended(op.id, Failed, op.previous)]).None?
  {
    hide Read;
    if actions == [] {
      assert s.log + actions == s.log;
      StrayAction(s.log, Ended(op.id, Failed, op.previous));
    } else {
      assert actions == [actions[0]];
      StrayAction(s.log, actions[0]);
      ReadRejects(s.log + actions, Ended(op.id, Failed, op.previous));
    }
  }

  lemma DoomedStep(s: State)
    requires Doomed(s) && Read(s.log).Some?
    ensures var t := Apply(s, NextStep(s));
            Doomed(t) && (Read(t.log).Some? ==> Distance(t) < Distance(s))
  {
    hide Read;
    if s.tick.Some? {
      var op := s.tick.value.op;
      match s.tick.value.place
      case ClosingVideo =>
        StrayLeg(s, LegActions(op.id, op.video, op.deadline, StateClosed, 0), op);
      case ClosingAudio =>
        StrayLeg(s, LegActions(op.id, op.audio, op.deadline, StateClosed, 0), op);
      case OpeningVideo => StrayAction(s.log, OpenAnswered(op.id, M.Video, true));
      case OpeningAudio => StrayAction(s.log, OpenAnswered(op.id, M.Audio, true));
      case Completing =>
        StrayAction(s.log, Ended(op.id, if op.rollback then RolledBack else Applied, s.rate));
      case _ =>
    }
  }

  lemma {:induction false} ExecuteCons(s: State, step: Step, steps: seq<Step>)
    ensures Execute(s, [step] + steps) == Execute(Apply(s, step), steps)
    decreases |steps|
  {
    hide Apply;
    if steps == [] {
      assert [step] + steps == [step] && [step][..0] == [];
    } else {
      var n := |steps| - 1;
      assert ([step] + steps)[..n + 1] == [step] + steps[..n];
      ExecuteCons(s, step, steps[..n]);
    }
  }

  lemma {:induction false} Doom(s: State) returns (steps: seq<Step>)
    requires Doomed(s)
    ensures Quiet(steps) && Read(Execute(s, steps).log).None?
    decreases Distance(s)
  {
    hide Read, Apply, Doomed;
    if Read(s.log).None? {
      steps := [];
    } else {
      DoomedStep(s);
      var t := Apply(s, NextStep(s));
      var rest: seq<Step>;
      if Read(t.log).None? {
        rest := [];
      } else {
        rest := Doom(t);
      }
      steps := [NextStep(s)] + rest;
      ExecuteCons(s, NextStep(s), rest);
    }
  }

  /** After the teardown a new request is accepted while the old tick still runs. */
  lemma NewRequestDooms(s: State)
    requires Sound(s) && s.tick.Some?
    ensures var session := Session(true, None, None, true, [], false, false);
            Doomed(SetParams(TearDown(s), Request(Some(30), false), session))
  {
    hide Read;
    var id, t := s.operation.value.id, TearDown(s);
    ReadOne(s.log, TornDown(id));
    ReadOne(t.log, Accepted(s.nextId, None, Some(30), None, None, false, false));
    PendingIsLast(s.log);
  }

  /** A teardown keeps the log legal on every continuation exactly when no tick is under way. */
  lemma TearDownExact(s: State)
    requires Sound(s)
    ensures SafeFrom(TearDown(s)) <==> s.tick.None?
  {
    hide Sound, SafeFrom, TearDown, Quiet, SetParams, Doomed;
    if s.tick.None? {
      TearDownSound(s);
      SoundIsSafe(TearDown(s));
    } else {
      NewRequestDooms(s);
      var session := Session(true, None, None, true, [], false, false);
      var request := SetParamsStep(Request(Some(30), false), session);
      var t := TearDown(s);
      var rest := Doom(Apply(t, request));
      Unsafe(t, request, rest);
    }
  }

  lemma Unsafe(s: State, step: Step, rest: seq<Step>)
    requires CapturesByKind(step) && !step.TearDownStep? && !step.OpenSessionStep? && Quiet(rest)
    requires Read(Execute(Apply(s, step), rest).log).None?
    ensures !SafeFrom(s)
  {
    hide Read, Apply, Execute;
    ExecuteCons(s, step, rest);
    assert Quiet([step] + rest);
  }

  lemma ExecuteTwo(s: State, a: Step, b: Step)
    ensures Execute(s, [a, b]) == Apply(Apply(s, a), b)
  {
    hide Apply;
    assert [a, b] == [a] + [b] && [a] == [a] + [];
    ExecuteCons(s, a, [b]);
    ExecuteCons(Apply(s, a), b, []);
    assert [b] == [b] + [];
  }

  /** The failure is reachable: a first request and the start of its first tick, then a teardown. */
  lemma TearDownInsideTick()
    ensures var session := Session(true, None, None, true, [], false, false);
            var s := Execute(Initial, [SetParamsStep(Request(Some(30), false), session), StartTickStep(true, 0)]);
            Sound(s) && s.tick.Some? && !SafeFrom(TearDown(s))
  {
    hide SafeFrom, Execute, Sound;
    var session := Session(true, None, None, true, [], false, false);
    var request := SetParamsStep(Request(Some(30), false), session);
    ExecuteTwo(Initial, request, StartTickStep(true, 0));
    InitialSound();
    ApplySound(Initial, request);
    ApplySound(Apply(Initial, request), StartTickStep(true, 0));
    TearDownExact(Apply(Apply(Initial, request), StartTickStep(true, 0)));
  }

  lemma InitialSound()
    ensures Sound(Initial)
  {
  }
}

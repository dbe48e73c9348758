/**
 Over every run of the leaf adapter: the stream events handed out alternate
 Opened(g) and Closed(g) per stream id with strictly increasing g, they end open
 exactly for the active streams, and every frame with a generation lies between
 the Opened and the Closed of that generation.

 Two things break this, both races of the recovery worker with the session owner:
 clearing the table while the owner has entered a stream in it but not yet queued
 its Opened event, and the owner queueing an Opened event of an id whose Closed
 the worker has not yet queued. `RacingTakeExact` and `EnqueueExact` show that
 these are exactly the failures, and `RacesAreReachable` gives runs.
 */
module MediaRuns {
  import opened Wrappers
  import opened Ordering
  import opened MediaLifecycle
  import opened MediaEvents
  import opened MediaConsistency

  // ----------------------------------------------------------------------- races

  lemma RacingTakeBreaks(s: State)
    requires Consistent(s) && s.racing == [] && !AllClosed(s.staged)
    ensures Replay(NoLife, Emitted(s) + CloseAll(s.active)).None?
  {
    hide Replay, EventsOf, CloseAll, FramesBacked, LegalLog;
    var n, closes := |s.staged| - 1, CloseAll(s.active);
    var last := s.staged[n];
    assert s.staged == s.staged[..n] + [last] && last.Opened?;
    assert Emitted(s) + Unqueued(s) == Emitted(s) + s.staged;
    ReplayConcat(NoLife, Emitted(s), s.staged);
    ReplayKeyedPrefix(s);
    var l := Replay(NoLife, Emitted(s)).value;
    ReplayConcat(l, s.staged[..n], [last]);
    ReplayKeyed(l, s.staged[..n]);
    ReplayOne(Replay(l, s.staged[..n]).value, last);
    UnopenedClose(l, s.active, last.descriptor.stream);
    ReplayConcat(NoLife, Emitted(s), closes);
  }

  /**
   Clearing the table without owning the session keeps the adapter consistent
   exactly when no open is between its table update and its queued Opened event;
   otherwise the events queued next close a generation that was never opened.
   */
  lemma RacingTakeExact(s: State)
    requires Consistent(s) && s.racing == []
    ensures Consistent(RacingTake(s)) <==> AllClosed(s.staged)
    ensures Replay(NoLife, Emitted(RacingPush(RacingTake(s)))).Some? <==> AllClosed(s.staged)
  {
    hide Replay, EventsOf, CloseAll, FramesBacked, LegalLog, AllClosed, OpensLast;
    var t, closes := RacingTake(s), CloseAll(s.active);
    EventsOfItems(closes);
    EventsOfConcat(s.dispatch, AsItems(closes));
    assert Emitted(RacingPush(t)) == Emitted(s) + closes;
    assert Emitted(t) + Unqueued(t) == (Emitted(s) + closes) + s.staged;
    ReplayConcat(NoLife, Emitted(s) + closes, s.staged);
    if AllClosed(s.staged) {
      RacingTakeKeeps(s);
    } else {
      RacingTakeBreaks(s);
    }
  }

  lemma EnqueueBreaks(s: State)
    requires Consistent(s) && !EnqueueSafe(s)
    ensures Replay(NoLife, Emitted(s) + s.staged).None?
  {
    hide Replay, EventsOf, FramesBacked, LegalLog, StreamIn;
    var n := |s.staged| - 1;
    var closes, last := s.staged[..n], s.staged[n];
    assert s.staged == closes + [last] && last.Opened? && StreamIn(s.racing, last.descriptor.stream);
    ReplayKeyedPrefix(s);
    var l, id := Replay(NoLife, Emitted(s)).value, last.descriptor.stream;
    ReplayConcat(NoLife, Emitted(s), Unqueued(s));
    ReplayConcat(l, s.racing, s.staged);
    ClosedWasOpen(l, s.racing, id);
    var m := Replay(l, s.racing).value;
    ReplayConcat(m, closes, [last]);
    OnlyCloses(m, closes, id);
    ReplayConcat(NoLife, Emitted(s), s.staged);
    ReplayConcat(l, closes, [last]);
    if Replay(l, closes).Some? {
      ClosesKeepOpen(l, closes, id);
      ReplayOne(Replay(l, closes).value, last);
    }
  }

  /**
   The owner's events can be queued ahead of the worker's exactly when they open
   no id the worker still has to close; otherwise the queue opens an open id.
   */
  lemma EnqueueExact(s: State)
    requires Consistent(s)
    ensures Consistent(EnqueueStaged(s)) <==> EnqueueSafe(s)
    ensures Replay(NoLife, Emitted(EnqueueStaged(s))).Some? <==> EnqueueSafe(s)
  {
    hide Replay, EventsOf, FramesBacked, LegalLog, EnqueueSafe, AllClosed, OpensLast;
    var t := EnqueueStaged(s);
    assert Emitted(t) == Emitted(s) + s.staged by { EnqueueGrows(s); }
    ReplayConcat(NoLife, Emitted(t), Unqueued(t));
    if EnqueueSafe(s) {
      EnqueueConsistent(s);
    } else {
      EnqueueBreaks(s);
    }
  }

  // ------------------------------------------------------------------ theorems

  /** Neither race happens in the run. */
  ghost predicate RaceFree(s: State, steps: seq<Step>)
    decreases |steps|
  {
    steps == [] ||
    var n := |steps| - 1;
    RaceFree(s, steps[..n]) && Safe(Execute(s, steps[..n]), steps[n])
  }

  lemma {:induction false} ExecuteConsistent(s: State, steps: seq<Step>)
    requires Consistent(s) && RaceFree(s, steps)
    ensures Consistent(Execute(s, steps))
    decreases |steps|
  {
    hide Consistent, Apply, Safe;
    if steps != [] {
      ExecuteConsistent(s, steps[..|steps| - 1]);
      ApplyConsistent(Execute(s, steps[..|steps| - 1]), steps[|steps| - 1]);
    }
  }

  lemma InitialConsistent(config: Config)
    ensures Consistent(Initial(config))
  {
  }

  /**
   On every run: the events handed out alternate Opened and Closed per id with
   strictly increasing generations; each frame with a generation lies inside its
   own interval; and once everything is handed out, exactly the active streams
   are open, at the generation the counter holds.
   */
  lemma EveryRunIsLegal(config: Config, steps: seq<Step>)
    requires RaceFree(Initial(config), steps)
    ensures var s := Execute(Initial(config), steps);
            && LegalLog(s.log)
            && Replay(NoLife, EventsOf(s.log)).Some?
            && (s.dispatch == [] && Unqueued(s) == [] ==>
                  Replay(NoLife, EventsOf(s.log)) == Some(Life(s.active, s.generations)))
  {
    hide Replay, LegalLog, EventsOf, Execute, RaceFree, FramesBacked, OpensLast, AllClosed, Initial, Unqueued;
    InitialConsistent(config);
    ExecuteConsistent(Initial(config), steps);
    var s := Execute(Initial(config), steps);
    var rest := EventsOf(s.dispatch) + Unqueued(s);
    assert Emitted(s) + Unqueued(s) == EventsOf(s.log) + rest;
    ReplayConcat(NoLife, EventsOf(s.log), rest);
    if s.dispatch == [] && Unqueued(s) == [] {
      EventsOfOne(Media(Frame(0, 0, Unknown, "", 0, 0)));
      assert EventsOf(s.log) + rest == EventsOf(s.log);
    }
  }

  /** Both races are reachable: a run up to the moment where the worker's step, or the owner's, breaks it. */
  lemma RacesAreReachable(config: Config)
    ensures var steps := [BeginOpenStep(Video, false), OpenReturnsStep(1, "")];
            var s := Execute(Initial(config), steps);
            && Consistent(s) && Replay(NoLife, Emitted(RacingPush(RacingTake(s)))).None?
    ensures var steps := [BeginOpenStep(Video, false), OpenReturnsStep(1, "")];
            var s := EnqueueStaged(Execute(Initial(config), steps));
            var u := OpenReturns(BeginOpen(EndOpen(RacingTake(s)), Video, false), 1, "");
            && Consistent(u) && Replay(NoLife, Emitted(EnqueueStaged(u))).None?
  {
    var a, b := BeginOpenStep(Video, false), OpenReturnsStep(1, "");
    var s0 := Initial(config);
    assert [a, b][..1] == [a] && [a][..0] == [];
    assert RaceFree(s0, []) && RaceFree(s0, [a]);
    assert RaceFree(s0, [a, b]);
    InitialConsistent(config);
    ExecuteConsistent(s0, [a, b]);
    var s := Execute(s0, [a, b]);
    var d := Descriptor(1, 1, Video, "");
    assert s.active == map[1 := d] && s.staged == [] + [Opened(d)] && s.racing == [] && s.opening == Settled(Video);
    assert s.staged[0].Opened?;
    RacingTakeExact(s);
    SecondRace(s, d);
  }

  lemma SecondRace(s: State, d: Descriptor)
    requires Consistent(s) && d.stream == 1 && s.active == map[1 := d] && s.racing == [] && s.batch == []
    requires s.opening == Settled(Video) && !s.reconfiguring && Video !in s.terminal && s.candidates == {}
    ensures var u := OpenReturns(BeginOpen(EndOpen(RacingTake(EnqueueStaged(s))), Video, false), 1, "");
            && Consistent(u) && Replay(NoLife, Emitted(EnqueueStaged(u))).None?
  {
    hide Consistent, CloseAll, Replay, EventsOf, Emitted, OpenReturns, BeginOpen, EndOpen;
    var t := EnqueueStaged(s);
    assert EnqueueSafe(s);
    EnqueueConsistent(s);
    RacingTakeKeeps(t);
    var v := RacingTake(t);
    OneClose(d);
    assert v.racing == [Closed(d)];
    OtherStepsConsistent(v, EndOpenStep);
    OtherStepsConsistent(EndOpen(v), BeginOpenStep(Video, false));
    var w := BeginOpen(EndOpen(v), Video, false);
    OpenReturnsConsistent(w, 1, "");
    Reopens(v);
    ReopenUnsafe(OpenReturns(w, 1, ""), d);
  }

  /** Opening the id again right after the worker emptied the table. */
  lemma Reopens(v: State)
    requires v.staged == [] && v.batch == [] && v.active == map[] && v.opening == Settled(Video)
    requires !v.reconfiguring && Video !in v.terminal && v.candidates == {}
    ensures var u := OpenReturns(BeginOpen(EndOpen(v), Video, false), 1, "");
            u.racing == v.racing && |u.staged| == 1 && u.staged[0].Opened? && u.staged[0].descriptor.stream == 1
  {
  }

  lemma ReopenUnsafe(u: State, d: Descriptor)
    requires Consistent(u) && u.racing == [Closed(d)] && d.stream == 1
    requires |u.staged| == 1 && u.staged[0].Opened? && u.staged[0].descriptor.stream == 1
    ensures Replay(NoLife, Emitted(EnqueueStaged(u))).None?
  {
    hide Consistent, Replay, EventsOf, Emitted;
    assert u.racing[0].descriptor.stream == 1;
    assert StreamIn(u.racing, 1);
    EnqueueExact(u);
  }

  lemma OneClose(d: Descriptor)
    ensures CloseAll(map[d.stream := d]) == [Closed(d)]
  {
    var streams := map[d.stream := d];
    var ids := Ids(streams);
    hide Ids;
    assert d.stream in streams;
    assert d.stream in ids;
    assert forall i | 0 <= i < |ids| :: ids[i] in ids && ids[i] == d.stream;
    assert ids[0] == ids[|ids| - 1] && |ids| == 1;
    assert Closes(streams, ids, 0) == [];
  }
}

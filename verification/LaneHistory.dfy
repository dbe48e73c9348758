/**
 What becomes of each request of the WebSocket control server: it is refused,
 waits, has been started, or was thrown away by a stop; and a request whose lane
 is free does not wait for a worker that has nothing to do.
 */
module LaneHistory {
  import opened Wrappers
  import DeviceTable
  import opened Routing
  import opened LaneScheduler

  // ------------------------------------------------------------------ conservation

  function Waiting(pending: seq<Task>, arrival: nat): nat {
    if pending == [] then 0
    else
      var n := |pending| - 1;
      Waiting(pending[..n], arrival) + if pending[n].arrival == arrival then 1 else 0
  }

  function Begun(log: seq<Start>, arrival: nat): nat {
    if log == [] then 0
    else
      var n := |log| - 1;
      Begun(log[..n], arrival) + if log[n].task.arrival == arrival then 1 else 0
  }

  lemma {:induction false} WaitingConcat(a: seq<Task>, b: seq<Task>, arrival: nat)
    ensures Waiting(a + b, arrival) == Waiting(a, arrival) + Waiting(b, arrival)
  {
    if b == [] {
      assert a + b == a;
    } else {
      assert (a + b)[..|a + b| - 1] == a + b[..|b| - 1];
      WaitingConcat(a, b[..|b| - 1], arrival);
    }
  }

  lemma WaitingOne(task: Task, arrival: nat)
    ensures Waiting([task], arrival) == if task.arrival == arrival then 1 else 0
  {
    assert [task][..0] == [];
  }

  /** The request is taken on: the server is not stopping and fewer than 256 requests wait. */
  predicate Accepts(s: State, step: Step) {
    step.EnqueueStep? && !s.stopping && |s.pending| < 256
  }

  /** A stop that begins while the request waits throws it away. */
  predicate Discards(s: State, step: Step, arrival: nat) {
    && step.BeginStopStep? && s.stop.None? && (step.caller.Some? ==> step.caller.value in s.running)
    && Waiting(s.pending, arrival) > 0
  }

  predicate Discarded(s: State, steps: seq<Step>, arrival: nat)
    decreases |steps|
  {
    steps != [] &&
    var n := |steps| - 1;
    Discarded(s, steps[..n], arrival) || Discards(Execute(s, steps[..n]), steps[n], arrival)
  }

  function Accepted(s: State, steps: seq<Step>): nat
    decreases |steps|
  {
    if steps == [] then 0
    else
      var n := |steps| - 1;
      Accepted(s, steps[..n]) + if Accepts(Execute(s, steps[..n]), steps[n]) then 1 else 0
  }

  lemma TakeCounts(s: State, worker: nat, arrival: nat)
    ensures var t := Take(s, worker);
            && t.arrivals == s.arrivals
            && Waiting(t.pending, arrival) + Begun(t.log, arrival)
               == Waiting(s.pending, arrival) + Begun(s.log, arrival)
  {
    hide Runnable;
    var t := Take(s, worker);
    if t.log != s.log {
      var i := Runnable(s.pending, s.active).value;
      var task, before, after := s.pending[i], s.pending[..i], s.pending[i + 1..];
      assert s.pending == before + ([task] + after);
      WaitingConcat(before, [task] + after, arrival);
      WaitingConcat([task], after, arrival);
      WaitingConcat(before, after, arrival);
      WaitingOne(task, arrival);
      assert t.log[..|s.log|] == s.log;
    }
  }

  lemma StepCounts(s: State, step: Step, arrival: nat)
    requires Waiting(s.pending, arrival) <= 1
    ensures var t := Apply(s, step);
            && t.arrivals == s.arrivals + (if Accepts(s, step) then 1 else 0)
            && Waiting(t.pending, arrival) + Begun(t.log, arrival) + (if Discards(s, step, arrival) then 1 else 0)
               == Waiting(s.pending, arrival) + Begun(s.log, arrival)
                  + (if Accepts(s, step) && arrival == s.arrivals then 1 else 0)
  {
    hide Waiting, Begun, LaneOf, Take;
    match step
    case EnqueueStep(request) =>
      var task := Task(s.arrivals, request, LaneOf(s.table, request));
      WaitingConcat(s.pending, [task], arrival);
      WaitingOne(task, arrival);
    case TakeStep(worker) => TakeCounts(s, worker, arrival);
    case BeginStopStep(caller) => NothingWaits(arrival);
    case _ =>
  }

  lemma NothingWaits(arrival: nat)
    ensures Waiting([], arrival) == 0 && Begun([], arrival) == 0
  {
  }

  /**
   On every run, however it is stopped: requests are numbered as they are taken on,
   and each is waiting or was started, once, if and only if no stop threw it away.
   */
  lemma {:induction false} EveryRequestAccounted(table: seq<DeviceTable.Device>, steps: seq<Step>, arrival: nat)
    ensures var s := Execute(Initial(table), steps);
            && s.arrivals == Accepted(Initial(table), steps)
            && (Discarded(Initial(table), steps, arrival) ==> arrival < s.arrivals)
            && Waiting(s.pending, arrival) + Begun(s.log, arrival)
               == if arrival < s.arrivals && !Discarded(Initial(table), steps, arrival) then 1 else 0
    decreases |steps|
  {
    hide Apply, Waiting, Begun, Accepts, Discards;
    if steps == [] {
      NothingWaits(arrival);
    } else {
      var n := |steps| - 1;
      EveryRequestAccounted(table, steps[..n], arrival);
      StepCounts(Execute(Initial(table), steps[..n]), steps[n], arrival);
      OneOrTheOther(Execute(Initial(table), steps[..n]), steps[n], arrival);
    }
  }

  lemma OneOrTheOther(s: State, step: Step, arrival: nat)
    ensures !(Accepts(s, step) && Discards(s, step, arrival))
    ensures Discards(s, step, arrival) ==> Waiting(s.pending, arrival) > 0
  {
  }

  // ---------------------------------------------------------------------- progress

  /** No running request is in this lane. */
  predicate LaneFree(s: State, lane: string) {
    forall w | w in s.running :: s.running[w].lane != lane
  }

  /** An idle worker starts the earliest waiting request whose lane no running request is in, if there is one. */
  lemma FreeLaneStarts(s: State, worker: nat, i: nat)
    requires Sound(s) && worker in s.idle && i < |s.pending| && LaneFree(s, s.pending[i].lane)
    requires forall k | 0 <= k < i :: !LaneFree(s, s.pending[k].lane)
    ensures var t := Take(s, worker);
            && t.running == s.running[worker := s.pending[i]] && worker !in t.idle
            && t.pending == s.pending[..i] + s.pending[i + 1..]
  {
    hide LanesExclusive, WorkersFit, LanesFit, QueueInOrder, LogInOrder, LogBeforeQueue, Runnable;
    forall k | 0 <= k < |s.pending| ensures s.pending[k].lane !in s.active <==> LaneFree(s, s.pending[k].lane) {
      LaneFreeExact(s, s.pending[k].lane);
    }
    StoppingIsEmpty(s);
  }

  lemma LaneFreeExact(s: State, lane: string)
    requires ActiveExact(s)
    ensures lane !in s.active <==> LaneFree(s, lane)
  {
  }

  lemma StoppingIsEmpty(s: State)
    requires Sound(s)
    ensures s.stopping ==> s.pending == []
  {
    hide LanesExclusive, ActiveExact, LanesFit, QueueInOrder, LogInOrder, LogBeforeQueue;
  }

  /** A worker that finishes leaves its lane free and is ready for the next request. */
  lemma FinishFrees(s: State, worker: nat)
    requires Sound(s) && worker in s.running && !(s.stop.Some? && s.stop.value.caller == Some(worker))
    ensures var t := Finish(s, worker);
            && t.running == s.running - {worker} && worker in t.idle && t.pending == s.pending
            && LaneFree(t, s.running[worker].lane) && s.running[worker].lane !in t.active
  {
    hide WorkersFit, LanesFit, QueueInOrder, LogInOrder, LogBeforeQueue, ActiveExact;
  }
}

/**
 The worker pool of the WebSocket control server: a bounded queue of requests,
 each in the lane of the device it is for, and workers that take the first
 request whose lane is free. A step is one region under the queue mutex, or one
 worker finishing its request. The device table does not change during a run.
 */
module LaneScheduler {
  import opened Wrappers
  import DeviceTable
  import opened Routing

  const MAX_PENDING: nat := 256
  const WORKER_COUNT: nat := 4

  /** `request` is None when the message is malformed; it still gets an answer. */
  datatype Task = Task(arrival: nat, request: Option<Command>, lane: string)

  /** A start of a request: the requests it overtook and the lanes that were busy then. */
  datatype Start = Start(task: Task, overtaken: seq<Task>, busy: set<string>)

  /** A stop under way: who called it and which workers it still waits for. */
  datatype Stop = Stop(caller: Option<nat>, awaiting: set<nat>)

  datatype State = State(
    table: seq<DeviceTable.Device>,
    pending: seq<Task>,
    active: set<string>,
    running: map<nat, Task>,
    idle: set<nat>,
    owned: set<nat>,
    stopping: bool,
    stop: Option<Stop>,
    nextWorker: nat,
    arrivals: nat,
    log: seq<Start>)

  function Initial(table: seq<DeviceTable.Device>): State {
    State(table, [], {}, map[], {}, {}, false, None, 0, 0, [])
  }

  function LaneOf(table: seq<DeviceTable.Device>, request: Option<Command>): string {
    match request
    case None => "control-plane"
    case Some(c) => RouteKey(table, c)
  }

  function Enqueue(s: State, request: Option<Command>): State {
    if s.stopping || |s.pending| >= MAX_PENDING then s
    else s.(pending := s.pending + [Task(s.arrivals, request, LaneOf(s.table, request))], arrivals := s.arrivals + 1)
  }

  /** The first pending request whose lane is free. */
  function Runnable(pending: seq<Task>, active: set<string>): (at: Option<nat>)
    ensures at.Some? ==> at.value < |pending| && pending[at.value].lane !in active
    ensures at.Some? ==> forall i | 0 <= i < at.value :: pending[i].lane in active
    ensures at.None? ==> forall i | 0 <= i < |pending| :: pending[i].lane in active
  {
    if pending == [] then None
    else
      var n := |pending| - 1;
      var at := Runnable(pending[..n], active);
      if at.Some? then at else if pending[n].lane !in active then Some(n) else None
  }

  function Take(s: State, worker: nat): State {
    if worker !in s.idle then s
    else if s.stopping && s.pending == [] then s.(idle := s.idle - {worker})
    else
      var at := Runnable(s.pending, s.active);
      if at.None? then s
      else
        var i := at.value;
        var task := s.pending[i];
        s.(pending := s.pending[..i] + s.pending[i + 1..], active := s.active + {task.lane},
           running := s.running[worker := task], idle := s.idle - {worker},
           log := s.log + [Start(task, s.pending[..i], s.active)])
  }

  /** A worker answers its request and frees the lane, unless it is inside its own stop call. */
  function Finish(s: State, worker: nat): State {
    if worker !in s.running || (s.stop.Some? && s.stop.value.caller == Some(worker)) then s
    else s.(running := s.running - {worker}, active := s.active - {s.running[worker].lane}, idle := s.idle + {worker})
  }

  function BeginStop(s: State, caller: Option<nat>): State {
    if s.stop.Some? || (caller.Some? && caller.value !in s.running) then s
    else
      s.(stopping := true, pending := [], owned := {},
         stop := Some(Stop(caller, if caller.Some? then s.owned - {caller.value} else s.owned)))
  }

  predicate StopReady(s: State) {
    s.stop.Some? && s.stop.value.awaiting !! (s.idle + s.running.Keys)
  }

  function EndStop(s: State): State {
    if StopReady(s) then s.(active := {}, stop := None) else s
  }

  function NewWorkers(from: nat): set<nat> {
    {from, from + 1, from + 2, from + 3}
  }

  function StartWorkers(s: State): State {
    if s.stop.Some? || s.owned != {} then s
    else
      s.(stopping := false, owned := NewWorkers(s.nextWorker), idle := s.idle + NewWorkers(s.nextWorker),
         nextWorker := s.nextWorker + WORKER_COUNT)
  }

  datatype Step =
    | EnqueueStep(request: Option<Command>)
    | TakeStep(worker: nat)
    | FinishStep(worker: nat)
    | BeginStopStep(caller: Option<nat>)
    | EndStopStep
    | StartWorkersStep

  function Apply(s: State, step: Step): State {
    match step
    case EnqueueStep(r) => Enqueue(s, r)
    case TakeStep(w) => Take(s, w)
    case FinishStep(w) => Finish(s, w)
    case BeginStopStep(caller) => BeginStop(s, caller)
    case EndStopStep => EndStop(s)
    case StartWorkersStep => StartWorkers(s)
  }

  function Execute(s: State, steps: seq<Step>): State
    decreases |steps|
  {
    if steps == [] then s else Apply(Execute(s, steps[..|steps| - 1]), steps[|steps| - 1])
  }

  // ------------------------------------------------------------------ invariant

  /** No two workers run requests of one lane. */
  predicate LanesExclusive(s: State) {
    forall v, w | v in s.running && w in s.running && v != w :: s.running[v].lane != s.running[w].lane
  }

  predicate ActiveExact(s: State) {
    s.active == set w | w in s.running :: s.running[w].lane
  }

  predicate WorkersFit(s: State) {
    && s.idle !! s.running.Keys
    && (forall w | w in s.idle + s.running.Keys :: w < s.nextWorker)
    && (s.stop.Some? ==> s.owned == {} && s.stopping)
    && (s.stopping ==> s.pending == [])
    && s.idle + s.running.Keys
       <= s.owned + (if s.stop.Some? then s.stop.value.awaiting + CallerOf(s.stop.value) else {})
    && (s.stop.Some? ==> CallerOf(s.stop.value) <= s.running.Keys)
  }

  function CallerOf(stop: Stop): set<nat> {
    if stop.caller.Some? then {stop.caller.value} else {}
  }

  predicate InLane(table: seq<DeviceTable.Device>, task: Task) {
    task.lane == LaneOf(table, task.request)
  }

  predicate LanesFit(s: State) {
    && (forall i | 0 <= i < |s.pending| :: InLane(s.table, s.pending[i]))
    && (forall w | w in s.running :: InLane(s.table, s.running[w]))
  }

  predicate QueueInOrder(s: State) {
    && |s.pending| <= MAX_PENDING
    && (forall i | 0 <= i < |s.pending| :: s.pending[i].arrival < s.arrivals)
    && (forall i, j | 0 <= i < j < |s.pending| :: s.pending[i].arrival < s.pending[j].arrival)
  }

  /** Requests of one lane start in arrival order, and only a busy lane is overtaken. */
  predicate LogInOrder(log: seq<Start>) {
    && (forall i, j | 0 <= i < j < |log| && log[i].task.lane == log[j].task.lane ::
          log[i].task.arrival < log[j].task.arrival)
    && (forall i, k | 0 <= i < |log| && 0 <= k < |log[i].overtaken| :: log[i].overtaken[k].lane in log[i].busy)
  }

  /** What started before in a lane arrived before what waits in it. */
  predicate LogBeforeQueue(s: State) {
    && (forall i | 0 <= i < |s.log| :: s.log[i].task.arrival < s.arrivals)
    && (forall i, k | 0 <= i < |s.log| && 0 <= k < |s.pending| && s.log[i].task.lane == s.pending[k].lane ::
          s.log[i].task.arrival < s.pending[k].arrival)
  }

  predicate Sound(s: State) {
    && LanesExclusive(s) && ActiveExact(s) && WorkersFit(s) && LanesFit(s)
    && QueueInOrder(s) && LogInOrder(s.log) && LogBeforeQueue(s)
  }

  lemma EnqueueSound(s: State, request: Option<Command>)
    requires Sound(s)
    ensures Sound(Enqueue(s, request))
  {
    hide LaneOf;
  }

  lemma TakeSound(s: State, worker: nat)
    requires Sound(s)
    ensures Sound(Take(s, worker))
  {
    hide LaneOf, InLane, Runnable;
    var t := Take(s, worker);
    if worker in s.idle && !(s.stopping && s.pending == []) && Runnable(s.pending, s.active).Some? {
      var i := Runnable(s.pending, s.active).value;
      assert forall k | 0 <= k < |t.pending| :: t.pending[k] == s.pending[if k < i then k else k + 1];
      TakeWorkers(s, worker);
      TakeLog(s, worker);
    }
  }

  lemma TakeWorkers(s: State, worker: nat)
    requires Sound(s)
    ensures var t := Take(s, worker); LanesExclusive(t) && ActiveExact(t) && WorkersFit(t)
  {
    hide LaneOf, InLane, Runnable, LanesFit, QueueInOrder, LogInOrder, LogBeforeQueue;
    var t := Take(s, worker);
    if t.log != s.log {
      var task := s.pending[Runnable(s.pending, s.active).value];
      assert t.running == s.running[worker := task] && worker !in s.running;
      OneMoreRunning(s.running, worker, task, s.active);
    }
  }

  lemma OneMoreRunning(running: map<nat, Task>, worker: nat, task: Task, active: set<string>)
    requires worker !in running && active == set w | w in running :: running[w].lane
    ensures var more := running[worker := task]; active + {task.lane} == set w | w in more :: more[w].lane
    ensures forall w | w in running :: running[w].lane in active
  {
    var more := running[worker := task];
    assert worker in more;
    forall w | w in running ensures running[w].lane in (set v | v in more :: more[v].lane) {
      assert w in more && more[w] == running[w];
    }
  }

  lemma TakeLog(s: State, worker: nat)
    requires Sound(s)
    ensures var t := Take(s, worker); LogInOrder(t.log) && LogBeforeQueue(t)
  {
    hide LaneOf, InLane, Runnable, LanesFit, ActiveExact, LanesExclusive, WorkersFit;
    var t := Take(s, worker);
    if t.log != s.log {
      var i := Runnable(s.pending, s.active).value;
      assert forall k | 0 <= k < |t.pending| :: t.pending[k] == s.pending[if k < i then k else k + 1];
      forall k | 0 <= k < |t.pending| && t.pending[k].lane == s.pending[i].lane
        ensures s.pending[i].arrival < t.pending[k].arrival
      {
        assert k >= i;
      }
    }
  }

  lemma FinishSound(s: State, worker: nat)
    requires Sound(s)
    ensures Sound(Finish(s, worker))
  {
    hide LaneOf, InLane;
    var t := Finish(s, worker);
    if t != s {
      forall lane | lane in t.active ensures exists w :: w in t.running && t.running[w].lane == lane {
        var w :| w in s.running && s.running[w].lane == lane;
        assert w in t.running;
      }
    }
  }

  lemma StopSound(s: State, caller: Option<nat>)
    requires Sound(s)
    ensures Sound(BeginStop(s, caller))
    ensures s.stop.Some? && s.stop.value.caller.None? ==> Sound(EndStop(s))
    ensures Sound(StartWorkers(s))
  {
    hide LaneOf, InLane;
    if StopReady(s) && s.stop.value.caller.None? {
      assert s.running.Keys == {};
    }
  }

  lemma ApplySound(s: State, step: Step)
    requires Sound(s)
    requires step.EndStopStep? && StopReady(s) ==> s.stop.value.caller.None?
    ensures Sound(Apply(s, step))
  {
    hide Sound, Enqueue, Take, Finish, BeginStop, EndStop, StartWorkers;
    match step
    case EnqueueStep(r) => EnqueueSound(s, r);
    case TakeStep(w) => TakeSound(s, w);
    case FinishStep(w) => FinishSound(s, w);
    case BeginStopStep(caller) => StopSound(s, caller);
    case EndStopStep =>
      if StopReady(s) {
        StopSound(s, None);
      } else {
        NotReady(s);
      }
    case StartWorkersStep => StopSound(s, None);
  }

  lemma NotReady(s: State)
    requires !StopReady(s)
    ensures EndStop(s) == s
  {
  }

  /** No worker stops the server from inside a request. */
  predicate StoppedFromOutside(steps: seq<Step>) {
    forall i | 0 <= i < |steps| && steps[i].BeginStopStep? :: steps[i].caller.None?
  }

  predicate OutsideStop(s: State) {
    s.stop.Some? ==> s.stop.value.caller.None?
  }

  lemma {:induction false} ExecuteSound(s: State, steps: seq<Step>)
    requires Sound(s) && OutsideStop(s) && StoppedFromOutside(steps)
    ensures Sound(Execute(s, steps)) && OutsideStop(Execute(s, steps)) && Execute(s, steps).table == s.table
    decreases |steps|
  {
    hide Sound;
    if steps != [] {
      var n := |steps| - 1;
      ExecuteSound(s, steps[..n]);
      ApplySound(Execute(s, steps[..n]), steps[n]);
      assert steps[n].BeginStopStep? ==> steps[n].caller.None?;
    }
  }

  // ------------------------------------------------------------------- theorems

  /** The device a request runs on. */
  function DeviceOf(table: seq<DeviceTable.Device>, task: Task): Option<DeviceTable.Key> {
    if task.request.None? then None else PhysicalDevice(table, task.request.value)
  }

  /**
   On every run: no two workers run requests for one physical device, whichever
   alias named it; requests of one lane start in arrival order; a request is
   overtaken only while its lane is busy; the backlog is bounded.
   */
  lemma EveryRunIsSerial(table: seq<DeviceTable.Device>, steps: seq<Step>)
    requires StoppedFromOutside(steps)
    ensures var s := Execute(Initial(table), steps);
            && (forall v, w | v in s.running && w in s.running && v != w && DeviceOf(table, s.running[v]).Some? ::
                  DeviceOf(table, s.running[v]) != DeviceOf(table, s.running[w]))
            && LogInOrder(s.log) && |s.pending| <= MAX_PENDING
  {
    InitialSound(table);
    ExecuteSound(Initial(table), steps);
    hide Execute, LogInOrder, LogBeforeQueue, StoppedFromOutside, RouteKey, PhysicalDevice;
    var s := Execute(Initial(table), steps);
    forall v, w | v in s.running && w in s.running && v != w && DeviceOf(table, s.running[v]).Some?
      ensures DeviceOf(table, s.running[v]) != DeviceOf(table, s.running[w])
    {
      if DeviceOf(table, s.running[v]) == DeviceOf(table, s.running[w]) {
        SameDeviceSameLane(table, s.running[v].request.value, s.running[w].request.value);
      }
    }
  }

  lemma InitialSound(table: seq<DeviceTable.Device>)
    ensures Sound(Initial(table)) && OutsideStop(Initial(table))
  {
  }

  /** Whatever happens next, short of a stop from inside, lanes stay exclusive. */
  ghost predicate SafeFrom(s: State) {
    forall steps | StoppedFromOutside(steps) :: LanesExclusive(Execute(s, steps))
  }

  lemma SoundIsSafe(s: State)
    requires Sound(s) && OutsideStop(s)
    ensures SafeFrom(s)
  {
    forall steps | StoppedFromOutside(steps) ensures LanesExclusive(Execute(s, steps)) {
      hide Execute, StoppedFromOutside;
      ExecuteSound(s, steps);
    }
  }

  /** A stop called by a worker forgets the lane that worker is still in. */
  lemma SelfStopBreaks(s: State)
    requires Sound(s) && StopReady(s) && s.stop.value.caller.Some?
    ensures !SafeFrom(EndStop(s))
  {
    hide LogInOrder, LogBeforeQueue, QueueInOrder, LanesFit, Runnable, LaneOf, SafeFrom;
    var worker := s.stop.value.caller.value;
    assert worker in s.running;
    var t, task := EndStop(s), s.running[worker];
    assert InLane(s.table, task) by { WorkerInLane(s, worker); }
    var a, b, c := StartWorkersStep, EnqueueStep(task.request), TakeStep(s.nextWorker);
    var steps := [a] + [b] + [c];
    ExecuteThree(t, a, b, c);
    var u := StartWorkers(t);
    var v := Enqueue(u, task.request);
    assert v.pending == [Task(s.arrivals, task.request, task.lane)];
    var w := Take(v, s.nextWorker);
    assert v.pending[..0] == [];
    FirstRunnable(v.pending, v.active, 0);
    assert w.running == t.running[s.nextWorker := v.pending[0]];
    assert w.running[worker].lane == w.running[s.nextWorker].lane;
    assert !LanesExclusive(Execute(t, steps));
    Unsafe(t, steps);
  }

  lemma WorkerInLane(s: State, worker: nat)
    requires LanesFit(s) && worker in s.running
    ensures InLane(s.table, s.running[worker])
  {
  }

  lemma Unsafe(s: State, steps: seq<Step>)
    requires StoppedFromOutside(steps) && !LanesExclusive(Execute(s, steps))
    ensures !SafeFrom(s)
  {
  }

  lemma ExecuteThree(s: State, a: Step, b: Step, c: Step)
    ensures Execute(s, [a] + [b] + [c]) == Apply(Apply(Apply(s, a), b), c)
  {
    hide Apply;
    assert [a][..0] == [];
    assert Execute(s, [a]) == Apply(s, a);
    assert ([a] + [b])[..1] == [a];
    assert Execute(s, [a] + [b]) == Apply(Execute(s, [a]), b);
    assert ([a] + [b] + [c])[..2] == [a] + [b];
  }

  /** The end of a stop keeps lanes exclusive on every continuation exactly when no worker called it. */
  lemma StopExact(s: State)
    requires Sound(s) && StopReady(s)
    ensures SafeFrom(EndStop(s)) <==> s.stop.value.caller.None?
  {
    hide Sound, SafeFrom;
    if s.stop.value.caller.None? {
      StopSound(s, None);
      SoundIsSafe(EndStop(s));
    } else {
      SelfStopBreaks(s);
    }
  }

  /** A request that stops the server from inside, up to the moment the stop can end. */
  function SelfStopRun(): seq<Step> {
    [StartWorkersStep, EnqueueStep(None), TakeStep(0), BeginStopStep(Some(0)), TakeStep(1), TakeStep(2), TakeStep(3)]
  }

  lemma ExecuteSnoc(s: State, steps: seq<Step>, n: nat)
    requires n < |steps|
    ensures Execute(s, steps[..n + 1]) == Apply(Execute(s, steps[..n]), steps[n])
  {
    hide Apply;
    assert steps[..n + 1][..n] == steps[..n];
  }

  lemma ExecuteNone(s: State)
    ensures Execute(s, []) == s
  {
  }

  lemma {:induction false} SoundBeforeEnd(s: State, steps: seq<Step>)
    requires Sound(s) && forall i | 0 <= i < |steps| :: !steps[i].EndStopStep?
    ensures Sound(Execute(s, steps))
    decreases |steps|
  {
    hide Sound, Apply;
    if steps != [] {
      SoundBeforeEnd(s, steps[..|steps| - 1]);
      ApplySound(Execute(s, steps[..|steps| - 1]), steps[|steps| - 1]);
    }
  }

  /** The failure is reachable: worker 0 stops the server, the other workers leave, and lanes are no longer safe. */
  lemma SelfStopReachable(table: seq<DeviceTable.Device>)
    ensures var s := Execute(Initial(table), SelfStopRun());
            && Sound(s) && StopReady(s) && s.stop.value.caller == Some(0)
            && !SafeFrom(EndStop(s))
  {
    hide Sound, SafeFrom, Execute, Runnable;
    var steps, s0 := SelfStopRun(), Initial(table);
    InitialSound(table);
    SoundBeforeEnd(s0, steps);
    assert steps[..0] == [] && steps[..7] == steps;
    FirstFour(table);
    ExecuteSnoc(s0, steps, 4);
    ExecuteSnoc(s0, steps, 5);
    ExecuteSnoc(s0, steps, 6);
    SelfStopBreaks(Execute(s0, steps));
  }

  lemma FirstTwo(table: seq<DeviceTable.Device>)
    ensures var s := Apply(Apply(Initial(table), StartWorkersStep), EnqueueStep(None));
            && s.pending == [Task(0, None, "control-plane")] && s.active == {} && s.running == map[]
            && s.idle == {0, 1, 2, 3} && s.owned == {0, 1, 2, 3} && s.stop.None? && !s.stopping
  {
    assert NewWorkers(0) == {0, 1, 2, 3};
  }

  lemma TakeThenStop(s: State)
    requires |s.pending| == 1 && s.active == {} && s.running == map[] && s.stop.None? && !s.stopping
    requires s.idle == {0, 1, 2, 3} && s.owned == {0, 1, 2, 3}
    ensures var t := Apply(Apply(s, TakeStep(0)), BeginStopStep(Some(0)));
            && t.stop == Some(Stop(Some(0), {1, 2, 3})) && t.stopping && t.pending == []
            && t.idle == {1, 2, 3} && t.running.Keys == {0}
  {
    hide Runnable;
    assert s.pending[..0] == [];
    FirstRunnable(s.pending, s.active, 0);
    assert {0, 1, 2, 3} - {0} == {1, 2, 3};
  }

  lemma FirstFour(table: seq<DeviceTable.Device>)
    ensures var s := Execute(Initial(table), SelfStopRun()[..4]);
            && s.stop == Some(Stop(Some(0), {1, 2, 3})) && s.stopping && s.pending == []
            && s.idle == {1, 2, 3} && s.running.Keys == {0}
  {
    hide Apply, Execute, Initial;
    var steps, s0 := SelfStopRun(), Initial(table);
    assert steps[..0] == [];
    ExecuteNone(s0);
    ExecuteSnoc(s0, steps, 0);
    ExecuteSnoc(s0, steps, 1);
    ExecuteSnoc(s0, steps, 2);
    ExecuteSnoc(s0, steps, 3);
    FirstTwo(table);
    TakeThenStop(Execute(s0, steps[..2]));
  }

  // ------------------------------------------------------------------ the object

  class Lanes {
    var pending: seq<Task>
    var active: set<string>
    var stopping: bool
    var arrivals: nat

    constructor ()
      ensures pending == [] && active == {} && !stopping && arrivals == 0
    {
      pending, active, stopping, arrivals := [], {}, false, 0;
    }

    method EnqueueRequest(request: Option<Command>, lane: string) returns (accepted: bool)
      modifies this
      ensures accepted == (!old(stopping) && |old(pending)| < MAX_PENDING)
      ensures pending == if accepted then old(pending) + [Task(old(arrivals), request, lane)] else old(pending)
      ensures arrivals == old(arrivals) + (if accepted then 1 else 0)
      ensures active == old(active) && stopping == old(stopping)
    {
      if stopping || |pending| >= MAX_PENDING {
        return false;
      }
      pending := pending + [Task(arrivals, request, lane)];
      arrivals := arrivals + 1;
      return true;
    }

    /** Takes the first request whose lane is free and marks that lane busy. */
    method TakeRequest() returns (task: Option<Task>)
      modifies this
      ensures var at := Runnable(old(pending), old(active));
              if at.None? then task.None? && pending == old(pending) && active == old(active)
              else
                && task == Some(old(pending)[at.value])
                && pending == old(pending)[..at.value] + old(pending)[at.value + 1..]
                && active == old(active) + {task.value.lane}
      ensures stopping == old(stopping) && arrivals == old(arrivals)
    {
      for i := 0 to |pending|
        invariant Runnable(pending[..i], active).None?
        invariant unchanged(this)
      {
        assert pending[..i + 1][..i] == pending[..i];
        if pending[i].lane !in active {
          FirstRunnable(pending, active, i);
          task := Some(pending[i]);
          active := active + {pending[i].lane};
          pending := pending[..i] + pending[i + 1..];
          return;
        }
      }
      assert pending[..|pending|] == pending;
      return None;
    }

    method ReleaseRoute(lane: string)
      modifies this
      ensures active == old(active) - {lane}
      ensures pending == old(pending) && stopping == old(stopping) && arrivals == old(arrivals)
    {
      active := active - {lane};
    }
  }

  lemma FirstRunnable(pending: seq<Task>, active: set<string>, i: nat)
    requires i < |pending| && pending[i].lane !in active && Runnable(pending[..i], active).None?
    ensures Runnable(pending, active) == Some(i)
  {
    assert forall j | 0 <= j < i :: pending[j] == pending[..i][j];
  }
}

/**
 Control calls waiting for the AXTP pump: a queue and one slot in flight, at most
 32 together. Calls are removed from the queue under the lock and completed
 after it is released; in between they sit in `batch`. Steps are the locked
 regions of submitters, the pump, cancelling threads and resets.
 */
module ControlQueue {
  import opened Wrappers

  const LIMIT: nat := 32

  /** `generation` is the physical session a call was dispatched in, 0 before that. */
  datatype Call = Call(device: string, deadline: nat, recovery: nat, generation: nat)

  datatype Phase = Taken | Started | Settled

  datatype Slot = Empty | InFlight(id: nat, phase: Phase)

  /** Accepted calls are numbered in submission order. */
  datatype State = State(
    calls: seq<Call>,
    done: set<nat>,
    pending: seq<nat>,
    slot: Slot,
    batch: seq<nat>,
    unlinking: seq<nat>,
    started: seq<nat>,
    accepting: bool,
    recovery: nat)

  const Initial := State([], {}, [], Empty, [], [], [], true, 0)

  function Outstanding(s: State): nat {
    |s.pending| + if s.slot.InFlight? then 1 else 0
  }

  // ---------------------------------------------------------------------- steps

  datatype Submission = Accepted | TooLate | Stopping | SessionChanged | QueueFull

  function CheckSubmit(s: State, deadline: nat, acceptedAt: nat, recovery: nat): Submission {
    if deadline <= acceptedAt then TooLate
    else if !s.accepting then Stopping
    else if recovery != s.recovery then SessionChanged
    else if Outstanding(s) >= LIMIT then QueueFull
    else Accepted
  }

  /** `acceptedAt` and `recovery` were read before the lock was taken. */
  function Submit(s: State, device: string, deadline: nat, acceptedAt: nat, recovery: nat): State {
    if CheckSubmit(s, deadline, acceptedAt, recovery) != Accepted then s
    else s.(calls := s.calls + [Call(device, deadline, recovery, 0)], pending := s.pending + [|s.calls|])
  }

  function Kept(ids: seq<nat>, keep: nat -> bool): seq<nat> {
    if ids == [] then []
    else
      var n := |ids| - 1;
      Kept(ids[..n], keep) + (if keep(ids[n]) then [ids[n]] else [])
  }

  /** The caller cancels an operation: its result is set now, its queue entry goes later. */
  function CancelOperation(s: State, id: nat): State {
    if id >= |s.calls| || id in s.done then s else s.(done := s.done + {id}, unlinking := s.unlinking + [id])
  }

  function Unlink(s: State): State {
    if s.unlinking == [] then s
    else s.(unlinking := s.unlinking[1..], pending := Kept(s.pending, OtherThan(s.unlinking[0])))
  }

  function OtherThan(gone: nat): nat -> bool {
    (id: nat) => id != gone
  }

  /** How many entries at the front are already completed. */
  function DoneAhead(pending: seq<nat>, done: set<nat>): (k: nat)
    ensures k <= |pending| && (k < |pending| ==> pending[k] !in done)
    ensures forall i | 0 <= i < k :: pending[i] in done
  {
    if pending == [] || pending[0] !in done then 0 else 1 + DoneAhead(pending[1..], done)
  }

  function TakeNext(s: State): State {
    if s.slot.InFlight? then s
    else
      var k := DoneAhead(s.pending, s.done);
      if k == |s.pending| then s.(pending := [])
      else s.(pending := s.pending[k + 1..], slot := InFlight(s.pending[k], Taken))
  }

  /** Refuses the taken call, or marks it with the session's generation and sends it. */
  function Dispatch(s: State, device: string, sessionOpen: bool, clientOpen: bool, now: nat, generation: nat): State {
    if !s.slot.InFlight? || s.slot.phase != Taken || s.slot.id >= |s.calls| then s
    else
      var id := s.slot.id;
      var call := s.calls[id];
      if call.recovery != s.recovery || call.device != device || !sessionOpen || now >= call.deadline || !clientOpen
      then s.(done := s.done + {id}, slot := InFlight(id, Settled))
      else s.(calls := s.calls[id := call.(generation := generation)], slot := InFlight(id, Started),
              started := s.started + [id])
  }

  /** The peer answered, failed or timed out. */
  function Answer(s: State): State {
    if !s.slot.InFlight? || s.slot.phase != Started then s
    else s.(done := s.done + {s.slot.id}, slot := InFlight(s.slot.id, Settled))
  }

  function ClearSlot(s: State): State {
    if s.slot.InFlight? && s.slot.phase == Settled then s.(slot := Empty) else s
  }

  /** Not completed, and its deadline is ahead. */
  function Waits(s: State, now: nat): nat -> bool {
    (id: nat) => id !in s.done && id < |s.calls| && now < s.calls[id].deadline
  }

  function Overdue(s: State, now: nat): nat -> bool {
    (id: nat) => id !in s.done && !(id < |s.calls| && now < s.calls[id].deadline)
  }

  function Expire(s: State, now: nat): State {
    s.(pending := Kept(s.pending, Waits(s, now)), batch := s.batch + Kept(s.pending, Overdue(s, now)))
  }

  predicate Matches(calls: seq<Call>, device: Option<string>, generation: Option<nat>, id: nat) {
    && id < |calls|
    && (device.Some? ==> calls[id].device == device.value)
    && (generation.Some? ==> calls[id].generation == generation.value)
  }

  function Matching(calls: seq<Call>, device: Option<string>, generation: Option<nat>, yes: bool): nat -> bool {
    (id: nat) => Matches(calls, device, generation, id) == yes
  }

  function CancelCalls(s: State, device: Option<string>, generation: Option<nat>): State {
    s.(pending := Kept(s.pending, Matching(s.calls, device, generation, false)),
       batch := s.batch + Kept(s.pending, Matching(s.calls, device, generation, true))
                + (if s.slot.InFlight? && Matches(s.calls, device, generation, s.slot.id) then [s.slot.id] else []))
  }

  /** A thread completes one of the calls it removed. */
  function CompleteRemoved(s: State, i: nat): State {
    if i >= |s.batch| then s
    else s.(batch := s.batch[..i] + s.batch[i + 1..], done := s.done + {s.batch[i]})
  }

  datatype Step =
    | SubmitStep(device: string, deadline: nat, acceptedAt: nat, recovery: nat)
    | CancelOperationStep(id: nat)
    | UnlinkStep
    | TakeNextStep
    | DispatchStep(device_: string, sessionOpen: bool, clientOpen: bool, now: nat, generation: nat)
    | AnswerStep
    | ClearSlotStep
    | ExpireStep(now_: nat)
    | CancelCallsStep(matchDevice: Option<string>, matchGeneration: Option<nat>)
    | CompleteRemovedStep(i: nat)
    | StopAcceptingStep
    | RecoverStep

  function Apply(s: State, step: Step): State {
    match step
    case SubmitStep(d, deadline, at, r) => Submit(s, d, deadline, at, r)
    case CancelOperationStep(id) => CancelOperation(s, id)
    case UnlinkStep => Unlink(s)
    case TakeNextStep => TakeNext(s)
    case DispatchStep(d, session, client, now, g) => Dispatch(s, d, session, client, now, g)
    case AnswerStep => Answer(s)
    case ClearSlotStep => ClearSlot(s)
    case ExpireStep(now) => Expire(s, now)
    case CancelCallsStep(d, g) => CancelCalls(s, d, g)
    case CompleteRemovedStep(i) => CompleteRemoved(s, i)
    case StopAcceptingStep => s.(accepting := false)
    case RecoverStep => s.(recovery := s.recovery + 1)
  }

  function Execute(s: State, steps: seq<Step>): State
    decreases |steps|
  {
    if steps == [] then s else Apply(Execute(s, steps[..|steps| - 1]), steps[|steps| - 1])
  }

  // ------------------------------------------------------------------ invariant

  predicate Ascending(ids: seq<nat>) {
    forall i, j | 0 <= i < j < |ids| :: ids[i] < ids[j]
  }

  predicate InOrder(s: State) {
    && Ascending(s.pending) && Ascending(s.started)
    && (forall i | 0 <= i < |s.pending| :: s.pending[i] < |s.calls|)
    && (forall i, j | 0 <= i < |s.started| && 0 <= j < |s.pending| :: s.started[i] < s.pending[j])
    && (forall i | 0 <= i < |s.started| :: s.started[i] < |s.calls|)
    && (s.slot.InFlight? ==>
          && s.slot.id < |s.calls|
          && (forall i | 0 <= i < |s.pending| :: s.slot.id < s.pending[i])
          && (forall i | 0 <= i < |s.started| ::
                 s.started[i] <= s.slot.id && (s.slot.phase == Taken ==> s.started[i] < s.slot.id))
          && (s.slot.phase == Settled ==> s.slot.id in s.done))
  }

  predicate Holds(slot: Slot, id: nat) {
    slot.InFlight? && slot.id == id
  }

  /** Every accepted call is completed, queued, in flight or removed and about to be completed. */
  predicate Located(s: State) {
    forall id | 0 <= id < |s.calls| :: id in s.done || id in s.pending || Holds(s.slot, id) || id in s.batch
  }

  /** A call removed from the queue is never in it again. */
  predicate Apart(s: State) {
    forall i | 0 <= i < |s.batch| :: s.batch[i] !in s.pending && s.batch[i] < |s.calls|
  }

  predicate Sound(s: State) {
    InOrder(s) && Located(s) && Apart(s) && Outstanding(s) <= LIMIT
  }

  lemma {:induction false} KeptIs(ids: seq<nat>, keep: nat -> bool)
    ensures forall id :: id in Kept(ids, keep) <==> id in ids && keep(id)
    ensures |Kept(ids, keep)| <= |ids|
    ensures Ascending(ids) ==> Ascending(Kept(ids, keep))
  {
    if ids != [] {
      var n := |ids| - 1;
      KeptIs(ids[..n], keep);
      assert ids == ids[..n] + [ids[n]];
      var kept := Kept(ids[..n], keep);
      assert Ascending(ids) ==> Ascending(ids[..n]) && forall i | 0 <= i < |kept| :: kept[i] in ids[..n];
    }
  }

  /** Fewer queued calls, everything else of the order unchanged. */
  lemma FewerPending(s: State, t: State)
    requires InOrder(s) && Ascending(t.pending)
    requires forall i | 0 <= i < |t.pending| :: t.pending[i] in s.pending
    requires t.calls == s.calls && t.slot == s.slot && t.started == s.started && s.done <= t.done
    ensures InOrder(t)
  {
  }

  lemma ExpireSound(s: State, now: nat)
    requires Sound(s)
    ensures Sound(Expire(s, now))
  {
    hide Kept, InOrder;
    var t, overdue := Expire(s, now), Kept(s.pending, Overdue(s, now));
    KeptIs(s.pending, Waits(s, now));
    KeptIs(s.pending, Overdue(s, now));
    PendingAscending(s);
    FewerPending(s, t);
    PendingInRange(s);
    Relocated(s, t, overdue);
  }

  /** Each queued call stays queued, was completed, or moved to the batch. */
  lemma Relocated(s: State, t: State, moved: seq<nat>)
    requires Located(s) && Apart(s)
    requires t.calls == s.calls && t.slot == s.slot && t.done == s.done && s.batch + moved <= t.batch
    requires forall id | id in s.pending :: id in s.done || id in t.pending || id in moved
    requires forall id | id in t.pending :: id in s.pending && id !in moved
    requires forall i | |s.batch| <= i < |t.batch| :: t.batch[i] !in t.pending && t.batch[i] < |s.calls|
    ensures Located(t) && Apart(t)
  {
    forall id | 0 <= id < |s.calls| ensures id in t.done || id in t.pending || Holds(t.slot, id) || id in t.batch {
      assert id in s.batch + moved ==> id in t.batch;
    }
    forall i | 0 <= i < |t.batch| ensures t.batch[i] !in t.pending && t.batch[i] < |t.calls| {
      if i < |s.batch| {
        assert t.batch[i] == (s.batch + moved)[i] == s.batch[i];
      }
    }
  }

  lemma PendingAscending(s: State)
    requires InOrder(s)
    ensures Ascending(s.pending)
  {
  }

  lemma PendingInRange(s: State)
    requires InOrder(s)
    ensures forall id | id in s.pending :: id < |s.calls|
    ensures s.slot.InFlight? ==> s.slot.id < |s.calls| && s.slot.id !in s.pending
  {
  }

  lemma CancelCallsSound(s: State, device: Option<string>, generation: Option<nat>)
    requires Sound(s)
    ensures Sound(CancelCalls(s, device, generation))
  {
    hide Kept, InOrder, Matches;
    var t := CancelCalls(s, device, generation);
    var hit := Kept(s.pending, Matching(s.calls, device, generation, true));
    KeptIs(s.pending, Matching(s.calls, device, generation, true));
    KeptIs(s.pending, Matching(s.calls, device, generation, false));
    PendingAscending(s);
    FewerPending(s, t);
    PendingInRange(s);
    assert forall i | |s.batch| <= i < |t.batch| :: t.batch[i] in hit || t.batch[i] == s.slot.id;
    Relocated(s, t, hit);
  }

  lemma UnlinkSound(s: State)
    requires Sound(s) && (forall i | 0 <= i < |s.unlinking| :: s.unlinking[i] in s.done)
    ensures Sound(Unlink(s))
  {
    hide Kept, InOrder;
    if s.unlinking != [] {
      KeptIs(s.pending, OtherThan(s.unlinking[0]));
      PendingAscending(s);
      FewerPending(s, Unlink(s));
    }
  }

  lemma TakeNextSound(s: State)
    requires Sound(s)
    ensures Sound(TakeNext(s))
  {
    hide DoneAhead, InOrder;
    TakeNextInOrder(s);
    if s.slot == Empty {
      var k, t := DoneAhead(s.pending, s.done), TakeNext(s);
      assert forall i | 0 <= i < |t.pending| :: t.pending[i] == s.pending[k + 1 + i];
      forall id | id in s.pending ensures id in s.done || id in t.pending || Holds(t.slot, id) {
        var i :| 0 <= i < |s.pending| && s.pending[i] == id;
        assert i > k ==> t.pending[i - k - 1] == id;
      }
    }
  }

  lemma TakeNextInOrder(s: State)
    requires InOrder(s)
    ensures InOrder(TakeNext(s))
  {
    hide DoneAhead;
    if s.slot == Empty {
      var k, t := DoneAhead(s.pending, s.done), TakeNext(s);
      assert forall i | 0 <= i < |t.pending| :: t.pending[i] == s.pending[k + 1 + i];
    }
  }

  lemma CompleteRemovedSound(s: State, i: nat)
    requires Sound(s)
    ensures Sound(CompleteRemoved(s, i))
  {
    if i < |s.batch| {
      var t := CompleteRemoved(s, i);
      assert forall j | 0 <= j < |t.batch| :: t.batch[j] == s.batch[if j < i then j else j + 1];
      forall id | id in s.batch ensures id in t.done || id in t.batch {
        var j :| 0 <= j < |s.batch| && s.batch[j] == id;
        assert j < i ==> t.batch[j] == id;
        assert j > i ==> t.batch[j - 1] == id;
      }
    }
  }

  lemma SubmitSound(s: State, device: string, deadline: nat, acceptedAt: nat, recovery: nat)
    requires Sound(s)
    ensures Sound(Submit(s, device, deadline, acceptedAt, recovery))
  {
  }

  lemma DispatchSound(s: State, device: string, session: bool, client: bool, now: nat, generation: nat)
    requires Sound(s)
    ensures Sound(Dispatch(s, device, session, client, now, generation))
  {
    var t := Dispatch(s, device, session, client, now, generation);
    assert t.pending == s.pending && t.batch == s.batch && |t.calls| == |s.calls|;
  }

  lemma AnswerSound(s: State)
    requires Sound(s)
    ensures Sound(Answer(s)) && Sound(ClearSlot(s))
  {
  }

  predicate Unlinked(s: State) {
    forall i | 0 <= i < |s.unlinking| :: s.unlinking[i] in s.done
  }

  lemma ApplySound(s: State, step: Step)
    requires Sound(s) && Unlinked(s)
    ensures Sound(Apply(s, step)) && Unlinked(Apply(s, step))
  {
    hide Kept, InOrder, Matches, Located, Apart;
    match step
    case SubmitStep(d, deadline, at, r) => SubmitSound(s, d, deadline, at, r);
    case CancelOperationStep(id) => MoreDone(s, CancelOperation(s, id));
    case UnlinkStep => UnlinkSound(s);
    case TakeNextStep => TakeNextSound(s);
    case DispatchStep(d, session, client, now, g) => DispatchSound(s, d, session, client, now, g);
    case AnswerStep => AnswerSound(s);
    case ClearSlotStep => AnswerSound(s);
    case ExpireStep(now) => ExpireSound(s, now);
    case CancelCallsStep(d, g) => CancelCallsSound(s, d, g);
    case CompleteRemovedStep(i) => CompleteRemovedSound(s, i);
    case StopAcceptingStep => MoreDone(s, s.(accepting := false));
    case RecoverStep => MoreDone(s, s.(recovery := s.recovery + 1));
  }

  lemma MoreDone(s: State, t: State)
    requires Sound(s)
    requires t == s.(done := t.done, unlinking := t.unlinking, accepting := t.accepting, recovery := t.recovery)
    requires s.done <= t.done
    ensures Sound(t)
  {
  }

  lemma {:induction false} ExecuteSound(steps: seq<Step>)
    ensures Sound(Execute(Initial, steps)) && Unlinked(Execute(Initial, steps))
    decreases |steps|
  {
    hide Sound, Apply, Unlinked;
    if steps == [] {
      InitialSound();
    } else {
      ExecuteSound(steps[..|steps| - 1]);
      ApplySound(Execute(Initial, steps[..|steps| - 1]), steps[|steps| - 1]);
    }
  }

  lemma InitialSound()
    ensures Sound(Initial) && Unlinked(Initial)
  {
  }

  // ------------------------------------------------------------------- theorems

  /** Number of the places a call is in, counting the batch only for calls that left queue and slot. */
  function Places(s: State, id: nat): nat {
    multiset(s.pending)[id] + (if Holds(s.slot, id) then 1 else 0)
    + (if id in s.batch && !Holds(s.slot, id) then 1 else 0)
  }

  lemma {:induction false} AscendingOnce(ids: seq<nat>, id: nat)
    requires Ascending(ids)
    ensures multiset(ids)[id] == if id in ids then 1 else 0
  {
    if ids != [] {
      var n := |ids| - 1;
      AscendingOnce(ids[..n], id);
      assert ids == ids[..n] + [ids[n]];
    }
  }

  /**
   On every run: queued and in-flight calls number at most 32, calls are sent in
   submission order, and every accepted call that is not completed is in exactly
   one place, so none is ever dropped.
   */
  lemma EveryRunKeepsCalls(steps: seq<Step>, id: nat)
    ensures var s := Execute(Initial, steps);
            && Outstanding(s) <= LIMIT && Ascending(s.started)
            && (id < |s.calls| && id !in s.done ==> Places(s, id) == 1)
  {
    hide Execute;
    ExecuteSound(steps);
    var s := Execute(Initial, steps);
    AscendingOnce(s.pending, id);
  }

  // --------------------------------------------------- neither queued nor in flight

  predicate InNeither(s: State, id: nat) {
    id !in s.pending && !Holds(s.slot, id)
  }

  /** An expiry takes an uncompleted call out of the queue if and only if its deadline has come. */
  lemma ExpireExact(s: State, now: nat, id: nat)
    requires Sound(s) && id in s.pending && id !in s.done
    ensures id < |s.calls| && (InNeither(Expire(s, now), id) <==> s.calls[id].deadline <= now)
  {
    hide Kept, InOrder;
    PendingInRange(s);
    KeptIs(s.pending, Waits(s, now));
  }

  /** A cancellation takes a queued call out of the queue if and only if it matches. */
  lemma CancelCallsExact(s: State, device: Option<string>, generation: Option<nat>, id: nat)
    requires Sound(s) && id in s.pending
    ensures InNeither(CancelCalls(s, device, generation), id) <==> Matches(s.calls, device, generation, id)
  {
    hide Kept, InOrder, Matches;
    PendingInRange(s);
    KeptIs(s.pending, Matching(s.calls, device, generation, false));
  }

  /** The step finds the call queued and its guard takes it out. */
  predicate Finds(s: State, step: Step, id: nat) {
    && id in s.pending && id !in s.done && id < |s.calls|
    && match step
       case ExpireStep(now) => s.calls[id].deadline <= now
       case CancelCallsStep(d, g) => Matches(s.calls, d, g, id)
       case _ => false
  }

  /** Some step of the run found the call queued and took it out. */
  ghost predicate Found(steps: seq<Step>, id: nat)
    decreases |steps|
  {
    steps != [] &&
    var n := |steps| - 1;
    Found(steps[..n], id) || Finds(Execute(Initial, steps[..n]), steps[n], id)
  }

  /** A step moves an uncompleted call out of queue and slot only if it finds it. */
  lemma StepFinds(s: State, step: Step, id: nat)
    requires Sound(s) && Unlinked(s) && id !in Apply(s, step).done
    ensures var t := Apply(s, step);
            && id !in s.done && |s.calls| <= |t.calls|
            && (id < |s.calls| ==> (InNeither(t, id) <==> InNeither(s, id) || Finds(s, step, id)))
            && (|s.calls| <= id < |t.calls| ==> !InNeither(t, id) && !Finds(s, step, id))
  {
    hide Kept, InOrder, Matches, Located, Apart, DoneAhead;
    PendingInRange(s);
    match step
    case UnlinkStep => if s.unlinking != [] { KeptIs(s.pending, OtherThan(s.unlinking[0])); }
    case TakeNextStep => TakeNextKeeps(s, id);
    case ExpireStep(now) =>
      KeptIs(s.pending, Waits(s, now));
      if id in s.pending { ExpireExact(s, now, id); }
    case CancelCallsStep(d, g) =>
      KeptIs(s.pending, Matching(s.calls, d, g, false));
      if id in s.pending { CancelCallsExact(s, d, g, id); }
    case ClearSlotStep => SettledIsDone(s);
    case _ =>
  }

  lemma SettledIsDone(s: State)
    requires InOrder(s)
    ensures s.slot.InFlight? && s.slot.phase == Settled ==> s.slot.id in s.done
  {
  }

  lemma TakeNextKeeps(s: State, id: nat)
    requires id !in s.done
    ensures InNeither(TakeNext(s), id) <==> InNeither(s, id)
  {
    hide DoneAhead;
    if s.slot == Empty {
      var k, t := DoneAhead(s.pending, s.done), TakeNext(s);
      assert forall i | 0 <= i < |t.pending| :: t.pending[i] == s.pending[k + 1 + i];
      if id in s.pending {
        var i :| 0 <= i < |s.pending| && s.pending[i] == id;
        assert i > k ==> t.pending[i - k - 1] == id;
      }
    }
  }

  /**
   On every run, an accepted call that is not completed is in neither queue nor
   slot if and only if an expiry at or past its deadline, or a cancellation that
   it matches, found it queued.
   */
  lemma {:induction false} QueueOrSlotExact(steps: seq<Step>, id: nat)
    ensures var s := Execute(Initial, steps);
            && (Found(steps, id) ==> id < |s.calls|)
            && (id < |s.calls| && id !in s.done ==> (InNeither(s, id) <==> Found(steps, id)))
    decreases |steps|
  {
    hide Apply, InNeither, Finds, Sound, Unlinked;
    if steps != [] {
      var n := |steps| - 1;
      var s := Execute(Initial, steps[..n]);
      QueueOrSlotExact(steps[..n], id);
      ExecuteSound(steps[..n]);
      CallsGrow(s, steps[n]);
      FoundIsAccepted(s, steps[n], id);
      if id !in Apply(s, steps[n]).done {
        StepFinds(s, steps[n], id);
      }
    }
  }

  lemma CallsGrow(s: State, step: Step)
    ensures |s.calls| <= |Apply(s, step).calls|
  {
    hide Kept, DoneAhead, Matches;
  }

  lemma FoundIsAccepted(s: State, step: Step, id: nat)
    ensures Finds(s, step, id) ==> id < |s.calls|
  {
    hide Matches;
  }

  /** A reachable state with such a call: accepted at 0 with deadline 1, expired at 1. */
  lemma ExpiredIsInNeither()
    ensures var s := Execute(Initial, [SubmitStep("d", 1, 0, 0)] + [ExpireStep(1)]);
            |s.calls| == 1 && 0 !in s.done && InNeither(s, 0)
  {
    hide Apply, Expire, Submit;
    var a, b := SubmitStep("d", 1, 0, 0), ExpireStep(1);
    ExecuteSnoc([], a);
    ExecuteSnoc([a], b);
    assert [] + [a] == [a];
    ExecuteSound([a]);
    SubmitThenExpire();
    ExpireExact(Submit(Initial, "d", 1, 0, 0), 1, 0);
  }

  lemma ExecuteSnoc(steps: seq<Step>, step: Step)
    ensures Execute(Initial, steps + [step]) == Apply(Execute(Initial, steps), step) && Execute(Initial, []) == Initial
  {
    hide Apply;
    assert (steps + [step])[..|steps|] == steps;
  }

  lemma SubmitThenExpire()
    ensures var s := Submit(Initial, "d", 1, 0, 0);
            && Apply(Initial, SubmitStep("d", 1, 0, 0)) == s && Apply(s, ExpireStep(1)) == Expire(s, 1)
            && s.calls == [Call("d", 1, 0, 0)] && s.pending == [0] && s.done == {} && Expire(s, 1).done == {}
            && |Expire(s, 1).calls| == 1
  {
    hide Kept;
  }

  // ------------------------------------------------------------------ the loops

  class Calls {
    var state: State

    constructor ()
      ensures state == Initial
    {
      state := Initial;
    }

    /** Drops completed calls from the front and puts the first other one in flight. */
    method ProcessNext()
      modifies this
      ensures state == TakeNext(old(state))
    {
      if state.slot.InFlight? {
        return;
      }
      var pending, done := state.pending, state.done;
      var i := 0;
      while i < |pending| && pending[i] in done
        invariant i <= |pending| && DoneAhead(pending, done) == i + DoneAhead(pending[i..], done)
      {
        assert pending[i..][1..] == pending[i + 1..];
        i := i + 1;
      }
      if i == |pending| {
        state := state.(pending := []);
      } else {
        state := state.(pending := pending[i + 1..], slot := InFlight(pending[i], Taken));
      }
    }

    /** Removes completed and overdue calls; the overdue ones are to be completed after the lock. */
    method ExpirePending(now: nat)
      modifies this
      ensures state == Expire(old(state), now)
    {
      var pending := state.pending;
      var kept, expired := [], [];
      for i := 0 to |pending|
        invariant kept == Kept(pending[..i], Waits(state, now)) && expired == Kept(pending[..i], Overdue(state, now))
        invariant state == old(state)
      {
        assert pending[..i + 1][..i] == pending[..i];
        var id := pending[i];
        if id !in state.done {
          if id < |state.calls| && now < state.calls[id].deadline {
            kept := kept + [id];
          } else {
            expired := expired + [id];
          }
        }
      }
      assert pending[..|pending|] == pending;
      state := state.(pending := kept, batch := state.batch + expired);
    }

    /** Removes the matching calls from the queue; the one in flight is completed but stays in its slot. */
    method CancelMatching(device: Option<string>, generation: Option<nat>)
      modifies this
      ensures state == CancelCalls(old(state), device, generation)
    {
      hide Matches;
      var pending, calls := state.pending, state.calls;
      var kept, cancelled := [], [];
      for i := 0 to |pending|
        invariant kept == Kept(pending[..i], Matching(calls, device, generation, false))
        invariant cancelled == Kept(pending[..i], Matching(calls, device, generation, true))
      {
        assert pending[..i + 1][..i] == pending[..i];
        if Matches(calls, device, generation, pending[i]) {
          cancelled := cancelled + [pending[i]];
        } else {
          kept := kept + [pending[i]];
        }
      }
      assert pending[..|pending|] == pending;
      if state.slot.InFlight? && Matches(calls, device, generation, state.slot.id) {
        cancelled := cancelled + [state.slot.id];
      }
      state := state.(pending := kept, batch := state.batch + cancelled);
    }
  }
}

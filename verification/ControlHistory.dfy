/**
 What happens to each control call, decided by the steps alone: which
 submissions are accepted, which call is sent, and what completes it.
 */
module ControlHistory {
  import opened Wrappers
  import opened ControlQueue

  // ------------------------------------------------------------------ submissions

  function Recoveries(steps: seq<Step>): nat {
    if steps == [] then 0
    else Recoveries(steps[..|steps| - 1]) + if steps[|steps| - 1].RecoverStep? then 1 else 0
  }

  /** The submission is on time, for the present session, before the stop, and finds one of the 32 places free. */
  predicate Admitted(s: State, before: seq<Step>, step: Step) {
    && step.SubmitStep? && step.acceptedAt < step.deadline
    && StopAcceptingStep !in before && step.recovery == Recoveries(before)
    && |s.pending| + (if s.slot.InFlight? then 1 else 0) < 32
  }

  function Submissions(steps: seq<Step>): seq<Step> {
    if steps == [] then []
    else
      var n := |steps| - 1;
      Submissions(steps[..n]) + if Admitted(Execute(Initial, steps[..n]), steps[..n], steps[n]) then [steps[n]] else []
  }

  ghost predicate Matched(calls: seq<Call>, submissions: seq<Step>) {
    && |calls| == |submissions|
    && forall id | 0 <= id < |calls| ::
         && submissions[id].SubmitStep?
         && calls[id].device == submissions[id].device && calls[id].deadline == submissions[id].deadline
         && calls[id].recovery == submissions[id].recovery
  }

  lemma StepSubmits(s: State, before: seq<Step>, step: Step)
    requires s.accepting == (StopAcceptingStep !in before) && s.recovery == Recoveries(before)
    ensures var t := Apply(s, step);
            && t.accepting == (s.accepting && step != StopAcceptingStep)
            && t.recovery == s.recovery + (if step.RecoverStep? then 1 else 0)
            && |t.calls| == |s.calls| + (if Admitted(s, before, step) then 1 else 0)
            && (forall id | 0 <= id < |s.calls| :: t.calls[id] == s.calls[id].(generation := t.calls[id].generation))
            && (Admitted(s, before, step) ==>
                  && t.calls[|s.calls|] == Call(step.device, step.deadline, step.recovery, 0)
                  && t.pending == s.pending + [|s.calls|])
  {
    hide Kept;
  }

  /**
   On every run the accepted calls are, in order, the submissions that were on
   time, for the present session, before the stop and within the limit.
   */
  lemma {:induction false} EverySubmissionDecided(steps: seq<Step>)
    ensures var s := Execute(Initial, steps);
            && s.accepting == (StopAcceptingStep !in steps)
            && s.recovery == Recoveries(steps)
            && Matched(s.calls, Submissions(steps))
    decreases |steps|
  {
    hide Apply, Admitted;
    if steps != [] {
      var n := |steps| - 1;
      EverySubmissionDecided(steps[..n]);
      StepSubmits(Execute(Initial, steps[..n]), steps[..n], steps[n]);
      assert steps == steps[..n] + [steps[n]];
      OnlySubmissions(Execute(Initial, steps[..n]), steps[..n], steps[n]);
    }
  }

  lemma OnlySubmissions(s: State, before: seq<Step>, step: Step)
    ensures Admitted(s, before, step) ==> step.SubmitStep?
  {
  }

  // ------------------------------------------------------------ sending and ending

  /** The pump sends the call it took: it is for this device and session, and there is time left. */
  predicate Sends(s: State, step: Step, id: nat) {
    && step.DispatchStep? && s.slot == InFlight(id, Taken) && id < |s.calls|
    && step.device_ == s.calls[id].device && s.calls[id].recovery == s.recovery
    && step.sessionOpen && step.clientOpen && step.now < s.calls[id].deadline
  }

  /** The step gives the call its result. */
  predicate Completes(s: State, step: Step, id: nat) {
    match step
    case CancelOperationStep(other) => other == id && id < |s.calls|
    case DispatchStep(_, _, _, _, _) => s.slot == InFlight(id, Taken) && id < |s.calls| && !Sends(s, step, id)
    case AnswerStep => s.slot == InFlight(id, Started)
    case CompleteRemovedStep(i) => i < |s.batch| && s.batch[i] == id
    case _ => false
  }

  /**
   Exactly one call can be sent by a step, the one it fits; and a call is completed
   exactly by its cancellation, its refusal, its answer, or the thread that
   removed it.
   */
  lemma CallExact(s: State, step: Step, id: nat)
    ensures var t := Apply(s, step);
            && t.started == s.started + (if s.slot.InFlight? && Sends(s, step, s.slot.id) then [s.slot.id] else [])
            && (id in t.done <==> id in s.done || Completes(s, step, id))
            && (Sends(s, step, id) ==> t.slot == InFlight(id, Started) && t.calls[id].generation == step.generation)
  {
    hide Kept;
    assert s.started + [] == s.started;
  }

  /** If the slot is free, the pump takes the earliest uncompleted call and drops the completed ones ahead of it. */
  lemma TakesEarliest(s: State)
    requires Sound(s)
    ensures var t := TakeNext(s);
            if s.slot.InFlight? then t == s
            else if forall id | id in s.pending :: id in s.done then t == s.(pending := [])
            else
              && t.slot.InFlight? && t.slot.phase == Taken && t.slot.id in s.pending && t.slot.id !in s.done
              && (forall id | id in s.pending && id !in s.done :: t.slot.id <= id)
              && (forall id :: id in t.pending <==> id in s.pending && id > t.slot.id)
  {
    hide Located, Apart, TakeNext;
    TakeNextIs(s);
    if !s.slot.InFlight? {
      var k := DoneAhead(s.pending, s.done);
      PendingAscending(s);
      if k < |s.pending| {
        SplitAt(s.pending, k);
        assert s.pending[k] in s.pending && s.pending[k] !in s.done;
        forall id | id in s.pending && id !in s.done ensures s.pending[k] <= id {
          var j :| 0 <= j < |s.pending| && s.pending[j] == id;
        }
      }
    }
  }

  lemma TakeNextIs(s: State)
    ensures var k := DoneAhead(s.pending, s.done);
            TakeNext(s) == if s.slot.InFlight? then s
                           else if k == |s.pending| then s.(pending := [])
                           else s.(pending := s.pending[k + 1..], slot := InFlight(s.pending[k], Taken))
  {
  }

  lemma SplitAt(ids: seq<nat>, k: nat)
    requires Ascending(ids) && k < |ids|
    ensures forall id :: id in ids[k + 1..] <==> id in ids && id > ids[k]
  {
    forall id ensures id in ids[k + 1..] <==> id in ids && id > ids[k] {
      if id in ids && id > ids[k] {
        var j :| 0 <= j < |ids| && ids[j] == id;
        assert ids[k + 1..][j - k - 1] == id;
      }
    }
  }
}

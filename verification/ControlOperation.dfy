/**
 A control operation: a result that is written once by completion or by
 cancellation, and handlers that are told about it. Handlers run outside the
 lock, so between the write and the calls they are `due`; any thread may act in
 between. The broker audits each dispatched command through such a handler.
 */
module ControlOperation {
  import opened Wrappers

  datatype Result = Cancelled | Finished(value: int)

  /** A handler registered by the broker for a dispatched command, or by anyone else. */
  datatype Handler = Audit(command: nat) | Client(id: nat)

  datatype Call = Call(handler: Handler, result: Result)

  datatype State = State(
    result: Option<Result>,
    waiting: seq<Handler>,
    due: seq<Call>,
    called: seq<Call>,
    registered: seq<Handler>,
    cancelRequested: bool,
    cancelHandler: Option<nat>,
    cancels: seq<nat>,
    brokerAlive: bool,
    audited: seq<Call>)

  const Initial := State(None, [], [], [], [], false, None, [], true, [])

  function Calls(handlers: seq<Handler>, result: Result): seq<Call> {
    seq(|handlers|, i requires 0 <= i < |handlers| => Call(handlers[i], result))
  }

  /** The one write: hands every waiting handler the result. */
  function Settle(s: State, result: Result): State {
    s.(result := Some(result), waiting := [], due := s.due + Calls(s.waiting, result))
  }

  function Complete(s: State, result: Result): State {
    if s.result.Some? then s else Settle(s, result)
  }

  /** The cancel handler, if any, as a sequence of calls. */
  function Told(cancelHandler: Option<nat>): seq<nat> {
    if cancelHandler.Some? then [cancelHandler.value] else []
  }

  function Cancel(s: State): State {
    if s.result.Some? then s
    else
      Settle(s, Cancelled).(cancelRequested := true, cancels := s.cancels + Told(s.cancelHandler))
  }

  function OnComplete(s: State, handler: Handler): State {
    var t := s.(registered := s.registered + [handler]);
    if s.result.Some? then t.(due := s.due + [Call(handler, s.result.value)])
    else t.(waiting := s.waiting + [handler])
  }

  function SetCancelHandler(s: State, handler: nat): State {
    s.(cancelHandler := Some(handler),
       cancels := s.cancels + (if s.cancelRequested then [handler] else []))
  }

  /** A thread gets round to a due call; the broker's handler writes the audit record while the broker lives. */
  function RunDue(s: State, i: nat): State {
    if i >= |s.due| then s
    else
      var call := s.due[i];
      s.(due := s.due[..i] + s.due[i + 1..], called := s.called + [call],
         audited := s.audited + (if call.handler.Audit? && s.brokerAlive then [call] else []))
  }

  function DestroyBroker(s: State): State {
    s.(brokerAlive := false)
  }

  datatype Step =
    | CompleteStep(result: Result)
    | CancelStep
    | OnCompleteStep(handler: Handler)
    | SetCancelHandlerStep(handler_: nat)
    | RunDueStep(i: nat)
    | DestroyBrokerStep

  function Apply(s: State, step: Step): State {
    match step
    case CompleteStep(r) => Complete(s, r)
    case CancelStep => Cancel(s)
    case OnCompleteStep(h) => OnComplete(s, h)
    case SetCancelHandlerStep(h) => SetCancelHandler(s, h)
    case RunDueStep(i) => RunDue(s, i)
    case DestroyBrokerStep => DestroyBroker(s)
  }

  function Execute(s: State, steps: seq<Step>): State
    decreases |steps|
  {
    if steps == [] then s else Apply(Execute(s, steps[..|steps| - 1]), steps[|steps| - 1])
  }

  // ------------------------------------------------------------------ invariant

  function HandlersOf(calls: seq<Call>): seq<Handler> {
    seq(|calls|, i requires 0 <= i < |calls| => calls[i].handler)
  }

  /** Every registered handler is waiting, due or called, and nowhere twice. */
  predicate Conserved(s: State) {
    multiset(s.waiting) + multiset(HandlersOf(s.due)) + multiset(HandlersOf(s.called)) == multiset(s.registered)
  }

  predicate AllCarry(calls: seq<Call>, result: Option<Result>) {
    forall i | 0 <= i < |calls| :: result == Some(calls[i].result)
  }

  predicate Faithful(s: State) {
    && AllCarry(s.due, s.result) && AllCarry(s.called, s.result)
    && (s.result.Some? ==> s.waiting == [])
    && (s.cancelRequested ==> s.result == Some(Cancelled))
    && (if s.cancelRequested then Told(s.cancelHandler) == LastOf(s.cancels) else s.cancels == [])
  }

  function LastOf(cancels: seq<nat>): seq<nat> {
    if cancels == [] then [] else [cancels[|cancels| - 1]]
  }

  function AuditCalls(calls: seq<Call>): seq<Call> {
    if calls == [] then []
    else
      var n := |calls| - 1;
      AuditCalls(calls[..n]) + (if calls[n].handler.Audit? then [calls[n]] else [])
  }

  /** The audit holds the broker's calls: all of them while the broker lives, a first part after. */
  predicate Audited(s: State) {
    s.audited <= AuditCalls(s.called) && (s.brokerAlive ==> s.audited == AuditCalls(s.called))
  }

  predicate Sound(s: State) {
    Conserved(s) && Faithful(s) && Audited(s)
  }

  lemma HandlersConcat(a: seq<Call>, b: seq<Call>)
    ensures HandlersOf(a + b) == HandlersOf(a) + HandlersOf(b)
  {
  }

  lemma HandlersOfCalls(handlers: seq<Handler>, result: Result)
    ensures HandlersOf(Calls(handlers, result)) == handlers
  {
  }

  lemma SettleSound(s: State, result: Result)
    requires Sound(s) && s.result.None?
    ensures Sound(Settle(s, result))
  {
    hide Audited;
    HandlersConcat(s.due, Calls(s.waiting, result));
    HandlersOfCalls(s.waiting, result);
    assert Audited(Settle(s, result)) by { SameAudit(s, Settle(s, result)); }
  }

  lemma SameAudit(s: State, t: State)
    requires Audited(s) && t.called == s.called && t.audited == s.audited && (t.brokerAlive ==> s.brokerAlive)
    ensures Audited(t)
  {
  }

  lemma HandlersOne(call: Call)
    ensures HandlersOf([call]) == [call.handler]
  {
  }

  lemma OnCompleteConserved(s: State, handler: Handler)
    requires Conserved(s)
    ensures Conserved(OnComplete(s, handler))
  {
    hide HandlersOf;
    if s.result.Some? {
      var call := Call(handler, s.result.value);
      HandlersConcat(s.due, [call]);
      HandlersOne(call);
    }
  }

  lemma OnCompleteSound(s: State, handler: Handler)
    requires Sound(s)
    ensures Sound(OnComplete(s, handler))
  {
    hide Audited, Conserved;
    OnCompleteConserved(s, handler);
    SameAudit(s, OnComplete(s, handler));
  }

  lemma RunDueConserved(s: State, i: nat)
    requires Conserved(s) && i < |s.due|
    ensures Conserved(RunDue(s, i))
  {
    hide HandlersOf;
    var call, before, after := s.due[i], s.due[..i], s.due[i + 1..];
    assert s.due == before + ([call] + after);
    HandlersConcat(before, [call] + after);
    HandlersConcat([call], after);
    HandlersConcat(before, after);
    HandlersConcat(s.called, [call]);
    HandlersOne(call);
  }

  lemma RunDueSound(s: State, i: nat)
    requires Sound(s)
    ensures Sound(RunDue(s, i))
  {
    hide Conserved;
    if i < |s.due| {
      RunDueConserved(s, i);
      var t := RunDue(s, i);
      assert t.called[..|s.called|] == s.called;
    }
  }

  lemma ApplySound(s: State, step: Step)
    requires Sound(s)
    ensures Sound(Apply(s, step))
  {
    hide Conserved;
    match step
    case CompleteStep(r) => if s.result.None? { SettleSound(s, r); }
    case CancelStep => if s.result.None? { SettleSound(s, Cancelled); SameCounts(Settle(s, Cancelled), Cancel(s)); }
    case OnCompleteStep(h) => OnCompleteSound(s, h);
    case SetCancelHandlerStep(h) => SameCounts(s, SetCancelHandler(s, h));
    case RunDueStep(i) => RunDueSound(s, i);
    case DestroyBrokerStep => SameCounts(s, DestroyBroker(s));
  }

  lemma SameCounts(s: State, t: State)
    requires Conserved(s) && t.registered == s.registered
    requires t.waiting == s.waiting && t.due == s.due && t.called == s.called
    ensures Conserved(t)
  {
  }

  lemma {:induction false} ExecuteSound(steps: seq<Step>)
    ensures Sound(Execute(Initial, steps))
    decreases |steps|
  {
    hide Sound, Apply;
    if steps == [] {
      InitialSound();
    } else {
      ExecuteSound(steps[..|steps| - 1]);
      ApplySound(Execute(Initial, steps[..|steps| - 1]), steps[|steps| - 1]);
    }
  }

  lemma InitialSound()
    ensures Sound(Initial)
  {
  }

  // ------------------------------------------------------------------- theorems

  /** Once set, the result never changes, whatever is called afterwards and in which order. */
  lemma {:induction false} ResultIsFinal(s: State, steps: seq<Step>)
    requires s.result.Some?
    ensures Execute(s, steps).result == s.result
    decreases |steps|
  {
    if steps != [] {
      ResultIsFinal(s, steps[..|steps| - 1]);
    }
  }

  /** On every run a cancelled operation has told the cancel handler it was given last, and no other has told any. */
  lemma CancelHandlerIsTold(steps: seq<Step>)
    ensures var s := Execute(Initial, steps);
            && (s.cancelRequested && s.cancelHandler.Some? ==>
                  s.cancels != [] && s.cancels[|s.cancels| - 1] == s.cancelHandler.value)
            && (!s.cancelRequested ==> s.cancels == [])
  {
    hide Execute, Conserved, Audited;
    ExecuteSound(steps);
    var s := Execute(Initial, steps);
    assert s.cancelRequested && s.cancelHandler.Some? ==> Told(s.cancelHandler)[0] == LastOf(s.cancels)[0];
  }

  // The calls of a run alone decide what the operation holds.

  /** The first completion or cancellation among the steps, if any. */
  function FirstWrite(steps: seq<Step>): Option<nat> {
    if steps == [] then None
    else
      var n := |steps| - 1;
      var before := FirstWrite(steps[..n]);
      if before.None? && (steps[n].CompleteStep? || steps[n].CancelStep?) then Some(n) else before
  }

  function Outcome(step: Step): Option<Result> {
    match step
    case CompleteStep(result) => Some(result)
    case CancelStep => Some(Cancelled)
    case _ => None
  }

  function HandlersGiven(steps: seq<Step>): seq<Handler> {
    if steps == [] then []
    else
      var n := |steps| - 1;
      HandlersGiven(steps[..n]) + if steps[n].OnCompleteStep? then [steps[n].handler] else []
  }

  function CancelHandlersGiven(steps: seq<Step>): seq<nat> {
    if steps == [] then []
    else
      var n := |steps| - 1;
      CancelHandlersGiven(steps[..n]) + if steps[n].SetCancelHandlerStep? then [steps[n].handler_] else []
  }

  lemma {:induction false} FirstWriteIsFirst(steps: seq<Step>)
    ensures match FirstWrite(steps)
            case None => forall i | 0 <= i < |steps| :: Outcome(steps[i]).None?
            case Some(k) => && k < |steps| && Outcome(steps[k]).Some?
                            && forall i | 0 <= i < k :: Outcome(steps[i]).None?
  {
    if steps != [] {
      FirstWriteIsFirst(steps[..|steps| - 1]);
    }
  }

  lemma StepRecords(s: State, step: Step)
    ensures var t := Apply(s, step);
            && t.registered == s.registered + (if step.OnCompleteStep? then [step.handler] else [])
            && t.cancelHandler == (if step.SetCancelHandlerStep? then Some(step.handler_) else s.cancelHandler)
            && t.brokerAlive == (s.brokerAlive && step != DestroyBrokerStep)
            && t.result == (if s.result.Some? then s.result else Outcome(step))
            && t.cancelRequested == (s.cancelRequested || (s.result.None? && step.CancelStep?))
  {
  }

  /** On every run the registered handlers, the cancel handler and the broker's life follow from the calls. */
  lemma {:induction false} RunRemembers(steps: seq<Step>)
    ensures var s := Execute(Initial, steps);
            && s.registered == HandlersGiven(steps)
            && Told(s.cancelHandler) == LastOf(CancelHandlersGiven(steps))
            && (s.brokerAlive <==> DestroyBrokerStep !in steps)
    decreases |steps|
  {
    hide Apply;
    if steps != [] {
      var n := |steps| - 1;
      RunRemembers(steps[..n]);
      StepRecords(Execute(Initial, steps[..n]), steps[n]);
      assert steps == steps[..n] + [steps[n]];
    }
  }

  /**
   On every run the result is what the first completion or cancellation wrote,
   and the operation counts as cancelled if and only if that was a cancellation.
   */
  lemma {:induction false} FirstWriteWins(steps: seq<Step>)
    ensures var s := Execute(Initial, steps);
            match FirstWrite(steps)
            case None => s.result.None? && !s.cancelRequested
            case Some(k) => && k < |steps| && s.result == Outcome(steps[k])
                            && (s.cancelRequested <==> steps[k].CancelStep?)
    decreases |steps|
  {
    hide Apply;
    if steps != [] {
      var n := |steps| - 1;
      FirstWriteWins(steps[..n]);
      StepRecords(Execute(Initial, steps[..n]), steps[n]);
      FirstWriteIsFirst(steps[..n]);
    }
  }

  /** A cancelled operation told the cancel handler given last before the cancellation and every one given after it. */
  lemma {:induction false} CancelTells(steps: seq<Step>)
    ensures var s := Execute(Initial, steps);
            match FirstWrite(steps)
            case None => s.cancels == []
            case Some(k) =>
              && k < |steps|
              && s.cancels == (if steps[k].CancelStep?
                               then LastOf(CancelHandlersGiven(steps[..k])) + CancelHandlersGiven(steps[k..])
                               else [])
    decreases |steps|
  {
    hide Apply;
    if steps != [] {
      var n := |steps| - 1;
      var before, last := steps[..n], steps[n];
      CancelTells(before);
      FirstWriteWins(before);
      FirstWriteIsFirst(before);
      match FirstWrite(before)
      case Some(k) =>
        SuffixGrows(steps, k);
        TellsMore(Execute(Initial, before), last);
      case None =>
        RunRemembers(before);
        TellsFirst(Execute(Initial, before), last);
        assert steps[n..] == [last];
    }
  }

  lemma SuffixGrows(steps: seq<Step>, k: nat)
    requires k < |steps| - 1
    ensures var n := |steps| - 1;
            && steps[..n][..k] == steps[..k] && steps[..n][k] == steps[k]
            && CancelHandlersGiven(steps[k..]) == CancelHandlersGiven(steps[..n][k..]) + CancelHandlersGiven([steps[n]])
  {
    var n := |steps| - 1;
    assert steps[k..][..n - k] == steps[..n][k..];
    assert [steps[n]][..0] == [];
  }

  lemma TellsFirst(s: State, step: Step)
    requires s.result.None? && !s.cancelRequested && s.cancels == []
    ensures Apply(s, step).cancels == if step.CancelStep? then Told(s.cancelHandler) else []
    ensures step.CancelStep? ==> CancelHandlersGiven([step]) == []
  {
    assert [step][..0] == [];
  }

  lemma TellsMore(s: State, step: Step)
    requires s.result.Some?
    ensures Apply(s, step).cancels == s.cancels + if s.cancelRequested then CancelHandlersGiven([step]) else []
  {
    assert [step][..0] == [];
  }

  function Count(calls: seq<Call>, handler: Handler): nat {
    multiset(HandlersOf(calls))[handler]
  }

  /**
   On every run: each call carries the one result, and a handler that was
   registered once has been called exactly once when the result is set and no
   call is outstanding; it has not been called before, and never more often.
   */
  lemma EachHandlerOnce(steps: seq<Step>, handler: Handler)
    requires multiset(HandlersGiven(steps))[handler] == 1
    ensures var s := Execute(Initial, steps);
            && AllCarry(s.called, s.result)
            && Count(s.called, handler) <= 1
            && (s.result.None? ==> Count(s.called, handler) == 0)
            && (s.result.Some? && Count(s.due, handler) == 0 ==> Count(s.called, handler) == 1)
  {
    ExecuteSound(steps);
    RunRemembers(steps);
    hide Execute;
    var s := Execute(Initial, steps);
    var total := multiset(s.waiting) + multiset(HandlersOf(s.due)) + multiset(HandlersOf(s.called));
    assert total[handler] == 1;
    if s.result.None? {
      assert s.called == [];
      assert HandlersOf(s.called) == [];
    }
  }

  lemma {:induction false} AuditKeepsCounts(calls: seq<Call>, command: nat)
    ensures Count(AuditCalls(calls), Audit(command)) == Count(calls, Audit(command))
    ensures forall i | 0 <= i < |AuditCalls(calls)| :: AuditCalls(calls)[i] in calls
  {
    if calls != [] {
      var n := |calls| - 1;
      var init, last := calls[..n], calls[n];
      var kept := if last.handler.Audit? then [last] else [];
      AuditKeepsCounts(init, command);
      assert calls == init + [last];
      HandlersConcat(init, [last]);
      HandlersConcat(AuditCalls(init), kept);
      assert HandlersOf([last]) == [last.handler];
      assert !last.handler.Audit? ==> HandlersOf(kept) == [];
    }
  }

  /**
   A command the broker dispatched once gets at most one audit record; while the
   broker lives, exactly one as soon as its operation has its result and no call
   is outstanding; and the record carries that result.
   */
  lemma EachCommandAuditedOnce(steps: seq<Step>, command: nat)
    requires multiset(HandlersGiven(steps))[Audit(command)] == 1
    ensures var s := Execute(Initial, steps);
            && AllCarry(s.audited, s.result)
            && Count(s.audited, Audit(command)) <= 1
            && (s.brokerAlive && s.result.Some? && Count(s.due, Audit(command)) == 0 ==>
                  Count(s.audited, Audit(command)) == 1)
  {
    hide Execute, AuditCalls, HandlersGiven, Conserved;
    EachHandlerOnce(steps, Audit(command));
    ExecuteSound(steps);
    var s := Execute(Initial, steps);
    AuditKeepsCounts(s.called, command);
    var all := AuditCalls(s.called);
    assert all == s.audited + all[|s.audited|..];
    HandlersConcat(s.audited, all[|s.audited|..]);
    forall i | 0 <= i < |s.audited| ensures s.result == Some(s.audited[i].result) {
      assert s.audited[i] == all[i] && all[i] in s.called;
    }
  }

  // ------------------------------------------------------------------ the object

  /** The calling thread runs the due calls itself, in order. */
  function RunAll(s: State): State
    decreases |s.due|
  {
    if s.due == [] then s else RunAll(RunDue(s, 0))
  }

  lemma {:induction false} RunAllSound(s: State)
    requires Sound(s)
    ensures Sound(RunAll(s)) && RunAll(s).due == []
    decreases |s.due|
  {
    hide Sound;
    if s.due != [] {
      RunDueSound(s, 0);
      RunAllSound(RunDue(s, 0));
    }
  }

  lemma {:induction false} AuditConcat(a: seq<Call>, b: seq<Call>)
    ensures AuditCalls(a + b) == AuditCalls(a) + AuditCalls(b)
  {
    if b == [] {
      assert a + b == a;
    } else {
      assert (a + b)[..|a + b| - 1] == a + b[..|b| - 1];
      AuditConcat(a, b[..|b| - 1]);
    }
  }

  function Heard(s: State, calls: seq<Call>): seq<Call> {
    if s.brokerAlive then AuditCalls(calls) else []
  }

  lemma {:induction false} RunAllCalls(s: State)
    ensures RunAll(s) == s.(due := [], called := s.called + s.due, audited := s.audited + Heard(s, s.due))
    decreases |s.due|
  {
    hide AuditCalls;
    if s.due == [] {
      NoAudit();
      assert s.called + s.due == s.called && s.audited + [] == s.audited;
    } else {
      RunAllCalls(RunDue(s, 0));
      FirstDue(s);
    }
  }

  lemma NoAudit()
    ensures AuditCalls([]) == []
  {
  }

  lemma AuditOne(call: Call)
    ensures AuditCalls([call]) == if call.handler.Audit? then [call] else []
  {
    assert [call][..0] == [];
  }

  lemma FirstDue(s: State)
    requires s.due != []
    ensures var t := RunDue(s, 0);
            && t == s.(due := s.due[1..], called := t.called, audited := t.audited)
            && t.called + t.due == s.called + s.due
            && t.audited + Heard(t, t.due) == s.audited + Heard(s, s.due)
  {
    hide AuditCalls;
    var call, rest := s.due[0], s.due[1..];
    assert s.due[..0] + rest == rest;
    Regroup(s.called, call, s.due);
    AuditConcat([call], rest);
    AuditOne(call);
    assert s.due == [call] + rest;
    Associate(s.audited, Heard(s, [call]), Heard(s, rest));
  }

  lemma Regroup(a: seq<Call>, call: Call, b: seq<Call>)
    requires b != [] && b[0] == call
    ensures (a + [call]) + b[1..] == a + b
  {
  }

  lemma Associate(a: seq<Call>, b: seq<Call>, c: seq<Call>)
    ensures (a + b) + c == a + (b + c)
  {
  }

  lemma RunNone(s: State)
    requires s.due == []
    ensures RunAll(s) == s
  {
  }

  lemma SameHeard(s: State, t: State, calls: seq<Call>)
    requires s.brokerAlive == t.brokerAlive
    ensures Heard(s, calls) == Heard(t, calls)
  {
  }

  class Operation {
    var result: Option<Result>
    var waiting: seq<Handler>
    var called: seq<Call>
    var cancelRequested: bool
    var cancelHandler: Option<nat>
    var cancels: seq<nat>
    var brokerAlive: bool
    var audited: seq<Call>
    ghost var registered: seq<Handler>

    ghost function View(): State
      reads this
    {
      State(result, waiting, [], called, registered, cancelRequested, cancelHandler, cancels, brokerAlive, audited)
    }

    ghost predicate Valid()
      reads this
    {
      Sound(View())
    }

    constructor ()
      ensures Valid() && View() == Initial
    {
      result, waiting, called, cancelRequested, cancelHandler, cancels := None, [], [], false, None, [];
      brokerAlive, audited := true, [];
      registered := [];
      new;
      InitialSound();
    }

    method RunHandler(handler: Handler, outcome: Result)
      modifies `called, `audited
      ensures called == old(called) + [Call(handler, outcome)]
      ensures audited == old(audited) + Heard(View(), [Call(handler, outcome)])
    {
      AuditOne(Call(handler, outcome));
      called := called + [Call(handler, outcome)];
      if handler.Audit? && brokerAlive {
        audited := audited + [Call(handler, outcome)];
      }
    }

    method RunHandlers(handlers: seq<Handler>, outcome: Result)
      modifies `called, `audited
      ensures called == old(called) + Calls(handlers, outcome)
      ensures audited == old(audited) + Heard(View(), Calls(handlers, outcome))
    {
      hide AuditCalls;
      ghost var calls := Calls(handlers, outcome);
      assert calls[..0] == [] && AuditCalls([]) == [] by { NoAudit(); }
      for i := 0 to |handlers|
        modifies `called, `audited
        invariant called == old(called) + calls[..i]
        invariant audited == old(audited) + Heard(View(), calls[..i])
      {
        RunHandler(handlers[i], outcome);
        assert calls[..i + 1] == calls[..i] + [calls[i]];
        AuditConcat(calls[..i], [calls[i]]);
      }
      assert calls[..|handlers|] == calls;
    }

    /** Writes the result unless there is one; tells every waiting handler. */
    method CompleteWith(outcome: Result) returns (won: bool)
      requires Valid()
      modifies this
      ensures won == old(result).None?
      ensures View() == RunAll(Complete(old(View()), outcome))
      ensures Valid()
    {
      hide RunAll, Sound, Heard, Calls;
      ApplySound(View(), CompleteStep(outcome));
      RunAllSound(Complete(View(), outcome));
      RunAllCalls(Complete(View(), outcome));
      if result.Some? {
        RunNone(View());
        return false;
      }
      assert Complete(View(), outcome).due == Calls(waiting, outcome);
      result := Some(outcome);
      var handlers := waiting;
      waiting := [];
      RunHandlers(handlers, outcome);
      SameHeard(Complete(old(View()), outcome), View(), Calls(handlers, outcome));
      return true;
    }

    method CancelOperation()
      requires Valid()
      modifies this
      ensures View() == RunAll(Cancel(old(View())))
      ensures Valid()
    {
      hide RunAll, Sound, Heard, Calls;
      ApplySound(View(), CancelStep);
      RunAllSound(Cancel(View()));
      RunAllCalls(Cancel(View()));
      if result.Some? {
        RunNone(View());
        return;
      }
      assert Cancel(View()).due == Calls(waiting, Cancelled);
      cancelRequested := true;
      result := Some(Cancelled);
      var handlers := waiting;
      waiting := [];
      if cancelHandler.Some? {
        cancels := cancels + [cancelHandler.value];
      }
      RunHandlers(handlers, Cancelled);
      SameHeard(Cancel(old(View())), View(), Calls(handlers, Cancelled));
    }

    /** A late handler is called at once, an early one waits. */
    method Observe(handler: Handler)
      requires Valid()
      modifies this
      ensures View() == RunAll(OnComplete(old(View()), handler))
      ensures Valid()
    {
      hide RunAll, Sound, Heard;
      ApplySound(View(), OnCompleteStep(handler));
      RunAllSound(OnComplete(View(), handler));
      RunAllCalls(OnComplete(View(), handler));
      if result.None? {
        waiting := waiting + [handler];
        registered := registered + [handler];
        RunNone(View());
        return;
      }
      assert OnComplete(View(), handler).due == [Call(handler, result.value)];
      registered := registered + [handler];
      RunHandler(handler, result.value);
      SameHeard(OnComplete(old(View()), handler), View(), [Call(handler, result.value)]);
    }

    method GiveCancelHandler(handler: nat)
      requires Valid()
      modifies this
      ensures View() == SetCancelHandler(old(View()), handler)
      ensures Valid()
    {
      hide Sound;
      ApplySound(View(), SetCancelHandlerStep(handler));
      cancelHandler := Some(handler);
      if cancelRequested {
        cancels := cancels + [handler];
      }
    }
  }
}

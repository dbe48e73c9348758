/**
 The manager's map from device id to its leaf adapter. Callers get a leaf and
 start operations on it; a reset retires the leaf, waits until no operation runs
 on it, resets it and only then lets a replacement be created. Steps are the
 locked regions; a caller may hold a leaf across any of them.
 */
module DeviceContexts {
  import opened Wrappers

  datatype Phase = NotReset | Resetting | ResetDone

  datatype Leaf = Leaf(device: string, inFlight: nat, retired: bool, phase: Phase)

  datatype Action =
    | Created(leaf: nat, device: string)
    | OperationStarted(leaf: nat)
    | OperationEnded(leaf: nat)
    | Retired(leaf: nat)
    | ResetStarted(leaf: nat)
    | ResetFinished(leaf: nat)

  datatype State = State(
    leaves: seq<Leaf>,
    contexts: map<string, nat>,
    retiring: set<string>,
    log: seq<Action>)

  const Initial := State([], map[], {}, [])

  // ---------------------------------------------------------------------- steps

  /** Finds or creates the leaf of a device; `allowed` stands for the descriptor checks. */
  function ContextFor(s: State, device: string, create: bool, allowed: bool): (State, Option<nat>) {
    if device == "" || device in s.retiring || !allowed then (s, None)
    else if device in s.contexts then (s, Some(s.contexts[device]))
    else if !create then (s, None)
    else
      var leaf := |s.leaves|;
      (s.(leaves := s.leaves + [Leaf(device, 0, false, NotReset)], contexts := s.contexts[device := leaf],
          log := s.log + [Created(leaf, device)]), Some(leaf))
  }

  function Update(s: State, leaf: nat, value: Leaf, action: Action): State
    requires leaf < |s.leaves|
  {
    s.(leaves := s.leaves[leaf := value], log := s.log + [action])
  }

  /** Any holder of a leaf may try to start an operation on it, however late. */
  function BeginOperation(s: State, leaf: nat): State {
    if leaf >= |s.leaves| || s.leaves[leaf].retired then s
    else Update(s, leaf, s.leaves[leaf].(inFlight := s.leaves[leaf].inFlight + 1), OperationStarted(leaf))
  }

  function EndOperation(s: State, leaf: nat): State {
    if leaf >= |s.leaves| || s.leaves[leaf].inFlight == 0 then s
    else Update(s, leaf, s.leaves[leaf].(inFlight := s.leaves[leaf].inFlight - 1), OperationEnded(leaf))
  }

  /** The first reset of a device owns its retirement; later ones return at once. */
  function BeginReset(s: State, device: string): State {
    if device !in s.contexts || device in s.retiring || s.contexts[device] >= |s.leaves| then s
    else
      var leaf := s.contexts[device];
      Update(s.(retiring := s.retiring + {device}), leaf, s.leaves[leaf].(retired := true), Retired(leaf))
  }

  /** The owner's wait is over: no operation runs on the retired leaf. */
  function StartLeafReset(s: State, device: string): State {
    if device !in s.retiring || device !in s.contexts || s.contexts[device] >= |s.leaves| then s
    else
      var leaf := s.contexts[device];
      if s.leaves[leaf].phase != NotReset || s.leaves[leaf].inFlight != 0 then s
      else Update(s, leaf, s.leaves[leaf].(phase := Resetting), ResetStarted(leaf))
  }

  function FinishLeafReset(s: State, device: string): State {
    if device !in s.retiring || device !in s.contexts || s.contexts[device] >= |s.leaves| then s
    else
      var leaf := s.contexts[device];
      if s.leaves[leaf].phase != Resetting then s
      else Update(s, leaf, s.leaves[leaf].(phase := ResetDone), ResetFinished(leaf))
  }

  /** The owner forgets the leaf and lets the device be used again. */
  function Release(s: State, device: string): State {
    if device !in s.retiring || device !in s.contexts || s.contexts[device] >= |s.leaves| then s
    else if s.leaves[s.contexts[device]].phase != ResetDone then s
    else s.(contexts := s.contexts - {device}, retiring := s.retiring - {device})
  }

  datatype Step =
    | ContextForStep(device: string, create: bool, allowed: bool)
    | BeginOperationStep(leaf: nat)
    | EndOperationStep(leaf: nat)
    | BeginResetStep(device: string)
    | StartLeafResetStep(device: string)
    | FinishLeafResetStep(device: string)
    | ReleaseStep(device: string)

  function Apply(s: State, step: Step): State {
    match step
    case ContextForStep(d, create, allowed) => ContextFor(s, d, create, allowed).0
    case BeginOperationStep(l) => BeginOperation(s, l)
    case EndOperationStep(l) => EndOperation(s, l)
    case BeginResetStep(d) => BeginReset(s, d)
    case StartLeafResetStep(d) => StartLeafReset(s, d)
    case FinishLeafResetStep(d) => FinishLeafReset(s, d)
    case ReleaseStep(d) => Release(s, d)
  }

  function Execute(s: State, steps: seq<Step>): State
    decreases |steps|
  {
    if steps == [] then s else Apply(Execute(s, steps[..|steps| - 1]), steps[|steps| - 1])
  }

  // -------------------------------------------------------------- the rules

  /** What a reader of the log may expect, knowing only the leaves seen so far. */
  predicate Admits(leaves: seq<Leaf>, a: Action) {
    match a
    case Created(l, d) =>
      l == |leaves| && forall i | 0 <= i < |leaves| && leaves[i].device == d :: leaves[i].phase == ResetDone
    case OperationStarted(l) => l < |leaves| && !leaves[l].retired && leaves[l].phase == NotReset
    case OperationEnded(l) => l < |leaves| && leaves[l].inFlight > 0
    case Retired(l) => l < |leaves| && !leaves[l].retired
    case ResetStarted(l) => l < |leaves| && leaves[l].retired && leaves[l].inFlight == 0 && leaves[l].phase == NotReset
    case ResetFinished(l) => l < |leaves| && leaves[l].inFlight == 0 && leaves[l].phase == Resetting
  }

  function Advance(leaves: seq<Leaf>, a: Action): seq<Leaf>
    requires Admits(leaves, a)
  {
    match a
    case Created(l, d) => leaves + [Leaf(d, 0, false, NotReset)]
    case OperationStarted(l) => leaves[l := leaves[l].(inFlight := leaves[l].inFlight + 1)]
    case OperationEnded(l) => leaves[l := leaves[l].(inFlight := leaves[l].inFlight - 1)]
    case Retired(l) => leaves[l := leaves[l].(retired := true)]
    case ResetStarted(l) => leaves[l := leaves[l].(phase := Resetting)]
    case ResetFinished(l) => leaves[l := leaves[l].(phase := ResetDone)]
  }

  function Read(log: seq<Action>): Option<seq<Leaf>>
    decreases |log|
  {
    if log == [] then Some([])
    else
      var n := |log| - 1;
      var leaves := Read(log[..n]);
      if leaves.Some? && Admits(leaves.value, log[n]) then Some(Advance(leaves.value, log[n])) else None
  }

  lemma ReadOne(log: seq<Action>, a: Action)
    requires Read(log).Some? && Admits(Read(log).value, a)
    ensures Read(log + [a]) == Some(Advance(Read(log).value, a))
  {
    assert (log + [a])[..|log|] == log;
  }

  // ------------------------------------------------------------------ invariant

  /** A leaf that is not yet reset is the one its device maps to; a retired one has its device fenced. */
  predicate Mapped(s: State) {
    && (forall d | d in s.contexts :: s.contexts[d] < |s.leaves| && s.leaves[s.contexts[d]].device == d)
    && (forall l | 0 <= l < |s.leaves| && s.leaves[l].phase != ResetDone ::
          s.leaves[l].device in s.contexts && s.contexts[s.leaves[l].device] == l)
    && (forall d | d in s.contexts :: s.leaves[s.contexts[d]].retired <==> d in s.retiring)
    && (forall d | d in s.retiring :: d in s.contexts)
  }

  predicate Quiet(s: State) {
    forall l | 0 <= l < |s.leaves| && s.leaves[l].phase != NotReset :: s.leaves[l].retired && s.leaves[l].inFlight == 0
  }

  ghost predicate Sound(s: State) {
    Mapped(s) && Quiet(s) && Read(s.log) == Some(s.leaves)
  }

  lemma ApplySound(s: State, step: Step)
    requires Sound(s)
    ensures Sound(Apply(s, step))
  {
    hide Read, Mapped, Quiet;
    var t := Apply(s, step);
    ApplyMapped(s, step);
    if t.log != s.log {
      var a := t.log[|s.log|];
      assert t.log == s.log + [a];
      if step.ContextForStep? {
        CreateAdmitted(s, step.device);
      } else {
        ActionAdmitted(s, step);
      }
      ReadOne(s.log, a);
    }
  }

  lemma ApplyMapped(s: State, step: Step)
    requires Mapped(s) && Quiet(s)
    ensures Mapped(Apply(s, step)) && Quiet(Apply(s, step))
  {
    hide Mapped;
    var t := Apply(s, step);
    match step
    case ContextForStep(d, create, allowed) => CreateMapped(s, d, create, allowed);
    case BeginResetStep(d) => RetireMapped(s, d);
    case ReleaseStep(d) => ReleaseMapped(s, d);
    case StartLeafResetStep(d) => StartMapped(s, d);
    case FinishLeafResetStep(d) => FinishMapped(s, d);
    case BeginOperationStep(l) => if t != s { LeafMapped(s, t, l); }
    case EndOperationStep(l) => if t != s { LeafMapped(s, t, l); }
  }

  /** A change of one leaf's operation count. */
  lemma LeafMapped(s: State, t: State, leaf: nat)
    requires Mapped(s) && Quiet(s) && leaf < |s.leaves| && s.leaves[leaf].phase == NotReset
    requires t.contexts == s.contexts && t.retiring == s.retiring && |t.leaves| == |s.leaves|
    requires t.leaves == s.leaves[leaf := s.leaves[leaf].(inFlight := t.leaves[leaf].inFlight)]
    ensures Mapped(t) && Quiet(t)
  {
  }

  lemma StartMapped(s: State, device: string)
    requires Mapped(s) && Quiet(s)
    ensures var t := StartLeafReset(s, device); Mapped(t) && Quiet(t)
  {
  }

  lemma FinishMapped(s: State, device: string)
    requires Mapped(s) && Quiet(s)
    ensures var t := FinishLeafReset(s, device); Mapped(t) && Quiet(t)
  {
  }

  lemma CreateMapped(s: State, device: string, create: bool, allowed: bool)
    requires Mapped(s) && Quiet(s)
    ensures var t := ContextFor(s, device, create, allowed).0; Mapped(t) && Quiet(t)
  {
  }

  lemma RetireMapped(s: State, device: string)
    requires Mapped(s) && Quiet(s)
    ensures var t := BeginReset(s, device); Mapped(t) && Quiet(t)
  {
  }

  lemma ReleaseMapped(s: State, device: string)
    requires Mapped(s) && Quiet(s)
    ensures var t := Release(s, device); Mapped(t) && Quiet(t)
  {
  }

  lemma ActionAdmitted(s: State, step: Step)
    requires Mapped(s) && Quiet(s) && !step.ContextForStep?
    ensures var t := Apply(s, step); t.log == s.log || Admits(s.leaves, t.log[|s.log|])
  {
  }

  lemma CreateAdmitted(s: State, device: string)
    requires Mapped(s) && device !in s.contexts
    ensures Admits(s.leaves, Created(|s.leaves|, device))
  {
  }

  lemma {:induction false} ExecuteSound(steps: seq<Step>)
    ensures Sound(Execute(Initial, steps))
    decreases |steps|
  {
    hide Apply, Sound;
    if steps == [] {
      assert Sound(Initial) by { InitialSound(); }
    } else {
      ExecuteSound(steps[..|steps| - 1]);
      ApplySound(Execute(Initial, steps[..|steps| - 1]), steps[|steps| - 1]);
    }
  }

  lemma InitialSound()
    ensures Sound(Initial)
  {
  }

  // ------------------------------------------------------------------- theorems

  /**
   On every run of callers and resets the log obeys the rules, and each device
   has at most one leaf whose reset has not finished.
   */
  lemma EveryRunObeysRules(steps: seq<Step>)
    ensures var s := Execute(Initial, steps);
            && Read(s.log).Some?
            && forall i, j
                 | 0 <= i < |s.leaves| && 0 <= j < |s.leaves| && i != j && s.leaves[i].device == s.leaves[j].device ::
                 s.leaves[i].phase == ResetDone || s.leaves[j].phase == ResetDone
  {
    hide Execute, Read;
    ExecuteSound(steps);
  }

  lemma {:induction false} ReadPrefix(log: seq<Action>, n: nat)
    requires Read(log).Some? && n <= |log|
    ensures Read(log[..n]).Some?
    decreases |log|
  {
    if n < |log| {
      assert log[..|log| - 1][..n] == log[..n];
      ReadPrefix(log[..|log| - 1], n);
    } else {
      assert log[..n] == log;
    }
  }

  lemma AdvanceKeepsRetired(leaves: seq<Leaf>, a: Action, leaf: nat)
    requires Admits(leaves, a)
    requires (leaf < |leaves| && leaves[leaf].retired) || a == Retired(leaf)
    ensures leaf < |Advance(leaves, a)| && Advance(leaves, a)[leaf].retired
  {
  }

  lemma ReadLast(log: seq<Action>, n: nat)
    requires n < |log| && Read(log[..n + 1]).Some?
    ensures Read(log[..n]).Some? && Admits(Read(log[..n]).value, log[n])
    ensures Read(log[..n + 1]) == Some(Advance(Read(log[..n]).value, log[n]))
  {
    hide Admits, Advance;
    assert log[..n + 1][..n] == log[..n];
  }

  /** A leaf stays retired. */
  lemma {:induction false} StaysRetired(log: seq<Action>, i: nat, n: nat)
    requires Read(log).Some? && i < n <= |log| && log[i].Retired?
    ensures Read(log[..n]).Some? && log[i].leaf < |Read(log[..n]).value| && Read(log[..n]).value[log[i].leaf].retired
    decreases n
  {
    hide Read, Admits, Advance;
    ReadPrefix(log, n);
    ReadLast(log, n - 1);
    if n > i + 1 {
      StaysRetired(log, i, n - 1);
    }
    AdvanceKeepsRetired(Read(log[..n - 1]).value, log[n - 1], log[i].leaf);
  }

  /** No operation starts on a leaf after it was retired, so none runs during or after its reset. */
  lemma NothingStartsOnRetired(log: seq<Action>, i: nat, j: nat)
    requires Read(log).Some? && i < j < |log| && log[i].Retired? && log[j].OperationStarted?
    ensures log[j].leaf != log[i].leaf
  {
    hide Read;
    StaysRetired(log, i, j);
    ReadPrefix(log, j + 1);
    ReadLast(log, j);
  }

  /** The leaf of a device that has not finished its reset. */
  predicate Live(s: State, leaf: nat, device: string) {
    leaf < |s.leaves| && s.leaves[leaf].device == device && s.leaves[leaf].phase != ResetDone
  }

  /**
   Asking for a device's leaf: nothing while it is being retired; otherwise its one
   live leaf, which is not retired; otherwise a new one, if that is asked for.
   */
  lemma ContextExact(s: State, device: string, create: bool, allowed: bool)
    requires Sound(s)
    ensures var (t, leaf) := ContextFor(s, device, create, allowed);
            if device == "" || !allowed || device in s.retiring then t == s && leaf.None?
            else if exists l :: Live(s, l, device) then
              t == s && leaf.Some? && Live(s, leaf.value, device) && !s.leaves[leaf.value].retired
            else if create then
              && leaf == Some(|s.leaves|) && Live(t, |s.leaves|, device)
              && t.leaves[..|s.leaves|] == s.leaves && |t.leaves| == |s.leaves| + 1
              && !t.leaves[|s.leaves|].retired && t.leaves[|s.leaves|].inFlight == 0
            else t == s && leaf.None?
  {
    hide Read;
    if device in s.contexts && device !in s.retiring {
      assert Live(s, s.contexts[device], device);
    }
  }

  /** A reset that finds its leaf idle goes through, and the device then gets a new leaf. */
  lemma ResetThenReuse(s: State, device: string)
    requires Sound(s) && device != "" && device in s.contexts && device !in s.retiring
    requires s.leaves[s.contexts[device]].inFlight == 0
    ensures var r := Release(FinishLeafReset(StartLeafReset(BeginReset(s, device), device), device), device);
            && s.contexts[device] < |r.leaves| == |s.leaves|
            && r.leaves[s.contexts[device]] == Leaf(device, 0, true, ResetDone)
            && ContextFor(r, device, true, true).1 == Some(|s.leaves|)
  {
    hide Read;
    var leaf := s.contexts[device];
    assert s.leaves[leaf].phase == NotReset;
  }

  /** An operation in progress holds the reset back, and lets it go when it ends. */
  lemma ResetWaits(s: State, device: string)
    requires Sound(s) && device in s.retiring
    requires s.leaves[s.contexts[device]].phase == NotReset
    ensures var leaf, t := s.contexts[device], StartLeafReset(s, device);
            if s.leaves[leaf].inFlight > 0 then
              && t == s
              && EndOperation(s, leaf).leaves[leaf].inFlight == s.leaves[leaf].inFlight - 1
            else t.leaves[leaf].phase == Resetting
  {
    hide Read;
  }

  // ------------------------------------------------------------------ the object

  class Manager {
    var leaves: seq<Leaf>
    var contexts: map<string, nat>
    var retiring: set<string>
    ghost var log: seq<Action>

    ghost function View(): State
      reads this
    {
      State(leaves, contexts, retiring, log)
    }

    constructor ()
      ensures View() == Initial
    {
      leaves, contexts, retiring, log := [], map[], {}, [];
    }

    method FindOrCreate(device: string, create: bool, allowed: bool) returns (leaf: Option<nat>)
      modifies this
      ensures (View(), leaf) == ContextFor(old(View()), device, create, allowed)
    {
      if device == "" || device in retiring || !allowed {
        return None;
      }
      if device in contexts {
        return Some(contexts[device]);
      }
      if !create {
        return None;
      }
      leaf := Some(|leaves|);
      leaves := leaves + [Leaf(device, 0, false, NotReset)];
      contexts := contexts[device := leaf.value];
      log := log + [Created(leaf.value, device)];
    }

    method Begin(leaf: nat) returns (acquired: bool)
      modifies this
      ensures View() == BeginOperation(old(View()), leaf)
      ensures acquired <==> leaf < |old(leaves)| && !old(leaves)[leaf].retired
    {
      if leaf >= |leaves| || leaves[leaf].retired {
        return false;
      }
      leaves := leaves[leaf := leaves[leaf].(inFlight := leaves[leaf].inFlight + 1)];
      log := log + [OperationStarted(leaf)];
      return true;
    }

    method End(leaf: nat)
      modifies this
      ensures View() == EndOperation(old(View()), leaf)
    {
      if leaf < |leaves| && leaves[leaf].inFlight != 0 {
        leaves := leaves[leaf := leaves[leaf].(inFlight := leaves[leaf].inFlight - 1)];
        log := log + [OperationEnded(leaf)];
      }
    }

    method Retire(device: string) returns (owned: bool)
      modifies this
      ensures View() == BeginReset(old(View()), device)
      ensures owned <==> View() != old(View())
    {
      if device !in contexts || device in retiring || contexts[device] >= |leaves| {
        return false;
      }
      var leaf := contexts[device];
      retiring := retiring + {device};
      leaves := leaves[leaf := leaves[leaf].(retired := true)];
      log := log + [Retired(leaf)];
      return true;
    }
  }
}

/**
 Reply targets of the WebSocket transport: numbers that stand for one connection
 each, so that a reply finds the connection its request came from even when the
 connection id was closed and reused meanwhile. Steps are the regions under the
 clients mutex; connections are numbered in the order they opened.
 */
module ReplyTargets {
  import opened Wrappers

  /** The target counter is an unsigned 64-bit integer. */
  const WIDTH: nat := 0x1_0000_0000_0000_0000

  /** A received message, with the target captured for its reply and the connection it came from. */
  datatype Message = Message(id: string, target: nat, connection: Option<nat>)

  datatype State = State(
    clients: map<string, nat>,
    targets: map<string, nat>,
    ids: map<nat, string>,
    next: nat,
    opens: nat,
    received: seq<Message>)

  const Initial := State(map[], map[], map[], 1, 0, [])

  predicate Usable(ids: map<nat, string>, target: nat) {
    target != 0 && target !in ids
  }

  /** Skips 0 and targets in use; `fuel` bounds the search by one round of the counter. */
  function NextTarget(ids: map<nat, string>, next: nat, fuel: nat): nat
    decreases fuel
  {
    if fuel == 0 || Usable(ids, next) then next else NextTarget(ids, (next + 1) % WIDTH, fuel - 1)
  }

  /** How many steps of the counter lead from one target to another. */
  function Distance(from: nat, to: nat): nat
    requires from < WIDTH && to < WIDTH
  {
    if from <= to then to - from else to + WIDTH - from
  }

  /** One round of the counter finds a usable target when there is any. */
  lemma {:induction false} NextTargetUsable(ids: map<nat, string>, next: nat, fuel: nat, free: nat)
    requires next < WIDTH && free < WIDTH && Usable(ids, free) && Distance(next, free) <= fuel
    ensures var target := NextTarget(ids, next, fuel); Usable(ids, target) && target < WIDTH
    decreases fuel
  {
    if fuel > 0 && !Usable(ids, next) {
      NextTargetUsable(ids, (next + 1) % WIDTH, fuel - 1, free);
    }
  }

  lemma DistanceShort(from: nat, to: nat)
    requires from < WIDTH && to < WIDTH
    ensures Distance(from, to) <= WIDTH
  {
  }

  lemma TargetTaken(ids: map<nat, string>, next: nat, fuel: nat, free: nat)
    requires next < WIDTH && free < WIDTH && Usable(ids, free) && Distance(next, free) <= fuel
    requires !Usable(ids, next)
    ensures fuel > 0 && NextTarget(ids, next, fuel) == NextTarget(ids, (next + 1) % WIDTH, fuel - 1)
    ensures (next + 1) % WIDTH < WIDTH && Distance((next + 1) % WIDTH, free) == Distance(next, free) - 1
  {
  }

  lemma TargetFound(ids: map<nat, string>, next: nat, fuel: nat)
    requires Usable(ids, next)
    ensures NextTarget(ids, next, fuel) == next
  {
  }

  function RemoveTarget(s: State, id: string): State {
    if id !in s.targets then s
    else s.(ids := s.ids - {s.targets[id]}, targets := s.targets - {id})
  }

  /** Some target is free once the client's previous one is given back. */
  ghost predicate Room(s: State, id: string) {
    exists free | 0 <= free < WIDTH :: Usable(RemoveTarget(s, id).ids, free)
  }

  function Open(s: State, id: string): State {
    var t := RemoveTarget(s, id);
    var target := NextTarget(t.ids, t.next, WIDTH);
    t.(clients := t.clients[id := t.opens], targets := t.targets[id := target], ids := t.ids[target := id],
       next := (target + 1) % WIDTH, opens := t.opens + 1)
  }

  function Close(s: State, id: string): State {
    var t := RemoveTarget(s, id);
    t.(clients := t.clients - {id})
  }

  function Receive(s: State, id: string): State {
    s.(received := s.received + [Message(id, if id in s.targets then s.targets[id] else 0,
                                         if id in s.clients then Some(s.clients[id]) else None)])
  }

  /** The transport is closed; the counter goes on where it was. */
  function CloseTransport(s: State): State {
    s.(clients := map[], targets := map[], ids := map[], received := [])
  }

  /** The connection a reply to this target is sent on. */
  function Resolve(s: State, target: nat): Option<nat> {
    if target == 0 || target !in s.ids || s.ids[target] !in s.clients then None
    else Some(s.clients[s.ids[target]])
  }

  datatype Step = OpenStep(id: string) | CloseStep(id: string) | ReceiveStep(id: string) | CloseTransportStep

  function Apply(s: State, step: Step): State {
    match step
    case OpenStep(id) => Open(s, id)
    case CloseStep(id) => Close(s, id)
    case ReceiveStep(id) => Receive(s, id)
    case CloseTransportStep => CloseTransport(s)
  }

  function Execute(s: State, steps: seq<Step>): State
    decreases |steps|
  {
    if steps == [] then s else Apply(Execute(s, steps[..|steps| - 1]), steps[|steps| - 1])
  }

  // ------------------------------------------------------------------ invariant

  /** The two maps are inverses of each other, over exactly the connected clients. */
  predicate Inverse(s: State) {
    && s.targets.Keys == s.clients.Keys
    && (forall id | id in s.targets :: s.targets[id] in s.ids && s.ids[s.targets[id]] == id)
    && (forall target | target in s.ids :: s.ids[target] in s.targets && s.targets[s.ids[target]] == target)
  }

  /** Below 2^64 connections the n-th connection has target n, and no target was given twice. */
  predicate Fresh(s: State) {
    && s.next == (s.opens + 1) % WIDTH
    && (forall id | id in s.clients :: id in s.targets && s.targets[id] == s.clients[id] + 1)
    && (forall id | id in s.clients :: s.clients[id] < s.opens)
  }

  predicate Captured(s: State) {
    forall i | 0 <= i < |s.received| ::
      var m := s.received[i];
      if m.connection.Some? then m.target == m.connection.value + 1 else m.target == 0
  }

  predicate Sound(s: State) {
    Inverse(s) && Fresh(s) && Captured(s)
  }

  lemma RemoveInverse(s: State, id: string)
    requires Inverse(s)
    ensures var t := RemoveTarget(s, id);
            && t.targets.Keys == s.clients.Keys - {id}
            && (forall x | x in t.targets ::
                   t.targets[x] in t.ids && t.ids[t.targets[x]] == x && t.targets[x] == s.targets[x])
            && (forall target | target in t.ids :: t.ids[target] in t.targets && t.targets[t.ids[target]] == target)
  {
  }

  lemma OpenSound(s: State, id: string)
    requires Sound(s) && s.opens + 1 < WIDTH
    ensures Sound(Open(s, id))
  {
    hide Captured, Inverse, Fresh, NextTarget;
    var t, u := RemoveTarget(s, id), Open(s, id);
    NextIsFresh(s, id);
    OpenInverse(s, id);
    OpenFresh(s, id);
    SameReceived(s, u);
  }

  lemma NextIsFresh(s: State, id: string)
    requires Inverse(s) && Fresh(s) && s.opens + 1 < WIDTH
    ensures var t := RemoveTarget(s, id); NextTarget(t.ids, t.next, WIDTH) == s.opens + 1 && s.opens + 1 !in t.ids
  {
    hide NextTarget;
    RemoveInverse(s, id);
    var t := RemoveTarget(s, id);
    assert forall target | target in t.ids :: target == s.targets[t.ids[target]] == s.clients[t.ids[target]] + 1;
    TargetFound(t.ids, t.next, WIDTH);
  }

  lemma OpenInverse(s: State, id: string)
    requires Inverse(s)
    requires var t := RemoveTarget(s, id); NextTarget(t.ids, t.next, WIDTH) !in t.ids
    ensures Inverse(Open(s, id))
  {
    hide NextTarget, RemoveTarget;
    RemoveInverse(s, id);
    assert RemoveTarget(s, id).clients == s.clients by { RemoveKeeps(s, id); }
  }

  lemma RemoveKeeps(s: State, id: string)
    ensures var t := RemoveTarget(s, id);
            t.clients == s.clients && t.opens == s.opens && t.received == s.received && t.next == s.next
  {
  }

  lemma OpenFresh(s: State, id: string)
    requires Inverse(s) && Fresh(s) && s.opens + 1 < WIDTH
    requires var t := RemoveTarget(s, id); NextTarget(t.ids, t.next, WIDTH) == s.opens + 1
    ensures Fresh(Open(s, id))
  {
    hide NextTarget, RemoveTarget;
    RemoveInverse(s, id);
    RemoveKeeps(s, id);
  }

  lemma SameReceived(s: State, t: State)
    requires Captured(s) && t.received == s.received
    ensures Captured(t)
  {
  }

  lemma ApplySound(s: State, step: Step)
    requires Sound(s) && (step.OpenStep? ==> s.opens + 1 < WIDTH)
    ensures Sound(Apply(s, step))
  {
    match step
    case OpenStep(id) => OpenSound(s, id);
    case CloseStep(id) => RemoveInverse(s, id);
    case ReceiveStep(id) =>
    case CloseTransportStep =>
  }

  lemma ApplyInverse(s: State, step: Step)
    requires Inverse(s) && s.next < WIDTH && (step.OpenStep? ==> Room(s, step.id))
    ensures Inverse(Apply(s, step)) && Apply(s, step).next < WIDTH
  {
    match step
    case OpenStep(id) => OpenRoomyInverse(s, id);
    case CloseStep(id) => RemoveInverse(s, id);
    case ReceiveStep(id) =>
    case CloseTransportStep =>
  }

  lemma OpenRoomyInverse(s: State, id: string)
    requires Inverse(s) && s.next < WIDTH && Room(s, id)
    ensures Inverse(Open(s, id)) && Open(s, id).next < WIDTH
  {
    hide Inverse, NextTarget;
    var t := RemoveTarget(s, id);
    var free :| 0 <= free < WIDTH && Usable(t.ids, free);
    NextTargetUsable(t.ids, t.next, WIDTH, free);
    OpenInverse(s, id);
  }

  function Opens(steps: seq<Step>): nat {
    if steps == [] then 0
    else Opens(steps[..|steps| - 1]) + if steps[|steps| - 1].OpenStep? then 1 else 0
  }

  lemma {:induction false} ExecuteSound(s: State, steps: seq<Step>)
    requires Sound(s) && s.opens + Opens(steps) < WIDTH
    ensures Sound(Execute(s, steps)) && Execute(s, steps).opens == s.opens + Opens(steps)
    decreases |steps|
  {
    hide Sound;
    if steps != [] {
      ExecuteSound(s, steps[..|steps| - 1]);
      ApplySound(Execute(s, steps[..|steps| - 1]), steps[|steps| - 1]);
    }
  }

  // ------------------------------------------------------------------- theorems

  /** At each open some target is free: fewer than 2^64 - 1 clients are connected. */
  ghost predicate Roomy(s: State, steps: seq<Step>)
    decreases |steps|
  {
    steps == [] ||
    var n := |steps| - 1;
    Roomy(s, steps[..n]) && (steps[n].OpenStep? ==> Room(Execute(s, steps[..n]), steps[n].id))
  }

  lemma {:induction false} ExecuteInverse(s: State, steps: seq<Step>)
    requires Inverse(s) && s.next < WIDTH && Roomy(s, steps)
    ensures Inverse(Execute(s, steps)) && Execute(s, steps).next < WIDTH
    decreases |steps|
  {
    hide Inverse, Room;
    if steps != [] {
      ExecuteInverse(s, steps[..|steps| - 1]);
      ApplyInverse(Execute(s, steps[..|steps| - 1]), steps[|steps| - 1]);
    }
  }

  /** However often the counter wraps around, the two maps are inverses over the connected clients. */
  lemma MapsStayInverse(steps: seq<Step>)
    requires Roomy(Initial, steps)
    ensures Inverse(Execute(Initial, steps))
  {
    hide Execute, Roomy;
    ExecuteInverse(Initial, steps);
  }

  /**
   The target captured with a message resolves, after any closes and reopens, to
   the connection the message came from or to none.
   */
  lemma TargetNamesOneConnection(before: seq<Step>, id: string, after: seq<Step>)
    requires Opens(before) + Opens(after) < WIDTH
    ensures var s := Execute(Initial, before);
            var t := Receive(s, id);
            var m := t.received[|s.received|];
            var now := Resolve(Execute(t, after), m.target);
            now.None? || now == m.connection
  {
    hide Execute, Opens;
    ExecuteSound(Initial, before);
    var s := Execute(Initial, before);
    var t := Receive(s, id);
    ApplySound(s, ReceiveStep(id));
    ExecuteSound(t, after);
  }

  /** The step opens or closes the client anew, or closes everything. */
  predicate Touches(step: Step, id: string) {
    match step
    case OpenStep(other) => other == id
    case CloseStep(other) => other == id
    case ReceiveStep(_) => false
    case CloseTransportStep => true
  }

  predicate Untouched(steps: seq<Step>, id: string) {
    forall i | 0 <= i < |steps| :: !Touches(steps[i], id)
  }

  /** The connection is over: no client has it, and none will get its number again. */
  predicate Gone(s: State, connection: nat) {
    connection < s.opens && forall id | id in s.clients :: s.clients[id] != connection
  }

  lemma StepConnections(s: State, step: Step, id: string, connection: nat)
    requires Sound(s)
    ensures Gone(s, connection) ==> Gone(Apply(s, step), connection)
    ensures id in s.clients && s.clients[id] == connection ==>
              var t := Apply(s, step);
              if Touches(step, id) then Gone(t, connection) else id in t.clients && t.clients[id] == connection
  {
    hide NextTarget, Captured;
    if id in s.clients && s.clients[id] == connection {
      forall other | other in s.clients && s.clients[other] == connection ensures other == id {
        assert s.targets[other] == s.targets[id];
      }
    }
  }

  lemma {:induction false} ConnectionLasts(s: State, steps: seq<Step>, id: string)
    requires Sound(s) && s.opens + Opens(steps) < WIDTH && id in s.clients
    ensures var t := Execute(s, steps);
            if Untouched(steps, id) then id in t.clients && t.clients[id] == s.clients[id] else Gone(t, s.clients[id])
    decreases |steps|
  {
    hide Sound, Apply, Gone, Touches;
    if steps != [] {
      var n := |steps| - 1;
      ConnectionLasts(s, steps[..n], id);
      ExecuteSound(s, steps[..n]);
      StepConnections(Execute(s, steps[..n]), steps[n], id, s.clients[id]);
      assert Untouched(steps, id) <==> Untouched(steps[..n], id) && !Touches(steps[n], id);
    }
  }

  /**
   A reply reaches the connection its message came from if and only if the sender
   was connected and its connection was neither closed nor replaced since.
   */
  lemma ReplyReachesSender(before: seq<Step>, id: string, after: seq<Step>)
    requires Opens(before) + Opens(after) < WIDTH
    ensures var s := Execute(Initial, before);
            var t := Receive(s, id);
            var m := t.received[|s.received|];
            var now := Resolve(Execute(t, after), m.target);
            now.Some? <==> id in s.clients && Untouched(after, id)
  {
    hide Execute, Opens, Untouched, Gone, Captured;
    InitialSound();
    ExecuteSound(Initial, before);
    var s := Execute(Initial, before);
    var t := Receive(s, id);
    ApplySound(s, ReceiveStep(id));
    ExecuteSound(t, after);
    var u := Execute(t, after);
    if id in s.clients {
      ConnectionLasts(t, after, id);
      var connection := s.clients[id];
      if Untouched(after, id) {
        OpenTargetResolves(u, id);
      } else {
        GoneUnresolved(u, connection);
      }
    }
  }

  lemma InitialSound()
    ensures Sound(Initial)
  {
  }

  lemma GoneUnresolved(s: State, connection: nat)
    requires Sound(s) && Gone(s, connection)
    ensures Resolve(s, connection + 1).None?
  {
  }

  /** While the connection stays open, its reply target keeps resolving to it. */
  lemma OpenTargetResolves(s: State, id: string)
    requires Sound(s) && id in s.clients
    ensures Resolve(s, s.targets[id]) == Some(s.clients[id])
  {
  }

  // ------------------------------------------------------------------ the object

  class Transport {
    var clients: map<string, nat>
    var targets: map<string, nat>
    var ids: map<nat, string>
    var next: nat
    var received: seq<Message>
    ghost var opens: nat

    ghost function View(): State
      reads this
    {
      State(clients, targets, ids, next, opens, received)
    }

    ghost predicate Valid()
      reads this
    {
      Inverse(View()) && next < WIDTH
    }

    constructor ()
      ensures Valid() && View() == Initial
    {
      clients, targets, ids, next, received := map[], map[], map[], 1, [];
      opens := 0;
    }

    /** Advances the counter to the first usable target. */
    method TakeTarget() returns (target: nat)
      requires next < WIDTH && exists free | 0 <= free < WIDTH :: Usable(ids, free)
      modifies `next
      ensures target == NextTarget(ids, old(next), WIDTH) && next == (target + 1) % WIDTH
    {
      hide NextTarget, Distance;
      ghost var free :| 0 <= free < WIDTH && Usable(ids, free);
      ghost var fuel := WIDTH;
      DistanceShort(next, free);
      target := next;
      while !Usable(ids, target)
        invariant target < WIDTH && Distance(target, free) <= fuel
        invariant NextTarget(ids, target, fuel) == NextTarget(ids, old(next), WIDTH)
        decreases Distance(target, free)
      {
        TargetTaken(ids, target, fuel, free);
        target, fuel := (target + 1) % WIDTH, fuel - 1;
      }
      TargetFound(ids, target, fuel);
      next := (target + 1) % WIDTH;
    }

    method Forget(id: string)
      requires Valid()
      modifies `targets, `ids
      ensures View() == RemoveTarget(old(View()), id)
    {
      if id in targets {
        ids := ids - {targets[id]};
        targets := targets - {id};
      }
    }

    method OnOpen(id: string, connection: nat)
      requires Valid() && connection == opens && Room(View(), id)
      modifies this
      ensures Valid() && View() == Open(old(View()), id)
    {
      hide NextTarget, Inverse;
      OpenRoomyInverse(View(), id);
      ghost var free :| 0 <= free < WIDTH && Usable(RemoveTarget(View(), id).ids, free);
      Forget(id);
      clients := clients[id := connection];
      assert Usable(ids, free);
      assert exists x | 0 <= x < WIDTH :: Usable(ids, x);
      assert next < WIDTH;
      var target := TakeTarget();
      targets := targets[id := target];
      ids := ids[target := id];
      opens := opens + 1;
    }

    method OnClose(id: string)
      requires Valid()
      modifies this
      ensures Valid() && View() == Close(old(View()), id)
    {
      hide Inverse;
      ApplyInverse(View(), CloseStep(id));
      Forget(id);
      clients := clients - {id};
    }

    method OnMessage(id: string)
      requires Valid()
      modifies `received
      ensures Valid() && View() == Receive(old(View()), id)
    {
      var target := if id in targets then targets[id] else 0;
      var connection := if id in clients then Some(clients[id]) else None;
      received := received + [Message(id, target, connection)];
    }

    /** The connection a reply goes to, if the target's connection is still there. */
    method SendTo(target: nat) returns (connection: Option<nat>)
      requires Valid()
      ensures connection == Resolve(View(), target)
      ensures connection.Some? <==> target != 0 && target in ids
    {
      if target == 0 || target !in ids {
        return None;
      }
      return Some(clients[ids[target]]);
    }
  }
}

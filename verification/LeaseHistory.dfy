/**
 What the host grants, without its bookkeeping: a machine that only knows the
 live leases, the open reservation and the maintained devices. The activity
 counts and the owner map of `LeaseRegistry` are its fast form; on every run both
 grant and refuse the same calls.
 */
module LeaseHistory {
  import opened Wrappers
  import opened LeaseRegistry

  datatype Grants = Grants(
    running: bool,
    leases: map<nat, Lease>,
    reservation: Option<Lease>,
    maintained: set<string>,
    nextSession: nat)

  const NoGrants := Grants(false, map[], None, {}, 1)

  /** The device has a live lease, of media if `media` is set. */
  predicate Held(leases: map<nat, Lease>, device: string, media: bool) {
    exists id | id in leases :: leases[id].device == device && (media ==> leases[id].media)
  }

  function Decide(g: Grants, step: Step): Grants {
    match step
    case BeginAcquireStep(l, known) =>
      if g.reservation.None? && g.running && known && l.device !in g.maintained
         && !(l.media && Held(g.leases, l.device, true))
      then g.(reservation := Some(l)) else g
    case EndAcquireStep(opens, known) =>
      if g.reservation.None? then g
      else if opens && known
      then g.(reservation := None, leases := g.leases[g.nextSession := g.reservation.value],
              nextSession := g.nextSession + 1)
      else g.(reservation := None)
    case ReleaseStep(session) => if g.reservation.None? then g.(leases := g.leases - {session}) else g
    case ReserveStep(device, known) =>
      if g.reservation.None? && g.running && known && device !in g.maintained && !Held(g.leases, device, false)
      then g.(maintained := g.maintained + {device}) else g
    case GiveBackStep(device) => g.(maintained := g.maintained - {device})
    case ResetStep(sessions, running) =>
      if g.reservation.None? && Lists(sessions, g.leases)
      then g.(running := running, leases := map[], nextSession := 1) else g
  }

  function Decisions(steps: seq<Step>): Grants {
    if steps == [] then NoGrants else Decide(Decisions(steps[..|steps| - 1]), steps[|steps| - 1])
  }

  function GrantsOf(s: State): Grants {
    Grants(s.running, s.leases, s.reservation, s.maintained, s.nextSession)
  }

  /** The counts and the owner map say who holds what. */
  lemma BooksExact(s: State, device: string)
    requires Sound(s)
    ensures device in s.owners <==> Held(s.leases, device, true)
    ensures ActivityOf(s.registry, device).maintenance <==> device in s.maintained
    ensures s.reservation.None? ==>
              (MaintenanceFree(s.registry, device) <==> device !in s.maintained && !Held(s.leases, device, false))
  {
    hide Compact, LeaseRegistry.Exclusive, Numbered;
    assert ActivityOf(s.registry, device) ==
      Activity(Holdings(s, Lease(device, false)), Holdings(s, Lease(device, true)), device in s.maintained);
    var control, media := SessionsOf(s.leases, Lease(device, false)), SessionsOf(s.leases, Lease(device, true));
    if Held(s.leases, device, false) {
      var id :| id in s.leases && s.leases[id].device == device;
      assert id in control + media;
      assert control != {} || media != {};
    }
    if control != {} {
      var id :| id in control;
      assert s.leases[id].device == device;
    }
    if media != {} {
      var id :| id in media;
      assert s.leases[id].device == device;
    }
  }

  lemma StepDecides(s: State, step: Step)
    requires Sound(s)
    ensures GrantsOf(Apply(s, step)) == Decide(GrantsOf(s), step)
  {
    hide Sound, Held, ReleaseFirst, AcquireActivity, ReleaseActivity, Lists, MaintenanceFree, ActivityOf,
         ReleaseMaintenance;
    match step
    case BeginAcquireStep(l, known) => BooksExact(s, l.device);
    case EndAcquireStep(opens, known) => ReservedIsFree(s);
    case ReleaseStep(session) => assert session !in s.leases ==> s.leases - {session} == s.leases;
    case ReserveStep(device, known) => BooksExact(s, device);
    case GiveBackStep(device) => assert device !in s.maintained ==> s.maintained - {device} == s.maintained;
    case ResetStep(sessions, running) =>
  }

  lemma ReservedIsFree(s: State)
    requires Sound(s)
    ensures s.reservation.Some? && s.reservation.value.media ==> s.reservation.value.device !in s.owners
  {
    hide Counted, Compact, LeaseRegistry.Exclusive, Numbered;
  }

  /** On every run the host has granted exactly what the live leases and maintained devices allow. */
  lemma {:induction false} EveryRunDecides(steps: seq<Step>)
    ensures GrantsOf(Execute(Initial, steps)) == Decisions(steps)
    decreases |steps|
  {
    hide Apply, Decide;
    if steps != [] {
      var n := |steps| - 1;
      EveryRunDecides(steps[..n]);
      ExecuteSound(steps[..n]);
      StepDecides(Execute(Initial, steps[..n]), steps[n]);
    }
  }
}

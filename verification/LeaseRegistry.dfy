/**
 Session leases and maintenance leases of the host. The registry counts, per
 device, control and media activity and whether it is under maintenance. All
 host operations exclude each other, but an acquisition that waits for the
 device to open holds a reservation, and a maintenance lease may be given back
 at any moment, also after the host was stopped or restarted.
 */
module LeaseRegistry {
  import opened Wrappers

  datatype Activity = Activity(control: nat, media: nat, maintenance: bool)

  datatype Lease = Lease(device: string, media: bool)

  /** `maintained` are the devices whose maintenance lease has not been given back. */
  datatype State = State(
    running: bool,
    leases: map<nat, Lease>,
    owners: map<string, nat>,
    registry: map<string, Activity>,
    reservation: Option<Lease>,
    maintained: set<string>,
    nextSession: nat)

  const Initial := State(false, map[], map[], map[], None, {}, 1)

  const Unused := Activity(0, 0, false)

  function ActivityOf(registry: map<string, Activity>, device: string): Activity {
    if device in registry then registry[device] else Unused
  }

  // ------------------------------------------------------------------- registry

  /** An entry that records nothing is removed. */
  function Put(registry: map<string, Activity>, device: string, a: Activity): map<string, Activity> {
    if a == Unused then registry - {device} else registry[device := a]
  }

  function AcquireActivity(registry: map<string, Activity>, l: Lease): map<string, Activity> {
    var a := ActivityOf(registry, l.device);
    if a.maintenance then registry
    else registry[l.device := if l.media then a.(media := a.media + 1) else a.(control := a.control + 1)]
  }

  function ReleaseActivity(registry: map<string, Activity>, l: Lease): map<string, Activity> {
    if l.device !in registry then registry
    else
      var a := registry[l.device];
      Put(registry, l.device,
          if l.media then (if a.media == 0 then a else a.(media := a.media - 1))
          else if a.control == 0 then a else a.(control := a.control - 1))
  }

  predicate MaintenanceFree(registry: map<string, Activity>, device: string) {
    ActivityOf(registry, device) == Unused
  }

  function ReleaseMaintenance(registry: map<string, Activity>, device: string): map<string, Activity> {
    if device !in registry then registry else Put(registry, device, registry[device].(maintenance := false))
  }

  // ----------------------------------------------------------------------- host

  /** The first half of `acquire_session`, up to the reservation. */
  function BeginAcquire(s: State, l: Lease, known: bool): State {
    if s.reservation.Some? || !s.running || !known || (l.media && l.device in s.owners) then s
    else if ActivityOf(s.registry, l.device).maintenance then s
    else s.(registry := AcquireActivity(s.registry, l), reservation := Some(l))
  }

  /** The second half: a session and its lease, or the reservation goes back. */
  function EndAcquire(s: State, opens: bool, known: bool): State {
    if s.reservation.None? then s
    else
      var l := s.reservation.value;
      if !opens || !known || (l.media && l.device in s.owners)
      then s.(registry := ReleaseActivity(s.registry, l), reservation := None)
      else
        s.(leases := s.leases[s.nextSession := l], reservation := None, nextSession := s.nextSession + 1,
           owners := if l.media then s.owners[l.device := s.nextSession] else s.owners)
  }

  function Release(s: State, session: nat): State {
    if s.reservation.Some? || session !in s.leases then s
    else
      var l := s.leases[session];
      s.(leases := s.leases - {session}, registry := ReleaseActivity(s.registry, l),
         owners := if l.media && l.device in s.owners && s.owners[l.device] == session then s.owners - {l.device}
                   else s.owners)
  }

  function Reserve(s: State, device: string, known: bool): State {
    if s.reservation.Some? || !s.running || !known || !MaintenanceFree(s.registry, device) then s
    else s.(registry := s.registry[device := Activity(0, 0, true)], maintained := s.maintained + {device})
  }

  /** The holder of a maintenance lease gives it back, once. */
  function GiveBack(s: State, device: string): State {
    if device !in s.maintained then s
    else s.(registry := ReleaseMaintenance(s.registry, device), maintained := s.maintained - {device})
  }

  /** Releases the activity of the first `n` sessions. */
  function ReleaseFirst(registry: map<string, Activity>, leases: map<nat, Lease>, sessions: seq<nat>, n: nat)
    : map<string, Activity>
    requires n <= |sessions| && forall id | id in sessions :: id in leases
  {
    if n == 0 then registry
    else ReleaseActivity(ReleaseFirst(registry, leases, sessions, n - 1), leases[sessions[n - 1]])
  }

  /** The sessions of the leases, each once. */
  predicate Lists(sessions: seq<nat>, leases: map<nat, Lease>) {
    && (forall id | id in sessions :: id in leases) && (forall id | id in leases :: id in sessions)
    && forall i, j | 0 <= i < j < |sessions| :: sessions[i] != sessions[j]
  }

  /** Starting resets first; both forget every lease and start numbering sessions anew. */
  function Reset(s: State, sessions: seq<nat>, running: bool): State {
    if s.reservation.Some? || !Lists(sessions, s.leases) then s
    else
      s.(running := running, leases := map[], owners := map[], nextSession := 1,
         registry := ReleaseFirst(s.registry, s.leases, sessions, |sessions|))
  }

  datatype Step =
    | BeginAcquireStep(lease: Lease, known: bool)
    | EndAcquireStep(opens: bool, known: bool)
    | ReleaseStep(session: nat)
    | ReserveStep(device: string, known: bool)
    | GiveBackStep(device: string)
    | ResetStep(sessions: seq<nat>, running: bool)

  function Apply(s: State, step: Step): State {
    match step
    case BeginAcquireStep(l, known) => BeginAcquire(s, l, known)
    case EndAcquireStep(opens, known) => EndAcquire(s, opens, known)
    case ReleaseStep(id) => Release(s, id)
    case ReserveStep(d, known) => Reserve(s, d, known)
    case GiveBackStep(d) => GiveBack(s, d)
    case ResetStep(ids, running) => Reset(s, ids, running)
  }

  function Execute(s: State, steps: seq<Step>): State
    decreases |steps|
  {
    if steps == [] then s else Apply(Execute(s, steps[..|steps| - 1]), steps[|steps| - 1])
  }

  // ------------------------------------------------------------------ invariant

  function SessionsOf(leases: map<nat, Lease>, l: Lease): set<nat> {
    set id | id in leases && leases[id] == l
  }

  /** Live leases of a device and kind, and the reservation if it is one. */
  function Holdings(s: State, l: Lease): nat {
    |SessionsOf(s.leases, l)| + if s.reservation == Some(l) then 1 else 0
  }

  ghost predicate Counted(s: State) {
    forall d: string ::
      ActivityOf(s.registry, d) ==
        Activity(Holdings(s, Lease(d, false)), Holdings(s, Lease(d, true)), d in s.maintained)
  }

  predicate Compact(registry: map<string, Activity>) {
    forall d | d in registry :: registry[d] != Unused
  }

  predicate Exclusive(s: State) {
    forall d | d in s.maintained ::
      ActivityOf(s.registry, d).control == 0 && ActivityOf(s.registry, d).media == 0
  }

  /** The owner map holds exactly the media leases, one per device. */
  predicate Owned(s: State) {
    && (forall d | d in s.owners :: s.owners[d] in s.leases && s.leases[s.owners[d]] == Lease(d, true))
    && (forall id | id in s.leases && s.leases[id].media ::
          s.leases[id].device in s.owners && s.owners[s.leases[id].device] == id)
    && (s.reservation.Some? && s.reservation.value.media ==> s.reservation.value.device !in s.owners)
  }

  predicate Numbered(s: State) {
    forall id | id in s.leases :: id < s.nextSession
  }

  ghost predicate Sound(s: State) {
    Counted(s) && Compact(s.registry) && Exclusive(s) && Owned(s) && Numbered(s)
  }

  lemma CountAdd(leases: map<nat, Lease>, id: nat, l: Lease, m: Lease)
    requires id !in leases
    ensures |SessionsOf(leases[id := l], m)| == |SessionsOf(leases, m)| + if l == m then 1 else 0
  {
    var a, b := SessionsOf(leases, m), SessionsOf(leases[id := l], m);
    assert b == if l == m then a + {id} else a;
  }

  lemma CountRemove(leases: map<nat, Lease>, id: nat, m: Lease)
    requires id in leases
    ensures |SessionsOf(leases, m)| == |SessionsOf(leases - {id}, m)| + if leases[id] == m then 1 else 0
  {
    var a, b := SessionsOf(leases, m), SessionsOf(leases - {id}, m);
    assert a == if leases[id] == m then b + {id} else b;
  }

  lemma AcquireCounts(registry: map<string, Activity>, l: Lease, d: string)
    requires !ActivityOf(registry, l.device).maintenance
    ensures var a, b := ActivityOf(registry, d), ActivityOf(AcquireActivity(registry, l), d);
            b == if d != l.device then a else if l.media then a.(media := a.media + 1) else a.(control := a.control + 1)
    ensures Compact(registry) ==> Compact(AcquireActivity(registry, l))
  {
  }

  lemma ReleaseCounts(registry: map<string, Activity>, l: Lease, d: string)
    requires var held := ActivityOf(registry, l.device);
             Compact(registry) && if l.media then held.media > 0 else held.control > 0
    ensures var a, b := ActivityOf(registry, d), ActivityOf(ReleaseActivity(registry, l), d);
            && (d == l.device ==> (if l.media then a.media else a.control) > 0)
            && (d != l.device ==> b == a)
            && (d == l.device && l.media ==> b == a.(media := a.media - 1))
            && (d == l.device && !l.media ==> b == a.(control := a.control - 1))
    ensures Compact(ReleaseActivity(registry, l))
  {
  }

  lemma BeginAcquireSound(s: State, l: Lease, known: bool)
    requires Sound(s)
    ensures Sound(BeginAcquire(s, l, known))
  {
    hide AcquireActivity, SessionsOf;
    var t := BeginAcquire(s, l, known);
    if t != s {
      forall d: string ensures ActivityOf(t.registry, d) ==
        Activity(Holdings(t, Lease(d, false)), Holdings(t, Lease(d, true)), d in t.maintained)
      {
        AcquireCounts(s.registry, l, d);
      }
      AcquireCounts(s.registry, l, l.device);
    }
  }

  lemma HeldIsCounted(s: State, l: Lease)
    requires Counted(s) && Holdings(s, l) > 0
    ensures if l.media then ActivityOf(s.registry, l.device).media > 0 else ActivityOf(s.registry, l.device).control > 0
  {
  }

  /** Giving up activity never brings any to a device under maintenance. */
  lemma ReleaseExclusive(s: State, t: State, l: Lease)
    requires Exclusive(s) && Compact(s.registry) && t.maintained == s.maintained
    requires t.registry == ReleaseActivity(s.registry, l)
    requires var held := ActivityOf(s.registry, l.device); if l.media then held.media > 0 else held.control > 0
    ensures Exclusive(t)
  {
    hide ReleaseActivity, ActivityOf;
    forall d | d in t.maintained
      ensures ActivityOf(t.registry, d).control == 0 && ActivityOf(t.registry, d).media == 0
    {
      ReleaseCounts(s.registry, l, d);
    }
  }

  lemma AbandonSound(s: State)
    requires Sound(s) && s.reservation.Some?
    ensures Sound(s.(registry := ReleaseActivity(s.registry, s.reservation.value), reservation := None))
  {
    hide ReleaseActivity, SessionsOf, Owned, Numbered, ActivityOf;
    var l := s.reservation.value;
    var t := s.(registry := ReleaseActivity(s.registry, l), reservation := None);
    HeldIsCounted(s, l);
    ReleaseExclusive(s, t, l);
    forall d: string ensures ActivityOf(t.registry, d) ==
      Activity(Holdings(t, Lease(d, false)), Holdings(t, Lease(d, true)), d in t.maintained)
    {
      ReleaseCounts(s.registry, l, d);
    }
    ReleaseCounts(s.registry, l, l.device);
    assert Owned(t) && Numbered(t) by { OwnedFrame(s, t); }
  }

  lemma OwnedFrame(s: State, t: State)
    requires Owned(s) && Numbered(s) && t.leases == s.leases && t.owners == s.owners && t.reservation.None?
    requires t.nextSession == s.nextSession
    ensures Owned(t) && Numbered(t)
  {
  }

  lemma CommitCounted(s: State)
    requires Counted(s) && Numbered(s) && s.reservation.Some?
    ensures Counted(s.(leases := s.leases[s.nextSession := s.reservation.value], reservation := None))
  {
    hide SessionsOf, ActivityOf;
    var l := s.reservation.value;
    var t := s.(leases := s.leases[s.nextSession := l], reservation := None);
    forall d: string ensures ActivityOf(t.registry, d) ==
      Activity(Holdings(t, Lease(d, false)), Holdings(t, Lease(d, true)), d in t.maintained)
    {
      CountAdd(s.leases, s.nextSession, l, Lease(d, false));
      CountAdd(s.leases, s.nextSession, l, Lease(d, true));
    }
  }

  lemma EndAcquireSound(s: State, opens: bool, known: bool)
    requires Sound(s)
    ensures Sound(EndAcquire(s, opens, known))
  {
    hide ReleaseActivity, SessionsOf, Counted, ActivityOf;
    if s.reservation.Some? {
      AbandonSound(s);
      CommitCounted(s);
      CountedFrame(s.(leases := s.leases[s.nextSession := s.reservation.value], reservation := None),
                   EndAcquire(s, true, true));
    }
  }

  lemma CountedFrame(s: State, t: State)
    requires Counted(s)
    ensures (&& t.leases == s.leases && t.registry == s.registry && t.reservation == s.reservation
             && t.maintained == s.maintained) ==> Counted(t)
  {
    hide SessionsOf, ActivityOf;
    if t.leases == s.leases && t.registry == s.registry
       && t.reservation == s.reservation && t.maintained == s.maintained {
      forall d: string ensures ActivityOf(t.registry, d) ==
        Activity(Holdings(t, Lease(d, false)), Holdings(t, Lease(d, true)), d in t.maintained)
      {
        assert ActivityOf(s.registry, d) ==
          Activity(Holdings(s, Lease(d, false)), Holdings(s, Lease(d, true)), d in s.maintained);
      }
    }
  }

  lemma ReleaseSound(s: State, session: nat)
    requires Sound(s)
    ensures Sound(Release(s, session))
  {
    hide ReleaseActivity, SessionsOf, Counted, ActivityOf;
    var t := Release(s, session);
    if s.reservation.None? && session in s.leases {
      var l := s.leases[session];
      ReleaseOne(s, session);
      CountedFrame(s.(registry := ReleaseActivity(s.registry, l), leases := s.leases - {session}), t);
      LeaseIsCounted(s, session);
      ReleaseExclusive(s, t, l);
    }
  }

  lemma LeaseIsCounted(s: State, session: nat)
    requires Counted(s) && session in s.leases
    ensures var l := s.leases[session];
            if l.media then ActivityOf(s.registry, l.device).media > 0 else ActivityOf(s.registry, l.device).control > 0
  {
    CountRemove(s.leases, session, s.leases[session]);
    HeldIsCounted(s, s.leases[session]);
  }

  lemma ReserveSound(s: State, device: string, known: bool)
    requires Sound(s)
    ensures Sound(Reserve(s, device, known))
  {
    hide SessionsOf;
    var t := Reserve(s, device, known);
    if t != s {
      forall d: string ensures ActivityOf(t.registry, d) ==
        Activity(Holdings(t, Lease(d, false)), Holdings(t, Lease(d, true)), d in t.maintained)
      {
        assert ActivityOf(s.registry, d)
               == Activity(Holdings(s, Lease(d, false)), Holdings(s, Lease(d, true)), d in s.maintained);
      }
    }
  }

  lemma GiveBackSound(s: State, device: string)
    requires Sound(s)
    ensures Sound(GiveBack(s, device))
  {
    hide SessionsOf;
    var t := GiveBack(s, device);
    if t != s {
      assert ActivityOf(s.registry, device).maintenance;
      forall d: string ensures ActivityOf(t.registry, d) ==
        Activity(Holdings(t, Lease(d, false)), Holdings(t, Lease(d, true)), d in t.maintained)
      {
        assert ActivityOf(s.registry, d)
               == Activity(Holdings(s, Lease(d, false)), Holdings(s, Lease(d, true)), d in s.maintained);
      }
    }
  }

  // ---------------------------------------------------------------------- reset

  function Without(leases: map<nat, Lease>, sessions: seq<nat>, n: nat): map<nat, Lease>
    requires n <= |sessions|
  {
    map id | id in leases && id !in sessions[..n] :: leases[id]
  }

  /** After `n` releases the registry counts the leases that are left. */
  lemma {:induction false} ReleaseFirstCounts(s: State, sessions: seq<nat>, n: nat)
    requires Counted(s) && Compact(s.registry) && s.reservation.None? && Lists(sessions, s.leases) && n <= |sessions|
    ensures var t := s.(registry := ReleaseFirst(s.registry, s.leases, sessions, n),
                        leases := Without(s.leases, sessions, n));
            Counted(t) && Compact(t.registry)
  {
    hide ReleaseActivity, SessionsOf, Counted, Compact;
    if n == 0 {
      assert Without(s.leases, sessions, n) == s.leases;
    } else {
      ReleaseFirstCounts(s, sessions, n - 1);
      var id := sessions[n - 1];
      assert id !in sessions[..n - 1] && sessions[..n] == sessions[..n - 1] + [id];
      var u := s.(registry := ReleaseFirst(s.registry, s.leases, sessions, n - 1),
                  leases := Without(s.leases, sessions, n - 1));
      assert Without(s.leases, sessions, n) == u.leases - {id};
      ReleaseOne(u, id);
    }
  }

  lemma ReleaseOne(s: State, session: nat)
    requires Counted(s) && Compact(s.registry) && s.reservation.None? && session in s.leases
    ensures var t := s.(registry := ReleaseActivity(s.registry, s.leases[session]), leases := s.leases - {session});
            Counted(t) && Compact(t.registry)
  {
    hide ReleaseActivity, SessionsOf;
    var l := s.leases[session];
    var t := s.(registry := ReleaseActivity(s.registry, l), leases := s.leases - {session});
    CountRemove(s.leases, session, l);
    HeldIsCounted(s, l);
    forall d: string ensures ActivityOf(t.registry, d) ==
      Activity(Holdings(t, Lease(d, false)), Holdings(t, Lease(d, true)), d in t.maintained)
    {
      ReleaseCounts(s.registry, l, d);
      CountRemove(s.leases, session, Lease(d, false));
      CountRemove(s.leases, session, Lease(d, true));
    }
    ReleaseCounts(s.registry, l, l.device);
  }

  lemma ResetSound(s: State, sessions: seq<nat>, running: bool)
    requires Sound(s)
    ensures Sound(Reset(s, sessions, running))
  {
    hide ReleaseFirst, SessionsOf;
    var t := Reset(s, sessions, running);
    if s.reservation.None? && Lists(sessions, s.leases) {
      var n := |sessions|;
      ReleaseFirstCounts(s, sessions, n);
      assert sessions[..n] == sessions;
      assert Without(s.leases, sessions, n) == map[];
      var u := s.(registry := ReleaseFirst(s.registry, s.leases, sessions, n), leases := map[]);
      assert Counted(u) && Compact(u.registry);
      forall d: string ensures ActivityOf(t.registry, d) ==
        Activity(Holdings(t, Lease(d, false)), Holdings(t, Lease(d, true)), d in t.maintained)
      {
        assert ActivityOf(u.registry, d) ==
          Activity(Holdings(u, Lease(d, false)), Holdings(u, Lease(d, true)), d in u.maintained);
      }
      NoSessions(t);
    }
  }

  lemma NoSessions(s: State)
    requires Counted(s) && s.leases == map[] && s.reservation.None?
    ensures Exclusive(s)
  {
    forall d: string ensures ActivityOf(s.registry, d) == Activity(0, 0, d in s.maintained) {
      assert SessionsOf(s.leases, Lease(d, false)) == {} && SessionsOf(s.leases, Lease(d, true)) == {};
    }
  }

  // ------------------------------------------------------------------- theorems

  lemma ApplySound(s: State, step: Step)
    requires Sound(s)
    ensures Sound(Apply(s, step))
  {
    hide Sound, BeginAcquire, EndAcquire, Release, Reserve, GiveBack, Reset;
    match step
    case BeginAcquireStep(l, known) => BeginAcquireSound(s, l, known);
    case EndAcquireStep(opens, known) => EndAcquireSound(s, opens, known);
    case ReleaseStep(id) => ReleaseSound(s, id);
    case ReserveStep(d, known) => ReserveSound(s, d, known);
    case GiveBackStep(d) => GiveBackSound(s, d);
    case ResetStep(ids, running) => ResetSound(s, ids, running);
  }

  lemma {:induction false} ExecuteSound(steps: seq<Step>)
    ensures Sound(Execute(Initial, steps))
    decreases |steps|
  {
    hide Sound, Apply;
    if steps == [] {
      InitialSound();
    } else {
      ExecuteSound(steps[..|steps| - 1]);
      ApplySound(Execute(Initial, steps[..|steps| - 1]), steps[|steps| - 1]);
    }
  }

  lemma InitialSound()
    ensures Sound(Initial)
  {
    forall l: Lease ensures SessionsOf(Initial.leases, l) == {} {
    }
  }

  /**
   On every run of start, acquire, release, reserve, give back and stop: the
   registry counts exactly the live leases and the open reservation; a device
   under maintenance has neither control nor media activity; and each device has
   at most one media lease, the one the owner map names.
   */
  lemma EveryRunKeepsLeases(steps: seq<Step>, device: string)
    ensures var s := Execute(Initial, steps);
            && ActivityOf(s.registry, device) ==
                 Activity(Holdings(s, Lease(device, false)), Holdings(s, Lease(device, true)), device in s.maintained)
            && (device in s.maintained ==>
                   Holdings(s, Lease(device, false)) == 0 && Holdings(s, Lease(device, true)) == 0)
            && SessionsOf(s.leases, Lease(device, true)) == (if device in s.owners then {s.owners[device]} else {})
            && (device in s.registry ==> s.registry[device] != Unused)
  {
    ExecuteSound(steps);
    hide Execute;
    var s := Execute(Initial, steps);
    assert ActivityOf(s.registry, device) ==
      Activity(Holdings(s, Lease(device, false)), Holdings(s, Lease(device, true)), device in s.maintained);
  }

  /** A device under maintenance refuses every acquisition; a busy one refuses maintenance. */
  lemma MaintenanceExcludes(s: State, l: Lease, known: bool)
    requires Sound(s)
    ensures l.device in s.maintained ==> BeginAcquire(s, l, known) == s
    ensures Holdings(s, l) > 0 ==> Reserve(s, l.device, known) == s
  {
    assert ActivityOf(s.registry, l.device) ==
      Activity(Holdings(s, Lease(l.device, false)), Holdings(s, Lease(l.device, true)), l.device in s.maintained);
  }

  // ------------------------------------------------------------------ the object

  class Registry {
    var devices: map<string, Activity>

    constructor ()
      ensures devices == map[]
    {
      devices := map[];
    }

    method Acquire(l: Lease) returns (granted: bool)
      modifies this
      ensures granted == !ActivityOf(old(devices), l.device).maintenance
      ensures devices == AcquireActivity(old(devices), l)
    {
      var a := ActivityOf(devices, l.device);
      if a.maintenance {
        return false;
      }
      if l.media {
        devices := devices[l.device := a.(media := a.media + 1)];
      } else {
        devices := devices[l.device := a.(control := a.control + 1)];
      }
      return true;
    }

    method ReleaseLease(l: Lease)
      modifies this
      ensures devices == ReleaseActivity(old(devices), l)
    {
      if l.device !in devices {
        return;
      }
      var a := devices[l.device];
      if l.media && a.media != 0 {
        a := a.(media := a.media - 1);
      } else if !l.media && a.control != 0 {
        a := a.(control := a.control - 1);
      }
      devices := if a == Unused then devices - {l.device} else devices[l.device := a];
    }

    /** Stopping the host releases every lease. */
    method ReleaseLeases(leases: map<nat, Lease>, sessions: seq<nat>)
      requires Lists(sessions, leases)
      modifies this
      ensures devices == ReleaseFirst(old(devices), leases, sessions, |sessions|)
    {
      for i := 0 to |sessions|
        invariant devices == ReleaseFirst(old(devices), leases, sessions, i)
      {
        ReleaseLease(leases[sessions[i]]);
      }
    }

    method AcquireMaintenance(device: string) returns (granted: bool)
      modifies this
      ensures granted == MaintenanceFree(old(devices), device)
      ensures devices == if granted then old(devices)[device := Activity(0, 0, true)] else old(devices)
    {
      var a := ActivityOf(devices, device);
      if a.maintenance || a.control != 0 || a.media != 0 {
        return false;
      }
      devices := devices[device := a.(maintenance := true)];
      return true;
    }
  }
}

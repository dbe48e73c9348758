/**
 Handles on maintenance leases, as C++ move-only objects: moving empties the
 source, assigning first releases what the target held, destruction releases.
 Whatever a program does with its handles, each lease is released exactly once.
 */
module MaintenanceLeases {
  import opened Wrappers

  /** `handles` are the live objects and the lease each holds; leases are numbered as granted. */
  datatype State = State(handles: map<nat, Option<nat>>, granted: nat, released: seq<nat>)

  const Initial := State(map[], 0, [])

  function ReleaseHeld(s: State, handle: nat): State {
    if handle !in s.handles || s.handles[handle].None? then s
    else s.(handles := s.handles[handle := None], released := s.released + [s.handles[handle].value])
  }

  function Grant(s: State, handle: nat): State {
    if handle in s.handles then s
    else s.(handles := s.handles[handle := Some(s.granted)], granted := s.granted + 1)
  }

  /** Move construction when `target` is new, move assignment otherwise; a handle moved to itself keeps its lease. */
  function Move(s: State, source: nat, target: nat): State {
    if source !in s.handles || source == target then s
    else
      var t := ReleaseHeld(s, target);
      t.(handles := t.handles[target := s.handles[source]][source := None])
  }

  function Destroy(s: State, handle: nat): State {
    var t := ReleaseHeld(s, handle);
    t.(handles := t.handles - {handle})
  }

  datatype Step =
    | GrantStep(handle: nat)
    | MoveStep(source: nat, target: nat)
    | ResetStep(handle: nat)
    | DestroyStep(handle: nat)

  function Apply(s: State, step: Step): State {
    match step
    case GrantStep(h) => Grant(s, h)
    case MoveStep(a, b) => Move(s, a, b)
    case ResetStep(h) => ReleaseHeld(s, h)
    case DestroyStep(h) => Destroy(s, h)
  }

  function Execute(s: State, steps: seq<Step>): State
    decreases |steps|
  {
    if steps == [] then s else Apply(Execute(s, steps[..|steps| - 1]), steps[|steps| - 1])
  }

  predicate Held(s: State, lease: nat) {
    exists h | h in s.handles :: s.handles[h] == Some(lease)
  }

  /** One handle at most holds a lease; a lease is held or was released once. */
  predicate Sound(s: State) {
    && (forall g, h | g in s.handles && h in s.handles && g != h && s.handles[g].Some? :: s.handles[g] != s.handles[h])
    && (forall h | h in s.handles && s.handles[h].Some? :: s.handles[h].value < s.granted)
    && (forall i | 0 <= i < |s.released| :: s.released[i] < s.granted)
    && (forall lease | 0 <= lease < s.granted :: multiset(s.released)[lease] == if Held(s, lease) then 0 else 1)
  }

  lemma ReleaseSound(s: State, handle: nat)
    requires Sound(s)
    ensures Sound(ReleaseHeld(s, handle))
    ensures handle in s.handles ==> ReleaseHeld(s, handle).handles[handle] == None
  {
    var t := ReleaseHeld(s, handle);
    if t != s {
      var gone := s.handles[handle].value;
      forall lease | 0 <= lease < s.granted ensures multiset(t.released)[lease] == if Held(t, lease) then 0 else 1 {
        if lease == gone {
          assert Held(s, lease) && !Held(t, lease);
        } else if Held(s, lease) {
          var h :| h in s.handles && s.handles[h] == Some(lease);
          assert h in t.handles && t.handles[h] == Some(lease);
        }
      }
    }
  }

  /** The same leases held, each by one handle, and nothing released. */
  lemma Rearranged(s: State, t: State)
    requires Sound(s) && t.granted == s.granted && t.released == s.released
    requires forall g, h | g in t.handles && h in t.handles && g != h && t.handles[g].Some? ::
               t.handles[g] != t.handles[h]
    requires forall lease: nat :: Held(t, lease) <==> Held(s, lease)
    ensures Sound(t)
  {
    forall h | h in t.handles && t.handles[h].Some? ensures t.handles[h].value < t.granted {
      assert Held(t, t.handles[h].value);
      var g :| g in s.handles && s.handles[g] == Some(t.handles[h].value);
    }
  }

  lemma MoveSound(s: State, source: nat, target: nat)
    requires Sound(s)
    ensures Sound(Move(s, source, target))
  {
    if source in s.handles && source != target {
      var r := ReleaseHeld(s, target);
      ReleaseSound(s, target);
      var t := Move(s, source, target);
      forall lease: nat ensures Held(t, lease) <==> Held(r, lease) {
        if h :| h in r.handles && r.handles[h] == Some(lease) {
          assert t.handles[if h == source then target else h] == Some(lease);
        }
        if h :| h in t.handles && t.handles[h] == Some(lease) {
          assert r.handles[if h == target then source else h] == Some(lease);
        }
      }
      Rearranged(r, t);
    }
  }

  lemma DestroySound(s: State, handle: nat)
    requires Sound(s)
    ensures Sound(Destroy(s, handle))
  {
    var r, t := ReleaseHeld(s, handle), Destroy(s, handle);
    ReleaseSound(s, handle);
    forall lease: nat ensures Held(t, lease) <==> Held(r, lease) {
      if h :| h in r.handles && r.handles[h] == Some(lease) {
        assert h in t.handles && t.handles[h] == Some(lease);
      }
    }
    Rearranged(r, t);
  }

  lemma GrantSound(s: State, handle: nat)
    requires Sound(s)
    ensures Sound(Grant(s, handle))
  {
    var t := Grant(s, handle);
    if t != s {
      assert t.handles[handle] == Some(s.granted);
      assert Held(t, s.granted);
      assert s.granted !in s.released;
      forall lease | 0 <= lease < s.granted ensures Held(t, lease) <==> Held(s, lease) {
        if h :| h in s.handles && s.handles[h] == Some(lease) {
          assert t.handles[h] == Some(lease);
        }
      }
    }
  }

  lemma {:induction false} ExecuteSound(steps: seq<Step>)
    ensures Sound(Execute(Initial, steps))
    decreases |steps|
  {
    hide Sound, Grant, Move, ReleaseHeld, Destroy;
    if steps == [] {
      InitialSound();
    } else {
      var s, step := Execute(Initial, steps[..|steps| - 1]), steps[|steps| - 1];
      ExecuteSound(steps[..|steps| - 1]);
      match step
      case GrantStep(h) => GrantSound(s, h);
      case MoveStep(a, b) => MoveSound(s, a, b);
      case ResetStep(h) => ReleaseSound(s, h);
      case DestroyStep(h) => DestroySound(s, h);
    }
  }

  lemma InitialSound()
    ensures Sound(Initial)
  {
  }

  /** On every run each granted lease is either held by some handle or has been released exactly once. */
  lemma EachLeaseReleasedOnce(steps: seq<Step>, lease: nat)
    requires lease < Execute(Initial, steps).granted
    ensures var s := Execute(Initial, steps);
            multiset(s.released)[lease] == if Held(s, lease) then 0 else 1
  {
    ExecuteSound(steps);
  }
}

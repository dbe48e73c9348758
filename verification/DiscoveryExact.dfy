/**
 Exactly when a discovered row is stored, and exactly which rows disappear, said
 about the table and the rows alone: no plan, no claim count and no order.
 */
module DiscoveryExact {
  import opened Wrappers
  import opened DeviceTable
  import opened Discovery
  import opened EndpointClaims

  // -------------------------------------------------------------------- one row

  /** Another row that counts already has the endpoint. */
  ghost predicate Taken(t: seq<Device>, d: Device, allowSameAdapter: bool) {
    && d.endpoint != ""
    && exists x | x in t ::
         KeyOf(x) != KeyOf(d) && x.endpoint == d.endpoint && (!allowSameAdapter || x.adapter != d.adapter)
  }

  predicate Rebinds(known: Option<Device>, endpoint: string) {
    known.Some? && known.value.endpoint != "" && endpoint != "" && known.value.endpoint != endpoint
  }

  predicate BindsFirst(known: Option<Device>, endpoint: string) {
    known.Some? && known.value.endpoint == "" && endpoint != ""
  }

  /** The status of a row that is stored. */
  function StoredStatus(known: Option<Device>, endpoint: string): Status {
    if known.None? then Inserted else if BindsFirst(known, endpoint) then EndpointBound else Refreshed
  }

  lemma TakenIsConflict(t: seq<Device>, d: Device, allow: bool)
    ensures Conflict(t, d, allow) <==> Taken(t, d, allow)
  {
    if Conflict(t, d, allow) {
      var i :| 0 <= i < |t| && ConflictsWith(t[i], d, allow);
      assert t[i] in t;
    }
    if Taken(t, d, allow) {
      var x :| x in t && KeyOf(x) != KeyOf(d) && x.endpoint == d.endpoint && (!allow || x.adapter != d.adapter);
      var i :| 0 <= i < |t| && t[i] == x;
      assert ConflictsWith(t[i], d, allow);
    }
  }

  /** Each status of an upsert happens on its own condition, and one of them always does. */
  lemma UpsertExact(t: seq<Device>, d: Device, allow: bool)
    ensures var known, status := Lookup(t, KeyOf(d)), Upsert(t, d, allow).status;
            && (Accepted(status) <==> !Taken(t, d, allow) && !Rebinds(known, d.endpoint))
            && (Accepted(status) ==> status == StoredStatus(known, d.endpoint))
            && (status == EndpointConflict <==> Taken(t, d, allow))
            && (status == EndpointChangeRejected <==> !Taken(t, d, allow) && Rebinds(known, d.endpoint))
  {
    hide IndexOf, Conflict, Taken;
    TakenIsConflict(t, d, allow);
  }

  // ------------------------------------------------------------------ discovery

  /** No two rows, and no row and the stored one, name different endpoints. */
  ghost predicate EndpointsAgree(known: Option<Device>, rows: set<Device>) {
    && (forall a, b | a in rows && b in rows :: a.endpoint != "" && b.endpoint != "" ==> a.endpoint == b.endpoint)
    && (forall a | a in rows :: !Rebinds(known, a.endpoint))
  }

  /** The rows differ at most in naming the endpoint or not. */
  ghost predicate DetailsAgree(rows: set<Device>) {
    forall a, b | a in rows && b in rows :: a.(endpoint := "") == b.(endpoint := "")
  }

  /** The endpoint the stored row or any of the rows names; "" if none does. */
  ghost predicate Names(known: Option<Device>, rows: set<Device>, endpoint: string) {
    if endpoint == "" then KnownEndpoint(known) == "" && forall a | a in rows :: a.endpoint == ""
    else KnownEndpoint(known) == endpoint || exists a | a in rows :: a.endpoint == endpoint
  }

  ghost predicate HeldByOther(t: seq<Device>, adapter: string, endpoint: string) {
    endpoint != "" && exists d | d in t :: d.adapter != adapter && d.endpoint == endpoint
  }

  lemma ClashIsDisagreement(known: Option<Device>, rows: set<Device>)
    ensures Clash(KnownEndpoint(known), Named(rows)) <==> !EndpointsAgree(known, rows)
  {
    var k := KnownEndpoint(known);
    if Clash(k, Named(rows)) {
      if k != "" {
        var e :| e in Named(rows) && e != k;
        var a :| a in rows && a.endpoint != "" && a.endpoint == e;
        assert Rebinds(known, a.endpoint);
      } else {
        var e, f :| e in Named(rows) && f in Named(rows) && e != f;
        var a :| a in rows && a.endpoint == e && e != "";
        var b :| b in rows && b.endpoint == f && f != "";
      }
    } else {
      forall a | a in rows ensures a.endpoint != "" ==> a.endpoint in Named(rows) {
      }
    }
  }

  lemma UniformIsDetailsAgree(rows: set<Device>, endpoint: string)
    ensures Uniform(rows, endpoint) <==> DetailsAgree(rows)
  {
    forall a: Device, b: Device
      ensures a.(endpoint := endpoint) == b.(endpoint := endpoint) <==> a.(endpoint := "") == b.(endpoint := "")
    {
    }
  }

  /** What the plan of a key is, said about its rows. */
  lemma PlanExact(known: Option<Device>, rows: set<Device>, row: Device, endpoint: string)
    requires row in rows && Names(known, rows, endpoint)
    ensures var plan := PlanOf(known, rows);
            if !EndpointsAgree(known, rows) then
              !plan.Accept? && plan.status == if known.None? then DiscoveryClaimConflict else EndpointChangeRejected
            else if !DetailsAgree(rows) then !plan.Accept? && plan.status == DiscoveryClaimConflict
            else plan == Accept(row.(endpoint := endpoint))
  {
    hide Clash, Uniform;
    ClashIsDisagreement(known, rows);
    var effective := Effective(KnownEndpoint(known), Named(rows));
    UniformIsDetailsAgree(rows, effective);
    if EndpointsAgree(known, rows) && DetailsAgree(rows) {
      EffectiveIsNamed(known, rows, endpoint);
      UniformSnapshot(known, rows, row, endpoint);
    }
  }

  lemma EffectiveIsNamed(known: Option<Device>, rows: set<Device>, endpoint: string)
    requires EndpointsAgree(known, rows) && Names(known, rows, endpoint)
    ensures Effective(KnownEndpoint(known), Named(rows)) == endpoint
  {
    if Named(rows) != {} {
      forall e | e in Named(rows) ensures e == endpoint {
        var a :| a in rows && a.endpoint == e && e != "";
      }
    } else {
      forall a | a in rows ensures a.endpoint == "" {
        assert a.endpoint != "" ==> a.endpoint in Named(rows);
      }
    }
  }

  lemma UniformSnapshot(known: Option<Device>, rows: set<Device>, row: Device, endpoint: string)
    requires row in rows && EndpointsAgree(known, rows) && DetailsAgree(rows)
    requires Effective(KnownEndpoint(known), Named(rows)) == endpoint
    ensures PlanOf(known, rows) == Accept(row.(endpoint := endpoint))
  {
    hide Clash, Effective;
    ClashIsDisagreement(known, rows);
    UniformIsDetailsAgree(rows, endpoint);
  }

  // ------------------------------------------------------------- a key's turn

  /** On the way through the keys, a present row that holds an endpoint belongs to a claimant of it. */
  lemma HolderOnTheWayClaims(t: seq<Device>, adapter: string, plans: map<Key, Plan>, keys: seq<Key>, n: nat, x: Device)
    requires Setting(t, adapter, plans, keys) && n <= |keys|
    requires forall key | key in plans && plans[key].Reject? :: !Accepted(plans[key].status)
    requires x in Folded(t, adapter, plans, keys, n) && KeyOf(x) in plans && x.endpoint != ""
    ensures KeyOf(x) in Claimants(plans, adapter, x.endpoint)
  {
    hide ApplyPlan, Unique, Lookup, Folded;
    var key := KeyOf(x);
    var j :| 0 <= j < |keys| && keys[j] == key;
    assert key !in keys[..j];
    if j < n {
      Settled(t, adapter, plans, keys, j, n);
      LookupMember(Folded(t, adapter, plans, keys, n), x);
      Untouched(t, adapter, plans, keys, j, key);
      FoldedNext(t, adapter, plans, keys, j);
      TurnLookup(Folded(t, adapter, plans, keys, j), plans[key], adapter, CountFor(plans, adapter, plans[key]),
                 plans.Keys, key);
      TurnStatus(Folded(t, adapter, plans, keys, j), plans[key], adapter, CountFor(plans, adapter, plans[key]),
                 plans.Keys);
    } else {
      assert key !in keys[..n];
      Untouched(t, adapter, plans, keys, n, key);
      LookupMember(Folded(t, adapter, plans, keys, n), x);
    }
    if Lookup(t, key) == Some(x) {
      HolderClaims(t, adapter, plans, keys, key, x.endpoint);
    }
  }

  lemma TurnAccepts(u: seq<Device>, d: Device, adapter: string, count: nat, current: set<Key>)
    requires Unique(u) && d.adapter == adapter && KeyOf(d) in current && !Rebinds(Lookup(u, KeyOf(d)), d.endpoint)
    requires d.endpoint != "" ==> count >= 1
    requires count == 1 ==>
               forall x | x in u && x.adapter == adapter && x.endpoint == d.endpoint ::
                 KeyOf(x) == KeyOf(d) || KeyOf(x) !in current
    ensures var status := ApplyPlan(u, Accept(d), adapter, count, current).status;
            if HeldByOther(u, adapter, d.endpoint) then status == EndpointConflict
            else Accepted(status) && status == StoredStatus(Lookup(u, KeyOf(d)), d.endpoint)
  {
    hide IndexOf, EraseStale, Upsert;
    var erased := count == 1 && !HeldElsewhere(u, d);
    var kept := if erased then EraseStale(u, d, current) else u;
    EraseLookup(u, d, current, KeyOf(d));
    LookupIn(u, KeyOf(d));
    UpsertExact(kept, d, count >= 2);
    forall x | x in kept ensures x in u && (erased ==> !Stale(x, d, current)) {
      EraseSubset(u, d, current, x);
    }
    if HeldByOther(u, adapter, d.endpoint) {
      var x :| x in u && x.adapter != adapter && x.endpoint == d.endpoint;
      var i :| 0 <= i < |u| && u[i] == x;
      assert HeldElsewhere(u, d);
      assert Taken(kept, d, count >= 2);
    } else {
      assert !HeldElsewhere(u, d) || d.endpoint == "" by {
        assert forall i | 0 <= i < |u| :: u[i] in u;
      }
      forall x | x in kept && KeyOf(x) != KeyOf(d) && d.endpoint != "" && x.endpoint == d.endpoint
        ensures x.adapter == adapter && count >= 2
      {
      }
    }
  }

  /** Other adapters' rows are the same at every point on the way. */
  lemma SameOthers(t: seq<Device>, adapter: string, plans: map<Key, Plan>, keys: seq<Key>, n: nat, endpoint: string)
    requires Setting(t, adapter, plans, keys) && n <= |keys|
    ensures HeldByOther(Folded(t, adapter, plans, keys, n), adapter, endpoint) <==> HeldByOther(t, adapter, endpoint)
  {
    hide Folded;
    forall d: Device | d.adapter != adapter ensures d in Folded(t, adapter, plans, keys, n) <==> d in t {
      OthersStay(t, adapter, plans, keys, n, d);
    }
  }

  lemma TwoClaimants(plans: map<Key, Plan>, adapter: string, endpoint: string, a: Key, b: Key)
    requires a in Claimants(plans, adapter, endpoint) && b in Claimants(plans, adapter, endpoint) && a != b
    ensures |Claimants(plans, adapter, endpoint)| >= 2
  {
    var claimants := Claimants(plans, adapter, endpoint);
    assert {a, b} <= claimants;
    var rest := claimants - {a};
    assert b in rest && |rest| >= 1;
  }

  lemma KeyTurn(t: seq<Device>, adapter: string, plans: map<Key, Plan>, keys: seq<Key>, i: nat)
    requires Setting(t, adapter, plans, keys) && i < |keys| && plans[keys[i]].Accept?
    requires forall key | key in plans && plans[key].Reject? :: !Accepted(plans[key].status)
    ensures var d, known := plans[keys[i]].snapshot, Lookup(t, keys[i]);
            var status := StepKey(t, adapter, plans, keys, i).status;
            if HeldByOther(t, adapter, d.endpoint) then status == EndpointConflict
            else Accepted(status) && status == StoredStatus(known, d.endpoint)
  {
    hide ApplyPlan, Unique, Lookup, Folded, HeldByOther, Accepted, StoredStatus;
    var key := keys[i];
    var u, plan := Folded(t, adapter, plans, keys, i), plans[key];
    var d := plan.snapshot;
    assert key !in keys[..i];
    Untouched(t, adapter, plans, keys, i, key);
    SameOthers(t, adapter, plans, keys, i, d.endpoint);
    var count := CountFor(plans, adapter, plan);
    if d.endpoint != "" {
      assert key in Claimants(plans, adapter, d.endpoint);
      assert count != 0;
      forall x | x in u && x.adapter == adapter && x.endpoint == d.endpoint && KeyOf(x) in plans && KeyOf(x) != key
        ensures count >= 2
      {
        HolderOnTheWayClaims(t, adapter, plans, keys, i, x);
        TwoClaimants(plans, adapter, d.endpoint, key, KeyOf(x));
      }
    } else {
      assert Claimants(plans, adapter, "") == {};
    }
    TurnAccepts(u, d, adapter, count, plans.Keys);
  }

  // ------------------------------------------------------------------ theorems

  /**
   For every table and all rows of one adapter: a row is stored if and only if
   the rows of its device agree with each other and with the stored row, and no
   other adapter holds the endpoint they name. Each status has its own condition.
   */
  lemma ReconcileExact(t: seq<Device>, adapter: string, rows: set<Device>, reason: string, row: Device,
                       endpoint: string)
    requires Unique(t) && row in rows && forall r | r in rows :: r.adapter == adapter
    requires Names(Lookup(t, KeyOf(row)), RowsOf(rows, KeyOf(row)), endpoint)
    ensures var known, mine := Lookup(t, KeyOf(row)), RowsOf(rows, KeyOf(row));
            var status := ReconcileStatus(t, adapter, rows, KeyOf(row));
            var after := Lookup(Reconciled(t, adapter, rows, reason), KeyOf(row));
            if !EndpointsAgree(known, mine) then
              after == known && status == if known.None? then DiscoveryClaimConflict else EndpointChangeRejected
            else if !DetailsAgree(mine) then after == known && status == DiscoveryClaimConflict
            else if HeldByOther(t, adapter, endpoint) then after == known && status == EndpointConflict
            else after == Some(row.(endpoint := endpoint)) && status == StoredStatus(known, endpoint)
  {
    hide Lookup, Unique, SortedKeys, Folded, PlanOf, EndpointsAgree, DetailsAgree, Names, HeldByOther;
    var key := KeyOf(row);
    var plans := Plans(t, rows);
    var keys := SortedKeys(plans);
    ReconcileSetting(t, adapter, rows);
    PlansFit(t, rows);
    assert key in keys;
    var i :| 0 <= i < |keys| && keys[i] == key;
    PlanExact(Lookup(t, key), RowsOf(rows, key), row, endpoint);
    StatusOfTurn(t, adapter, rows, key, i);
    ReconciledPresent(t, adapter, rows, reason, key);
    if plans[key].Accept? {
      KeyTurn(t, adapter, plans, keys, i);
    } else {
      PlainTurn(t, adapter, plans, keys, i);
    }
  }

  lemma PlainTurn(t: seq<Device>, adapter: string, plans: map<Key, Plan>, keys: seq<Key>, i: nat)
    requires i < |keys| && (forall key | key in keys :: key in plans) && !plans[keys[i]].Accept?
    ensures StepKey(t, adapter, plans, keys, i).status == plans[keys[i]].status
  {
    hide Folded;
  }

  lemma StatusOfTurn(t: seq<Device>, adapter: string, rows: set<Device>, key: Key, i: nat)
    requires key in KeySet(rows) && Plans(t, rows).Keys == KeySet(rows)
    requires var keys := SortedKeys(Plans(t, rows)); i < |keys| && keys[i] == key
    ensures ReconcileStatus(t, adapter, rows, key)
            == StepKey(t, adapter, Plans(t, rows), SortedKeys(Plans(t, rows)), i).status
  {
    hide SortedKeys, StepKey, Plans;
  }

  // ------------------------------------------------------------ rows that leave

  /** A present device stands for the endpoint its stored row holds, or, unbound, for the one its agreeing rows name. */
  ghost predicate StandsFor(t: seq<Device>, rows: set<Device>, key: Key, endpoint: string) {
    var known, mine := Lookup(t, key), RowsOf(rows, key);
    && key in KeySet(rows) && endpoint != ""
    && (|| KnownEndpoint(known) == endpoint
        || (&& KnownEndpoint(known) == "" && EndpointsAgree(known, mine) && DetailsAgree(mine)
            && exists a | a in mine :: a.endpoint == endpoint))
  }

  ghost predicate StandsAlone(t: seq<Device>, rows: set<Device>, key: Key, endpoint: string) {
    forall other :: StandsFor(t, rows, other, endpoint) <==> other == key
  }

  lemma ClaimantStandsFor(t: seq<Device>, adapter: string, rows: set<Device>, key: Key, endpoint: string)
    requires forall r | r in rows :: r.adapter == adapter
    ensures key in Claimants(Plans(t, rows), adapter, endpoint) <==> StandsFor(t, rows, key, endpoint)
  {
    hide Lookup, PlanOf, EndpointsAgree, DetailsAgree;
    if key in KeySet(rows) {
      var known, mine := Lookup(t, key), RowsOf(rows, key);
      var row :| row in rows && KeyOf(row) == key;
      assert row in mine;
      LookupIn(t, key);
      var named := SomeName(known, mine);
      PlanExact(known, mine, row, named);
      PlanFits(known, mine, key);
      if EndpointsAgree(known, mine) && DetailsAgree(mine) {
        if endpoint != "" { NameIsOne(known, mine, named, endpoint); }
      } else {
        BlockedPlan(known, mine);
      }
    }
  }

  lemma SomeName(known: Option<Device>, rows: set<Device>) returns (endpoint: string)
    ensures Names(known, rows, endpoint)
  {
    if KnownEndpoint(known) != "" {
      endpoint := KnownEndpoint(known);
    } else if a :| a in rows && a.endpoint != "" {
      endpoint := a.endpoint;
    } else {
      endpoint := "";
    }
  }

  lemma NameIsOne(known: Option<Device>, rows: set<Device>, named: string, endpoint: string)
    requires EndpointsAgree(known, rows) && Names(known, rows, named) && endpoint != ""
    ensures named == endpoint <==>
              || KnownEndpoint(known) == endpoint
              || (KnownEndpoint(known) == "" && exists a | a in rows :: a.endpoint == endpoint)
  {
  }

  lemma BlockedPlan(known: Option<Device>, rows: set<Device>)
    requires rows != {} && !(EndpointsAgree(known, rows) && DetailsAgree(rows))
    ensures var plan := PlanOf(known, rows);
            if KnownEndpoint(known) != "" then plan.Hold? && plan.snapshot == known.value else plan.Reject?
  {
    hide Clash, Uniform;
    ClashIsDisagreement(known, rows);
    UniformIsDetailsAgree(rows, Effective(KnownEndpoint(known), Named(rows)));
  }

  /** The turn of one key takes an absent row out exactly when it alone stands for that row's endpoint. */
  lemma AbsentTurn(u: seq<Device>, plan: Plan, adapter: string, count: nat, current: set<Key>, d: Device)
    requires Unique(u) && d in u && d.adapter == adapter && KeyOf(d) !in current
    requires !plan.Reject? ==> KeyOf(plan.snapshot) in current && plan.snapshot.adapter == adapter
    ensures var gone := !plan.Reject? && plan.snapshot.endpoint == d.endpoint && count == 1
                        && !HeldElsewhere(u, plan.snapshot);
            Lookup(ApplyPlan(u, plan, adapter, count, current).table, KeyOf(d)) == if gone then None else Some(d)
  {
    hide Upsert, EraseStale, HeldElsewhere, IndexOf;
    LookupMember(u, d);
    if !plan.Reject? {
      var s := plan.snapshot;
      EraseLookup(u, s, current, KeyOf(d));
      var kept := if s.adapter == adapter && count == 1 && !HeldElsewhere(u, s) then EraseStale(u, s, current) else u;
      UpsertLookup(kept, s, count >= 2, KeyOf(d));
    }
  }

  lemma HeldIsHeldByOther(u: seq<Device>, adapter: string, snapshot: Device)
    requires snapshot.adapter == adapter && snapshot.endpoint != ""
    ensures HeldElsewhere(u, snapshot) <==> HeldByOther(u, adapter, snapshot.endpoint)
  {
    if HeldByOther(u, adapter, snapshot.endpoint) {
      var d :| d in u && d.adapter != adapter && d.endpoint == snapshot.endpoint;
      var i :| 0 <= i < |u| && u[i] == d;
    }
    assert forall i | 0 <= i < |u| :: u[i] in u;
  }

  /** One present key alone claims the endpoint, and no other adapter holds it. */
  ghost predicate TakesOver(t: seq<Device>, adapter: string, plans: map<Key, Plan>, key: Key, endpoint: string) {
    Claimants(plans, adapter, endpoint) == {key} && !HeldByOther(t, adapter, endpoint)
  }

  lemma {:induction false} AbsentFold(t: seq<Device>, adapter: string, plans: map<Key, Plan>, keys: seq<Key>, n: nat,
                                      d: Device)
    requires Setting(t, adapter, plans, keys) && n <= |keys|
    requires d in t && d.adapter == adapter && KeyOf(d) !in plans
    ensures var gone := exists i | 0 <= i < n :: TakesOver(t, adapter, plans, keys[i], d.endpoint);
            Lookup(Folded(t, adapter, plans, keys, n), KeyOf(d)) == if gone then None else Some(d)
  {
    hide ApplyPlan, Unique, Lookup, Folded;
    if n == 0 {
      LookupMember(t, d);
      FoldedNone(t, adapter, plans, keys);
    } else {
      var key := keys[n - 1];
      AbsentFold(t, adapter, plans, keys, n - 1, d);
      AbsentStep(t, adapter, plans, keys, n - 1, d);
    }
  }

  lemma FoldedNone(t: seq<Device>, adapter: string, plans: map<Key, Plan>, keys: seq<Key>)
    requires forall key | key in keys :: key in plans
    ensures Folded(t, adapter, plans, keys, 0) == t
  {
  }

  lemma AbsentStep(t: seq<Device>, adapter: string, plans: map<Key, Plan>, keys: seq<Key>, n: nat, d: Device)
    requires Setting(t, adapter, plans, keys) && n < |keys|
    requires d in t && d.adapter == adapter && KeyOf(d) !in plans
    requires var row := Lookup(Folded(t, adapter, plans, keys, n), KeyOf(d)); row == Some(d) || row == None
    ensures var before := Lookup(Folded(t, adapter, plans, keys, n), KeyOf(d));
            var after := Lookup(Folded(t, adapter, plans, keys, n + 1), KeyOf(d));
            after == if TakesOver(t, adapter, plans, keys[n], d.endpoint) then None else before
  {
    hide ApplyPlan, Unique, Lookup, Folded, HeldByOther, HeldElsewhere;
    var u, plan := Folded(t, adapter, plans, keys, n), plans[keys[n]];
    var count := CountFor(plans, adapter, plan);
    FoldedNext(t, adapter, plans, keys, n);
    assert keys[n] !in keys[..n];
    Untouched(t, adapter, plans, keys, n, keys[n]);
    if Lookup(u, KeyOf(d)).None? {
      ApplyPlanLookup(u, plan, adapter, count, plans.Keys, KeyOf(d));
    } else {
      LookupMember(u, d);
      AbsentTurn(u, plan, adapter, count, plans.Keys, d);
      assert Claimants(plans, adapter, "") == {};
      if !plan.Reject? && plan.snapshot.endpoint == d.endpoint && d.endpoint != "" {
        HeldIsHeldByOther(u, adapter, plan.snapshot);
        SameOthers(t, adapter, plans, keys, n, d.endpoint);
        SoleMember(Claimants(plans, adapter, d.endpoint), keys[n]);
      }
    }
  }

  lemma SoleMember(keys: set<Key>, key: Key)
    requires key in keys
    ensures |keys| == 1 <==> keys == {key}
  {
    if |keys| == 1 {
      assert |keys - {key}| == 0;
    }
  }

  /**
   A stored row of the adapter whose device was not discovered disappears if and
   only if exactly one present device stands for its endpoint and no other
   adapter holds it; otherwise it stays as it was, offline for the given reason.
   */
  lemma AbsentExact(t: seq<Device>, adapter: string, rows: set<Device>, reason: string, d: Device)
    requires Unique(t) && forall r | r in rows :: r.adapter == adapter
    requires d in t && d.adapter == adapter && KeyOf(d) !in KeySet(rows)
    ensures var gone := !HeldByOther(t, adapter, d.endpoint)
                        && exists key :: StandsAlone(t, rows, key, d.endpoint);
            Lookup(Reconciled(t, adapter, rows, reason), KeyOf(d))
            == if gone then None else Some(d.(online := false, reason := reason))
  {
    hide Lookup, Unique, SortedKeys, Folded, Plans, HeldByOther, StandsAlone, TakesOver, Setting;
    var plans := Plans(t, rows);
    var keys := SortedKeys(plans);
    ReconcileSetting(t, adapter, rows);
    AbsentFold(t, adapter, plans, keys, |keys|, d);
    TakenOverExact(t, adapter, rows, d.endpoint);
    TakerHasATurn(t, adapter, plans, keys, d.endpoint);
    LastTableUnique(t, adapter, plans, keys);
    MarkMissingLookup(Folded(t, adapter, plans, keys, |keys|), adapter, plans.Keys, reason, KeyOf(d));
  }

  lemma LastTableUnique(t: seq<Device>, adapter: string, plans: map<Key, Plan>, keys: seq<Key>)
    requires Setting(t, adapter, plans, keys)
    ensures Unique(Folded(t, adapter, plans, keys, |keys|))
  {
    hide Folded, Unique, Lookup;
    if keys == [] {
      FoldedNone(t, adapter, plans, keys);
    } else {
      Settled(t, adapter, plans, keys, 0, |keys|);
    }
  }

  lemma TakerHasATurn(t: seq<Device>, adapter: string, plans: map<Key, Plan>, keys: seq<Key>, endpoint: string)
    requires forall key :: key in keys <==> key in plans
    ensures (exists key :: TakesOver(t, adapter, plans, key, endpoint))
            <==> exists i | 0 <= i < |keys| :: TakesOver(t, adapter, plans, keys[i], endpoint)
  {
    hide HeldByOther;
    if key :| TakesOver(t, adapter, plans, key, endpoint) {
      assert key in Claimants(plans, adapter, endpoint);
      var i :| 0 <= i < |keys| && keys[i] == key;
      assert TakesOver(t, adapter, plans, keys[i], endpoint);
    }
  }

  lemma TakenOverExact(t: seq<Device>, adapter: string, rows: set<Device>, endpoint: string)
    requires forall r | r in rows :: r.adapter == adapter
    ensures (exists key :: TakesOver(t, adapter, Plans(t, rows), key, endpoint)) <==>
              !HeldByOther(t, adapter, endpoint) && exists key :: StandsAlone(t, rows, key, endpoint)
  {
    hide Plans, HeldByOther, StandsAlone, Claimants;
    forall key
      ensures TakesOver(t, adapter, Plans(t, rows), key, endpoint)
              <==> !HeldByOther(t, adapter, endpoint) && StandsAlone(t, rows, key, endpoint)
    {
      AloneExact(t, adapter, rows, key, endpoint);
    }
  }

  lemma AloneExact(t: seq<Device>, adapter: string, rows: set<Device>, key: Key, endpoint: string)
    requires forall r | r in rows :: r.adapter == adapter
    ensures Claimants(Plans(t, rows), adapter, endpoint) == {key} <==> StandsAlone(t, rows, key, endpoint)
  {
    hide Plans, StandsFor, Claimants;
    var claimants := Claimants(Plans(t, rows), adapter, endpoint);
    forall other ensures other in claimants <==> StandsFor(t, rows, other, endpoint) {
      ClaimantStandsFor(t, adapter, rows, other, endpoint);
    }
    if claimants == {key} {
      forall other ensures StandsFor(t, rows, other, endpoint) <==> other == key {
        assert other in claimants <==> other == key;
      }
    }
  }
}

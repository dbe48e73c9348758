/**
 Who ends up with an endpoint. A sole present claimant becomes its only holder,
 even when rows of absent devices held it; with two or more claimants the
 endpoint never resolves to a device of that adapter.
 */
module EndpointClaims {
  import opened Wrappers
  import opened DeviceTable
  import opened Discovery
  import opened Routing

  /** The setting of both theorems: one adapter's rows, reconciled key by key. */
  ghost predicate Setting(t: seq<Device>, adapter: string, plans: map<Key, Plan>, keys: seq<Key>) {
    && Planned(t, plans, keys)
    && (forall key | key in plans :: key.0 == adapter && key in keys)
    && (forall key | key in plans && Lookup(t, key).Some? && Lookup(t, key).value.endpoint != "" :: !plans[key].Reject?)
  }

  lemma ReconcileSetting(t: seq<Device>, adapter: string, rows: set<Device>)
    requires Unique(t) && forall r | r in rows :: r.adapter == adapter
    ensures var plans := Plans(t, rows); Setting(t, adapter, plans, SortedKeys(plans)) && plans.Keys == KeySet(rows)
  {
    hide Unique, SortedKeys, Lookup, Fit;
    PlannedReconcile(t, rows);
    var plans := Plans(t, rows);
    forall key | key in plans && Lookup(t, key).Some? && Lookup(t, key).value.endpoint != ""
      ensures !plans[key].Reject?
    {
      BoundIsHeld(Lookup(t, key), RowsOf(rows, key));
      var r :| r in rows && KeyOf(r) == key;
      assert r in RowsOf(rows, key);
    }
  }

  lemma BoundIsHeld(existing: Option<Device>, rows: set<Device>)
    requires existing.Some? && existing.value.endpoint != ""
    ensures rows != {} ==> !PlanOf(existing, rows).Reject?
  {
  }

  predicate Holds(d: Device, endpoint: string) {
    d.endpoint == endpoint
  }

  /** A present device whose row holds the endpoint claims it. */
  lemma HolderClaims(t: seq<Device>, adapter: string, plans: map<Key, Plan>, keys: seq<Key>, key: Key, endpoint: string)
    requires Setting(t, adapter, plans, keys) && key in plans && endpoint != ""
    requires Lookup(t, key).Some? && Holds(Lookup(t, key).value, endpoint)
    ensures key in Claimants(plans, adapter, endpoint)
  {
    hide Lookup, Unique;
  }

  // ------------------------------------------------------------- sole claimants

  /** Holders on the way: the claimant, or absent rows as long as the claimant has not had its turn. */
  ghost predicate OnTheWay(u: seq<Device>, adapter: string, plans: map<Key, Plan>, keys: seq<Key>, n: nat,
                           claimant: Key, endpoint: string)
    requires n <= |keys|
  {
    forall d | d in u && Holds(d, endpoint) ::
      && d.adapter == adapter
      && (KeyOf(d) == claimant || (KeyOf(d) !in plans && claimant !in keys[..n]))
  }

  lemma UpsertMembers(t: seq<Device>, d: Device, allow: bool, x: Device)
    requires Unique(t) && x in Upsert(t, d, allow).table
    ensures var known := Lookup(t, KeyOf(d));
            x in t || (KeyOf(x) == KeyOf(d) && x == (if known.Some? then Merge(known.value, d) else d))
  {
    hide IndexOf, Conflict;
  }

  lemma ApplyPlanMembers(t: seq<Device>, plan: Plan, adapter: string, count: nat, current: set<Key>, x: Device)
    requires Unique(t) && x in ApplyPlan(t, plan, adapter, count, current).table
    requires !plan.Reject? ==> KeyOf(plan.snapshot) in current
    ensures || x in t
            || (&& plan.Accept? && KeyOf(x) == KeyOf(plan.snapshot)
                && var known := Lookup(t, KeyOf(plan.snapshot));
                   x == if known.Some? then Merge(known.value, plan.snapshot) else plan.snapshot)
  {
    hide Upsert, IndexOf, HeldElsewhere, EraseStale;
    if !plan.Reject? {
      var d := plan.snapshot;
      var kept := if d.adapter == adapter && count == 1 && !HeldElsewhere(t, d) then EraseStale(t, d, current) else t;
      EraseLookup(t, d, current, KeyOf(d));
      LookupIn(t, KeyOf(d));
      EraseSubset(t, d, current, x);
      if plan.Accept? {
        UpsertMembers(kept, d, count >= 2, x);
      }
    }
  }

  lemma OtherTurn(t: seq<Device>, adapter: string, plans: map<Key, Plan>, keys: seq<Key>, n: nat, claimant: Key,
                  endpoint: string)
    requires Setting(t, adapter, plans, keys) && n < |keys| && keys[n] != claimant && endpoint != ""
    requires Claimants(plans, adapter, endpoint) == {claimant}
    requires OnTheWay(Folded(t, adapter, plans, keys, n), adapter, plans, keys, n, claimant, endpoint)
    ensures OnTheWay(Folded(t, adapter, plans, keys, n + 1), adapter, plans, keys, n + 1, claimant, endpoint)
  {
    hide ApplyPlan, Unique, Lookup;
    var u, key := Folded(t, adapter, plans, keys, n), keys[n];
    var plan, w := plans[key], Folded(t, adapter, plans, keys, n + 1);
    assert key !in keys[..n];
    Untouched(t, adapter, plans, keys, n, key);
    FoldedNext(t, adapter, plans, keys, n);
    assert key !in Claimants(plans, adapter, endpoint);
    forall d | d in w && Holds(d, endpoint)
      ensures d.adapter == adapter && (KeyOf(d) == claimant || (KeyOf(d) !in plans && claimant !in keys[..n + 1]))
    {
      ApplyPlanMembers(u, plan, adapter, CountFor(plans, adapter, plan), plans.Keys, d);
      if Lookup(t, key).Some? && Holds(Lookup(t, key).value, endpoint) {
        HolderClaims(t, adapter, plans, keys, key, endpoint);
      }
    }
  }

  /** The claimant's own turn removes the absent holders and binds the endpoint. */
  lemma ClaimantTurn(u: seq<Device>, plan: Plan, adapter: string, current: set<Key>, claimant: Key, endpoint: string)
    requires Unique(u) && endpoint != "" && claimant in current && claimant.0 == adapter
    requires !plan.Reject? && KeyOf(plan.snapshot) == claimant && plan.snapshot.endpoint == endpoint
    requires plan.Hold? ==> Lookup(u, claimant) == Some(plan.snapshot)
    requires Lookup(u, claimant).Some? && Lookup(u, claimant).value.endpoint != "" ==>
               Lookup(u, claimant).value.endpoint == endpoint
    requires forall d | d in u && Holds(d, endpoint) ::
               d.adapter == adapter && (KeyOf(d) == claimant || KeyOf(d) !in current)
    ensures var w := ApplyPlan(u, plan, adapter, 1, current).table;
            && (forall d | d in w && Holds(d, endpoint) :: KeyOf(d) == claimant)
            && Lookup(w, claimant).Some? && Holds(Lookup(w, claimant).value, endpoint)
  {
    hide IndexOf, EraseStale;
    var d := plan.snapshot;
    assert !HeldElsewhere(u, d) by {
      assert forall i | 0 <= i < |u| :: u[i] in u;
    }
    var kept := EraseStale(u, d, current);
    EraseLookup(u, d, current, claimant);
    forall x | x in kept && Holds(x, endpoint) ensures KeyOf(x) == claimant {
      EraseSubset(u, d, current, x);
    }
    if plan.Accept? {
      Binds(kept, d, endpoint);
    }
  }

  lemma Binds(t: seq<Device>, d: Device, endpoint: string)
    requires Unique(t) && endpoint != "" && d.endpoint == endpoint
    requires Lookup(t, KeyOf(d)).Some? && Lookup(t, KeyOf(d)).value.endpoint != "" ==>
               Lookup(t, KeyOf(d)).value.endpoint == endpoint
    requires forall x | x in t && Holds(x, endpoint) :: KeyOf(x) == KeyOf(d)
    ensures var w := Upsert(t, d, false).table;
            && (forall x | x in w && Holds(x, endpoint) :: KeyOf(x) == KeyOf(d))
            && Lookup(w, KeyOf(d)) == Some(d)
  {
    hide IndexOf;
    assert !Conflict(t, d, false) by {
      assert forall i | 0 <= i < |t| :: t[i] in t;
    }
    UpsertLookup(t, d, false, KeyOf(d));
    forall x | x in Upsert(t, d, false).table && Holds(x, endpoint) ensures KeyOf(x) == KeyOf(d) {
      UpsertMembers(t, d, false, x);
    }
  }

  lemma {:induction false} SoleFold(t: seq<Device>, adapter: string, plans: map<Key, Plan>, keys: seq<Key>, n: nat,
                                    claimant: Key, endpoint: string)
    requires Setting(t, adapter, plans, keys) && n <= |keys| && endpoint != ""
    requires Claimants(plans, adapter, endpoint) == {claimant}
    requires forall d | d in t && Holds(d, endpoint) :: d.adapter == adapter
    ensures OnTheWay(Folded(t, adapter, plans, keys, n), adapter, plans, keys, n, claimant, endpoint)
    ensures n > 0 && keys[n - 1] == claimant ==>
              var row := Lookup(Folded(t, adapter, plans, keys, n), claimant); row.Some? && Holds(row.value, endpoint)
  {
    hide ApplyPlan, Unique, Lookup, OnTheWay;
    if n == 0 {
      SoleStart(t, adapter, plans, keys, claimant, endpoint);
    } else {
      SoleFold(t, adapter, plans, keys, n - 1, claimant, endpoint);
      if keys[n - 1] == claimant {
        SoleTurn(t, adapter, plans, keys, n - 1, claimant, endpoint);
      } else {
        OtherTurn(t, adapter, plans, keys, n - 1, claimant, endpoint);
      }
    }
  }

  lemma SoleStart(t: seq<Device>, adapter: string, plans: map<Key, Plan>, keys: seq<Key>, claimant: Key,
                  endpoint: string)
    requires Setting(t, adapter, plans, keys) && endpoint != ""
    requires Claimants(plans, adapter, endpoint) == {claimant}
    requires forall d | d in t && Holds(d, endpoint) :: d.adapter == adapter
    ensures OnTheWay(t, adapter, plans, keys, 0, claimant, endpoint)
  {
    hide Lookup;
    forall d | d in t && Holds(d, endpoint)
      ensures KeyOf(d) == claimant || KeyOf(d) !in plans
    {
      LookupMember(t, d);
      if KeyOf(d) in plans {
        HolderClaims(t, adapter, plans, keys, KeyOf(d), endpoint);
      }
    }
  }

  lemma SoleTurn(t: seq<Device>, adapter: string, plans: map<Key, Plan>, keys: seq<Key>, n: nat,
                 claimant: Key, endpoint: string)
    requires Setting(t, adapter, plans, keys) && n < |keys| && keys[n] == claimant && endpoint != ""
    requires Claimants(plans, adapter, endpoint) == {claimant}
    requires OnTheWay(Folded(t, adapter, plans, keys, n), adapter, plans, keys, n, claimant, endpoint)
    ensures OnTheWay(Folded(t, adapter, plans, keys, n + 1), adapter, plans, keys, n + 1, claimant, endpoint)
    ensures var row := Lookup(Folded(t, adapter, plans, keys, n + 1), claimant); row.Some? && Holds(row.value, endpoint)
  {
    hide ApplyPlan, Unique, Lookup;
    var u, plan := Folded(t, adapter, plans, keys, n), plans[claimant];
    assert claimant !in keys[..n];
    Untouched(t, adapter, plans, keys, n, claimant);
    assert claimant in Claimants(plans, adapter, endpoint);
    assert CountFor(plans, adapter, plan) == 1;
    ClaimantTurn(u, plan, adapter, plans.Keys, claimant, endpoint);
    var w := ApplyPlan(u, plan, adapter, 1, plans.Keys).table;
    assert w == Folded(t, adapter, plans, keys, n + 1);
    forall d | d in w && Holds(d, endpoint) ensures d.adapter == adapter {
      assert KeyOf(d) == claimant;
    }
  }

  /**
   If all discovered rows are the adapter's own and no other adapter holds the
   endpoint, its sole present claimant ends as the only holder: rows of absent
   devices that held it are gone.
   */
  lemma SoleClaimantHolds(t: seq<Device>, adapter: string, rows: set<Device>, reason: string, claimant: Key,
                          endpoint: string)
    requires Unique(t) && endpoint != "" && forall r | r in rows :: r.adapter == adapter
    requires forall d | d in t && Holds(d, endpoint) :: d.adapter == adapter
    requires Claimants(Plans(t, rows), adapter, endpoint) == {claimant}
    ensures var u := Reconciled(t, adapter, rows, reason);
            && (forall d | d in u && Holds(d, endpoint) :: KeyOf(d) == claimant)
            && Lookup(u, claimant).Some? && Holds(Lookup(u, claimant).value, endpoint)
  {
    hide Lookup, Unique, SortedKeys, Plans, Folded;
    var plans := Plans(t, rows);
    var keys := SortedKeys(plans);
    ReconcileSetting(t, adapter, rows);
    assert claimant in Claimants(plans, adapter, endpoint);
    assert claimant in keys;
    var i :| 0 <= i < |keys| && keys[i] == claimant;
    SoleFold(t, adapter, plans, keys, i + 1, claimant, endpoint);
    SoleFold(t, adapter, plans, keys, |keys|, claimant, endpoint);
    Settled(t, adapter, plans, keys, i, |keys|);
    var v, u := Folded(t, adapter, plans, keys, |keys|), Reconciled(t, adapter, rows, reason);
    MarkMissingLookup(v, adapter, plans.Keys, reason, claimant);
    assert claimant in keys[..|keys|];
    forall d | d in u && Holds(d, endpoint) ensures KeyOf(d) == claimant {
      var j :| 0 <= j < |u| && u[j] == d;
      assert d == Missing(v[j], adapter, plans.Keys, reason);
      assert v[j] in v && Holds(v[j], endpoint);
    }
  }

  // ------------------------------------------------------------- many claimants

  /** With several claimants, a claimant that no other adapter stops ends as a holder. */
  lemma EachOfManyHolds(t: seq<Device>, adapter: string, plans: map<Key, Plan>, keys: seq<Key>, i: nat,
                        endpoint: string)
    requires Setting(t, adapter, plans, keys) && i < |keys| && endpoint != ""
    requires |Claimants(plans, adapter, endpoint)| >= 2 && keys[i] in Claimants(plans, adapter, endpoint)
    requires forall d | d in Folded(t, adapter, plans, keys, i) && Holds(d, endpoint) :: d.adapter == adapter
    ensures var row := Lookup(Folded(t, adapter, plans, keys, |keys|), keys[i]); row.Some? && Holds(row.value, endpoint)
  {
    hide Lookup, Unique, Folded;
    var key := keys[i];
    var u, plan := Folded(t, adapter, plans, keys, i), plans[key];
    assert key !in keys[..i];
    Untouched(t, adapter, plans, keys, i, key);
    Settled(t, adapter, plans, keys, i, |keys|);
    var count := CountFor(plans, adapter, plan);
    if plan.Accept? {
      BindsAmongMany(u, plan.snapshot, endpoint, adapter);
    }
    assert Folded(t, adapter, plans, keys, i + 1) == ApplyPlan(u, plan, adapter, count, plans.Keys).table by {
      FoldedNext(t, adapter, plans, keys, i);
    }
  }

  lemma FoldedNext(t: seq<Device>, adapter: string, plans: map<Key, Plan>, keys: seq<Key>, i: nat)
    requires i < |keys| && forall key | key in keys :: key in plans
    ensures var plan := plans[keys[i]];
            Folded(t, adapter, plans, keys, i + 1)
            == ApplyPlan(Folded(t, adapter, plans, keys, i), plan, adapter, CountFor(plans, adapter, plan),
                         plans.Keys).table
  {
    hide ApplyPlan, CountFor;
  }

  lemma BindsAmongMany(t: seq<Device>, d: Device, endpoint: string, adapter: string)
    requires Unique(t) && endpoint != "" && d.endpoint == endpoint && d.adapter == adapter
    requires Lookup(t, KeyOf(d)).Some? && Lookup(t, KeyOf(d)).value.endpoint != "" ==>
               Lookup(t, KeyOf(d)).value.endpoint == endpoint
    requires forall x | x in t && Holds(x, endpoint) :: x.adapter == adapter
    ensures Lookup(Upsert(t, d, true).table, KeyOf(d)) == Some(d)
  {
    hide IndexOf;
    assert !Conflict(t, d, true) by {
      assert forall i | 0 <= i < |t| :: t[i] in t;
    }
    UpsertLookup(t, d, true, KeyOf(d));
  }

  /** Reconciling one adapter's own rows never touches other adapters' rows. */
  lemma {:induction false} OthersStay(t: seq<Device>, adapter: string, plans: map<Key, Plan>, keys: seq<Key>, n: nat,
                                      d: Device)
    requires Setting(t, adapter, plans, keys) && n <= |keys| && d.adapter != adapter
    ensures d in Folded(t, adapter, plans, keys, n) <==> d in t
  {
    hide ApplyPlan, Unique, Lookup;
    if n > 0 {
      OthersStay(t, adapter, plans, keys, n - 1, d);
      var key := keys[n - 1];
      assert key !in keys[..n - 1];
      Untouched(t, adapter, plans, keys, n - 1, key);
      OtherAdapterStays(Folded(t, adapter, plans, keys, n - 1), plans[key], adapter,
                        CountFor(plans, adapter, plans[key]), plans.Keys, d);
    }
  }

  lemma OtherAdapterStays(t: seq<Device>, plan: Plan, adapter: string, count: nat, current: set<Key>, d: Device)
    requires Unique(t) && d.adapter != adapter && (!plan.Reject? ==> plan.snapshot.adapter == adapter)
    ensures d in ApplyPlan(t, plan, adapter, count, current).table <==> d in t
  {
    hide Upsert, IndexOf, HeldElsewhere, EraseStale;
    if !plan.Reject? {
      var s := plan.snapshot;
      var kept := if s.adapter == adapter && count == 1 && !HeldElsewhere(t, s) then EraseStale(t, s, current) else t;
      EraseLookup(t, s, current, KeyOf(d));
      EraseSubset(t, s, current, d);
      UpsertLookup(kept, s, count >= 2, KeyOf(d));
      LookupMember(kept, d);
      LookupMember(Upsert(kept, s, count >= 2).table, d);
    }
  }

  lemma ClaimantEndsHolding(t: seq<Device>, adapter: string, rows: set<Device>, reason: string, key: Key,
                            endpoint: string)
    requires Unique(t) && endpoint != "" && forall r | r in rows :: r.adapter == adapter
    requires forall d | d in t && Holds(d, endpoint) :: d.adapter == adapter
    requires |Claimants(Plans(t, rows), adapter, endpoint)| >= 2 && key in Claimants(Plans(t, rows), adapter, endpoint)
    ensures exists d :: d in Reconciled(t, adapter, rows, reason) && KeyOf(d) == key && Holds(d, endpoint)
  {
    hide Lookup, Unique, SortedKeys, Plans, Folded;
    var plans := Plans(t, rows);
    var keys := SortedKeys(plans);
    ReconcileSetting(t, adapter, rows);
    assert key in keys;
    var i :| 0 <= i < |keys| && keys[i] == key;
    forall d | d in Folded(t, adapter, plans, keys, i) && Holds(d, endpoint) ensures d.adapter == adapter {
      if d.adapter != adapter {
        OthersStay(t, adapter, plans, keys, i, d);
      }
    }
    EachOfManyHolds(t, adapter, plans, keys, i, endpoint);
    var v, u := Folded(t, adapter, plans, keys, |keys|), Reconciled(t, adapter, rows, reason);
    Settled(t, adapter, plans, keys, i, |keys|);
    MarkMissingLookup(v, adapter, plans.Keys, reason, key);
    LookupIn(u, key);
    assert Lookup(u, key).value in u;
  }

  lemma OtherAdapterKeeps(t: seq<Device>, adapter: string, rows: set<Device>, reason: string, d: Device)
    requires Unique(t) && d in t && d.adapter != adapter && forall r | r in rows :: r.adapter == adapter
    ensures d in Reconciled(t, adapter, rows, reason)
  {
    hide Lookup, Unique, SortedKeys, Plans, Folded;
    var plans := Plans(t, rows);
    var keys := SortedKeys(plans);
    ReconcileSetting(t, adapter, rows);
    OthersStay(t, adapter, plans, keys, |keys|, d);
    var v, u := Folded(t, adapter, plans, keys, |keys|), Reconciled(t, adapter, rows, reason);
    var j :| 0 <= j < |v| && v[j] == d;
    assert u[j] == Missing(v[j], adapter, plans.Keys, reason);
  }

  /** Two rows that hold an endpoint, or one of another adapter, keep it from resolving to this adapter. */
  lemma NotResolved(u: seq<Device>, endpoint: string, adapter: string, a: Device, b: Device)
    requires a in u && b in u && Holds(a, endpoint) && Holds(b, endpoint)
    requires a != b || (a.adapter != adapter && Exclusive(u) && endpoint != "")
    ensures var r := ResolveEndpoint(u, endpoint); r.Found? ==> r.target.adapter != adapter
  {
    hide Scan;
    ScanExact(u, ByEndpoint(endpoint));
    var i :| 0 <= i < |u| && u[i] == a;
    var j :| 0 <= j < |u| && u[j] == b;
  }

  /**
   If all discovered rows are the adapter's own and two or more of its present
   devices claim an endpoint, the endpoint does not resolve to any of them.
   */
  lemma ManyClaimantsNeverResolve(t: seq<Device>, adapter: string, rows: set<Device>, reason: string, endpoint: string)
    requires Unique(t) && Exclusive(t) && endpoint != "" && forall r | r in rows :: r.adapter == adapter
    requires |Claimants(Plans(t, rows), adapter, endpoint)| >= 2
    ensures var r := ResolveEndpoint(Reconciled(t, adapter, rows, reason), endpoint);
            r.Found? ==> r.target.adapter != adapter
  {
    hide Unique, Exclusive, Plans, Reconciled, ResolveEndpoint;
    var claimants, u := Claimants(Plans(t, rows), adapter, endpoint), Reconciled(t, adapter, rows, reason);
    ReconcileKeeps(t, adapter, rows, reason);
    if d :| d in t && Holds(d, endpoint) && d.adapter != adapter {
      OtherAdapterKeeps(t, adapter, rows, reason, d);
      NotResolved(u, endpoint, adapter, d, d);
    } else {
      var k :| k in claimants;
      assert |claimants - {k}| >= 1;
      var l :| l in claimants - {k};
      ClaimantEndsHolding(t, adapter, rows, reason, k, endpoint);
      ClaimantEndsHolding(t, adapter, rows, reason, l, endpoint);
      var a :| a in u && KeyOf(a) == k && Holds(a, endpoint);
      var b :| b in u && KeyOf(b) == l && Holds(b, endpoint);
      NotResolved(u, endpoint, adapter, a, b);
    }
  }
}

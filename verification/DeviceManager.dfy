/**
 The device manager's loops, each proved to compute what `DeviceTable` specifies
 over the set of discovered rows; hence their order plays no part.
 */
module DeviceManager {
  import opened Wrappers
  import opened DeviceTable
  import opened Discovery

  // --------------------------------------------------------------------- upsert

  lemma {:induction false} IndexOfPrefix(t: seq<Device>, key: Key, n: nat)
    requires n <= |t| && IndexOf(t[..n], key).Some?
    ensures IndexOf(t, key) == IndexOf(t[..n], key)
    decreases |t|
  {
    if n < |t| {
      assert t[..|t| - 1][..n] == t[..n];
      IndexOfPrefix(t[..|t| - 1], key, n);
    } else {
      assert t[..n] == t;
    }
  }

  method FindRow(t: seq<Device>, key: Key) returns (at: Option<nat>)
    ensures at == IndexOf(t, key)
  {
    for i := 0 to |t|
      invariant IndexOf(t[..i], key).None?
    {
      assert t[..i + 1][..i] == t[..i];
      if KeyOf(t[i]) == key {
        IndexOfPrefix(t, key, i + 1);
        return Some(i);
      }
    }
    assert t[..|t|] == t;
    return None;
  }

  method FindConflict(t: seq<Device>, d: Device, allowSameAdapter: bool) returns (found: bool)
    ensures found == Conflict(t, d, allowSameAdapter)
  {
    if d.endpoint == "" {
      return false;
    }
    for i := 0 to |t|
      invariant forall j | 0 <= j < i :: !ConflictsWith(t[j], d, allowSameAdapter)
    {
      if ConflictsWith(t[i], d, allowSameAdapter) {
        return true;
      }
    }
    return false;
  }

  method UpsertRow(t: seq<Device>, d: Device, allowSameAdapter: bool) returns (o: Outcome)
    ensures o == Upsert(t, d, allowSameAdapter)
  {
    hide IndexOf, Conflict;
    var at := FindRow(t, KeyOf(d));
    var conflict := FindConflict(t, d, allowSameAdapter);
    if conflict {
      return Outcome(t, EndpointConflict);
    }
    if at.None? {
      return Outcome(t + [d], Inserted);
    }
    var existing, stored := t[at.value], d;
    if existing.endpoint != "" {
      if d.endpoint == "" {
        stored := d.(endpoint := existing.endpoint);
      } else if d.endpoint != existing.endpoint {
        return Outcome(t, EndpointChangeRejected);
      }
    }
    return Outcome(t[at.value := stored],
                   if existing.endpoint == "" && d.endpoint != "" then EndpointBound else Refreshed);
  }

  // ---------------------------------------------------------------------- plans

  function RowSet(rows: seq<Device>): set<Device> {
    set r | r in rows
  }

  /** Settles on one endpoint for the rows of a key, or finds that they clash. */
  method SettleEndpoint(known: string, rows: seq<Device>) returns (clash: bool, effective: string)
    ensures clash == Clash(known, Named(RowSet(rows)))
    ensures !clash ==> effective == Effective(known, Named(RowSet(rows)))
  {
    effective := known;
    ghost var named := Named(RowSet(rows));
    for i := 0 to |rows|
      invariant known != "" ==> effective == known
      invariant forall j | 0 <= j < i && rows[j].endpoint != "" :: rows[j].endpoint == effective
      invariant effective != known ==> effective in named
    {
      var endpoint := rows[i].endpoint;
      if endpoint != "" {
        assert endpoint in named by { assert rows[i] in RowSet(rows); }
        if effective != "" && endpoint != effective {
          return true, effective;
        }
        effective := endpoint;
      }
    }
    assert forall e | e in named :: e == effective;
    return false, effective;
  }

  method MakePlan(existing: Option<Device>, rows: seq<Device>) returns (plan: Plan)
    requires rows != []
    ensures plan == PlanOf(existing, RowSet(rows))
  {
    hide Clash, Named, Effective;
    assert rows[0] in RowSet(rows);
    var clash, effective := SettleEndpoint(KnownEndpoint(existing), rows);
    if clash {
      return Blocked(existing, if existing.None? then DiscoveryClaimConflict else EndpointChangeRejected);
    }
    var snapshot := rows[0].(endpoint := effective);
    for i := 0 to |rows|
      invariant forall j | 0 <= j < i :: rows[j].(endpoint := effective) == snapshot
    {
      if rows[i].(endpoint := effective) != snapshot {
        assert rows[i] in RowSet(rows);
        return Blocked(existing, DiscoveryClaimConflict);
      }
    }
    return Accept(snapshot);
  }

  /** The indices of the discovered rows, by key. */
  predicate Grouped(discovered: seq<Device>, groups: map<Key, seq<nat>>, n: nat)
    requires n <= |discovered|
  {
    && (forall i | 0 <= i < n :: KeyOf(discovered[i]) in groups && i in groups[KeyOf(discovered[i])])
    && (forall key | key in groups :: groups[key] != [] &&
          forall i | i in groups[key] :: i < n && KeyOf(discovered[i]) == key)
  }

  method GroupRows(discovered: seq<Device>) returns (groups: map<Key, seq<nat>>)
    ensures Grouped(discovered, groups, |discovered|)
    ensures groups.Keys == KeySet(RowSet(discovered))
  {
    groups := map[];
    for i := 0 to |discovered|
      invariant Grouped(discovered, groups, i)
    {
      var key := KeyOf(discovered[i]);
      groups := groups[key := (if key in groups then groups[key] else []) + [i]];
    }
    GroupKeys(discovered, groups);
  }

  lemma GroupKeys(discovered: seq<Device>, groups: map<Key, seq<nat>>)
    requires Grouped(discovered, groups, |discovered|)
    ensures groups.Keys == KeySet(RowSet(discovered))
  {
    forall key | key in groups ensures key in KeySet(RowSet(discovered)) {
      assert groups[key][0] in groups[key];
      assert discovered[groups[key][0]] in RowSet(discovered);
    }
  }

  method PickRows(discovered: seq<Device>, indices: seq<nat>) returns (rows: seq<Device>)
    requires forall i | i in indices :: i < |discovered|
    ensures |rows| == |indices| && forall k | 0 <= k < |rows| ::
              indices[k] < |discovered| && rows[k] == discovered[indices[k]]
  {
    rows := [];
    for k := 0 to |indices|
      invariant |rows| == k && forall j | 0 <= j < k :: indices[j] < |discovered| && rows[j] == discovered[indices[j]]
    {
      assert indices[k] in indices;
      rows := rows + [discovered[indices[k]]];
    }
  }

  lemma PickedRows(discovered: seq<Device>, groups: map<Key, seq<nat>>, key: Key, rows: seq<Device>)
    requires Grouped(discovered, groups, |discovered|) && key in groups && |rows| == |groups[key]|
    requires forall k | 0 <= k < |rows| :: groups[key][k] < |discovered| && rows[k] == discovered[groups[key][k]]
    ensures RowSet(rows) == RowsOf(RowSet(discovered), key)
  {
    forall r | r in RowSet(rows) ensures r in RowsOf(RowSet(discovered), key) {
      var k :| 0 <= k < |rows| && rows[k] == r;
      assert groups[key][k] in groups[key];
    }
    forall r | r in RowsOf(RowSet(discovered), key) ensures r in RowSet(rows) {
      var i :| 0 <= i < |discovered| && discovered[i] == r;
      var k :| 0 <= k < |groups[key]| && groups[key][k] == i;
      assert rows[k] == r;
    }
  }

  method MakePlans(t: seq<Device>, discovered: seq<Device>, groups: map<Key, seq<nat>>) returns (plans: map<Key, Plan>)
    requires Grouped(discovered, groups, |discovered|) && groups.Keys == KeySet(RowSet(discovered))
    ensures plans == Plans(t, RowSet(discovered))
  {
    hide PlanOf, Grouped, Lookup, InKeyOrder;
    var keys := InKeyOrder(groups.Keys);
    plans := map[];
    for k := 0 to |keys|
      invariant forall key :: key in plans <==> key in keys[..k]
      invariant forall key | key in plans :: plans[key] == PlanOf(Lookup(t, key), RowsOf(RowSet(discovered), key))
    {
      var key := keys[k];
      var existing := FindExisting(t, key);
      GroupInRange(discovered, groups, key);
      var rows := PickRows(discovered, groups[key]);
      PickedRows(discovered, groups, key, rows);
      var plan := MakePlan(existing, rows);
      plans := plans[key := plan];
      assert keys[..k + 1] == keys[..k] + [key];
    }
    assert keys[..|keys|] == keys;
  }

  lemma GroupInRange(discovered: seq<Device>, groups: map<Key, seq<nat>>, key: Key)
    requires Grouped(discovered, groups, |discovered|) && key in groups
    ensures groups[key] != [] && forall i | i in groups[key] :: i < |discovered| && KeyOf(discovered[i]) == key
  {
  }

  method FindExisting(t: seq<Device>, key: Key) returns (existing: Option<Device>)
    ensures existing == Lookup(t, key)
  {
    var at := FindRow(t, key);
    existing := if at.Some? then Some(t[at.value]) else None;
  }

  // --------------------------------------------------------------------- claims

  function CountIn(counts: map<string, nat>, endpoint: string): nat {
    if endpoint in counts then counts[endpoint] else 0
  }

  function ClaimantsAmong(plans: map<Key, Plan>, keys: seq<Key>, adapter: string, endpoint: string): set<Key> {
    set key | key in keys && key in plans && Claims(plans[key], adapter, endpoint)
  }

  method CountClaims(plans: map<Key, Plan>, adapter: string) returns (counts: map<string, nat>)
    ensures forall e :: CountIn(counts, e) == |Claimants(plans, adapter, e)|
  {
    hide SortedKeys, Claims;
    var keys := SortedKeys(plans);
    counts := map[];
    for k := 0 to |keys|
      invariant forall e :: CountIn(counts, e) == |ClaimantsAmong(plans, keys[..k], adapter, e)|
    {
      var key, plan := keys[k], plans[keys[k]];
      ghost var before := counts;
      if !plan.Reject? && Claims(plan, adapter, plan.snapshot.endpoint) {
        var e := plan.snapshot.endpoint;
        counts := counts[e := CountIn(counts, e) + 1];
      }
      forall e ensures CountIn(counts, e) == |ClaimantsAmong(plans, keys[..k + 1], adapter, e)| {
        OneMoreKey(plans, keys, k, adapter, e);
        ClaimsItsOwn(plan, adapter, e);
      }
    }
    assert keys[..|keys|] == keys;
    forall e ensures ClaimantsAmong(plans, keys, adapter, e) == Claimants(plans, adapter, e) {
    }
  }

  lemma OneMoreKey(plans: map<Key, Plan>, keys: seq<Key>, k: nat, adapter: string, e: string)
    requires k < |keys| && keys[k] in plans && keys[k] !in keys[..k]
    ensures |ClaimantsAmong(plans, keys[..k + 1], adapter, e)| ==
              |ClaimantsAmong(plans, keys[..k], adapter, e)| + (if Claims(plans[keys[k]], adapter, e) then 1 else 0)
  {
    hide Claims;
    var key := keys[k];
    assert keys[..k + 1] == keys[..k] + [key];
    var a, b := ClaimantsAmong(plans, keys[..k], adapter, e), ClaimantsAmong(plans, keys[..k + 1], adapter, e);
    if Claims(plans[key], adapter, e) {
      assert b == a + {key};
    } else {
      assert b == a;
    }
  }

  lemma ClaimsItsOwn(plan: Plan, adapter: string, e: string)
    ensures Claims(plan, adapter, e) <==>
              !plan.Reject? && plan.snapshot.endpoint == e && Claims(plan, adapter, plan.snapshot.endpoint)
  {
  }

  // -------------------------------------------------------------------- applying

  method EraseStaleRows(t: seq<Device>, snapshot: Device, current: set<Key>) returns (kept: seq<Device>)
    ensures kept == EraseStale(t, snapshot, current)
  {
    kept := [];
    for i := 0 to |t|
      invariant kept == EraseStale(t[..i], snapshot, current)
    {
      assert t[..i + 1][..i] == t[..i];
      if !Stale(t[i], snapshot, current) {
        kept := kept + [t[i]];
      }
    }
    assert t[..|t|] == t;
  }

  method FindHeldElsewhere(t: seq<Device>, snapshot: Device) returns (found: bool)
    ensures found == HeldElsewhere(t, snapshot)
  {
    for i := 0 to |t|
      invariant forall j | 0 <= j < i :: !(t[j].endpoint == snapshot.endpoint && t[j].adapter != snapshot.adapter)
    {
      if t[i].endpoint == snapshot.endpoint && t[i].adapter != snapshot.adapter {
        return true;
      }
    }
    return false;
  }

  method ApplyOne(t: seq<Device>, plan: Plan, adapter: string, count: nat, current: set<Key>) returns (o: Outcome)
    ensures o == ApplyPlan(t, plan, adapter, count, current)
  {
    hide Upsert, EraseStale, HeldElsewhere;
    if plan.Reject? {
      return Outcome(t, plan.status);
    }
    var d, kept := plan.snapshot, t;
    if d.adapter == adapter && count == 1 {
      var elsewhere := FindHeldElsewhere(t, d);
      if !elsewhere {
        kept := EraseStaleRows(t, d, current);
      }
    }
    if plan.Hold? {
      return Outcome(kept, plan.status);
    }
    o := UpsertRow(kept, d, count >= 2);
  }

  method MarkMissingRows(t: seq<Device>, adapter: string, current: set<Key>, reason: string)
    returns (marked: seq<Device>)
    ensures marked == MarkMissing(t, adapter, current, reason)
  {
    marked := t;
    for i := 0 to |t|
      invariant |marked| == |t|
      invariant forall j | 0 <= j < i :: marked[j] == Missing(t[j], adapter, current, reason)
      invariant forall j | i <= j < |t| :: marked[j] == t[j]
    {
      if t[i].adapter == adapter && KeyOf(t[i]) !in current {
        marked := marked[i := t[i].(online := false, reason := reason)];
      }
    }
  }

  method Report(results: seq<Status>, indices: seq<nat>, status: Status) returns (reported: seq<Status>)
    requires forall i | i in indices :: i < |results|
    ensures |reported| == |results|
    ensures forall i | 0 <= i < |results| :: reported[i] == if i in indices then status else results[i]
  {
    reported := results;
    for k := 0 to |indices|
      invariant |reported| == |results|
      invariant forall i | 0 <= i < |results| :: reported[i] == if i in indices[..k] then status else results[i]
    {
      assert indices[k] in indices;
      reported := reported[indices[k] := status];
      assert indices[..k + 1] == indices[..k] + [indices[k]];
    }
    assert indices[..|indices|] == indices;
  }

  // ------------------------------------------------------------- the whole thing

  /** Applies the plans in key order and reports one status per key. */
  method ApplyPlans(t: seq<Device>, adapter: string, plans: map<Key, Plan>, counts: map<string, nat>)
    returns (table: seq<Device>, statuses: map<Key, Status>)
    requires forall e :: CountIn(counts, e) == |Claimants(plans, adapter, e)|
    ensures table == Folded(t, adapter, plans, SortedKeys(plans), |SortedKeys(plans)|)
    ensures statuses.Keys == plans.Keys
    ensures forall i | 0 <= i < |SortedKeys(plans)| ::
              statuses[SortedKeys(plans)[i]] == StepKey(t, adapter, plans, SortedKeys(plans), i).status
  {
    hide ApplyPlan, SortedKeys, Claimants, StepKey, Folded;
    var keys := SortedKeys(plans);
    table, statuses := t, map[];
    assert t == Folded(t, adapter, plans, keys, 0) by { FoldedStart(t, adapter, plans, keys); }
    for k := 0 to |keys|
      invariant table == Folded(t, adapter, plans, keys, k)
      invariant statuses.Keys <= plans.Keys
      invariant forall i | 0 <= i < k ::
                  keys[i] in statuses && statuses[keys[i]] == StepKey(t, adapter, plans, keys, i).status
    {
      var plan := plans[keys[k]];
      var count := if plan.Reject? then 0 else CountIn(counts, plan.snapshot.endpoint);
      var o := ApplyOne(table, plan, adapter, count, plans.Keys);
      FoldedStep(t, adapter, plans, keys, k);
      table := o.table;
      statuses := statuses[keys[k] := o.status];
    }
    assert forall key | key in plans :: key in keys;
  }

  lemma FoldedStart(t: seq<Device>, adapter: string, plans: map<Key, Plan>, keys: seq<Key>)
    requires forall key | key in keys :: key in plans
    ensures Folded(t, adapter, plans, keys, 0) == t
  {
  }

  lemma FoldedStep(t: seq<Device>, adapter: string, plans: map<Key, Plan>, keys: seq<Key>, k: nat)
    requires k < |keys| && forall key | key in keys :: key in plans
    ensures var plan, table := plans[keys[k]], Folded(t, adapter, plans, keys, k);
            StepKey(t, adapter, plans, keys, k)
            == ApplyPlan(table, plan, adapter,
                         if plan.Reject? then 0 else |Claimants(plans, adapter, plan.snapshot.endpoint)|, plans.Keys)
    ensures Folded(t, adapter, plans, keys, k + 1) == StepKey(t, adapter, plans, keys, k).table
  {
    hide ApplyPlan, Claimants;
  }

  method ReportAll(discovered: seq<Device>, groups: map<Key, seq<nat>>, statuses: map<Key, Status>)
    returns (results: seq<Status>)
    requires Grouped(discovered, groups, |discovered|) && statuses.Keys == groups.Keys
    ensures |results| == |discovered|
    ensures forall i | 0 <= i < |discovered| ::
              KeyOf(discovered[i]) in statuses && results[i] == statuses[KeyOf(discovered[i])]
  {
    hide InKeyOrder;
    var keys := InKeyOrder(groups.Keys);
    results := seq(|discovered|, _ => Inserted);
    for k := 0 to |keys|
      invariant |results| == |discovered|
      invariant forall i | 0 <= i < |discovered| && KeyOf(discovered[i]) in keys[..k] ::
                  results[i] == statuses[KeyOf(discovered[i])]
    {
      results := Report(results, groups[keys[k]], statuses[keys[k]]);
      assert keys[..k + 1] == keys[..k] + [keys[k]];
    }
    assert keys[..|keys|] == keys;
  }

  class Manager {
    var devices: seq<Device>

    constructor ()
      ensures devices == []
    {
      devices := [];
    }

    method Store(d: Device) returns (status: Status)
      modifies this
      ensures Outcome(devices, status) == Upsert(old(devices), d, false)
      ensures old(Unique(devices) && Exclusive(devices)) ==> Unique(devices) && Exclusive(devices)
    {
      hide Upsert;
      if Unique(devices) && Exclusive(devices) {
        UpsertLookup(devices, d, false, KeyOf(d));
        UpsertExclusive(devices, d, false);
      }
      var o := UpsertRow(devices, d, false);
      devices := o.table;
      status := o.status;
    }

    method ReconcileDiscovery(adapter: string, discovered: seq<Device>, reason: string) returns (results: seq<Status>)
      modifies this
      ensures devices == Reconciled(old(devices), adapter, RowSet(discovered), reason)
      ensures |results| == |discovered|
      ensures forall i | 0 <= i < |discovered| ::
                && KeyOf(discovered[i]) in KeySet(RowSet(discovered))
                && results[i] == ReconcileStatus(old(devices), adapter, RowSet(discovered), KeyOf(discovered[i]))
    {
      hide PlanOf, StepKey, Folded, Grouped, SortedKeys, MarkMissing;
      var groups := GroupRows(discovered);
      var plans := MakePlans(devices, discovered, groups);
      var counts := CountClaims(plans, adapter);
      var table, statuses := ApplyPlans(devices, adapter, plans, counts);
      results := ReportAll(discovered, groups, statuses);
      devices := MarkMissingRows(table, adapter, plans.Keys, reason);
    }

    method MarkDeviceOffline(key: Key, reason: string)
      modifies this
      ensures devices == MarkOffline(old(devices), key, reason)
    {
      hide IndexOf;
      var at := FindRow(devices, key);
      if at.Some? {
        devices := devices[at.value := devices[at.value].(online := false, reason := reason)];
      }
    }
  }

  /** Rows in another order give the same table, and each row the same result. */
  lemma OrderDoesNotMatter(t: seq<Device>, adapter: string, a: seq<Device>, b: seq<Device>, reason: string)
    requires multiset(a) == multiset(b)
    ensures Reconciled(t, adapter, RowSet(a), reason) == Reconciled(t, adapter, RowSet(b), reason)
    ensures KeySet(RowSet(a)) == KeySet(RowSet(b))
    ensures forall key | key in KeySet(RowSet(a)) ::
              ReconcileStatus(t, adapter, RowSet(a), key) == ReconcileStatus(t, adapter, RowSet(b), key)
  {
    assert forall d :: d in a <==> d in multiset(a);
    assert forall d :: d in b <==> d in multiset(b);
    assert RowSet(a) == RowSet(b);
  }

  /**
   Two managers that hold the same devices reconcile the same rows, given in
   another order: they end with the same table and report each row alike.
   */
  method ReconcileInAnyOrder(m: Manager, n: Manager, adapter: string, a: seq<Device>, b: seq<Device>, reason: string)
    returns (p: seq<Status>, q: seq<Status>)
    requires m != n && m.devices == n.devices && multiset(a) == multiset(b)
    modifies m, n
    ensures m.devices == n.devices
    ensures |p| == |a| && |q| == |b|
    ensures forall i, j | 0 <= i < |a| && 0 <= j < |b| && KeyOf(a[i]) == KeyOf(b[j]) :: p[i] == q[j]
  {
    hide Reconciled, ReconcileStatus, KeySet, RowSet;
    OrderDoesNotMatter(m.devices, adapter, a, b, reason);
    p := m.ReconcileDiscovery(adapter, a, reason);
    q := n.ReconcileDiscovery(adapter, b, reason);
  }

  /** Marking a device offline changes neither keys nor endpoints. */
  lemma MarkOfflineKeeps(t: seq<Device>, key: Key, reason: string)
    requires Unique(t) && Exclusive(t)
    ensures var u := MarkOffline(t, key, reason);
            && Unique(u) && Exclusive(u)
            && (Lookup(t, key).Some? ==>
                   Lookup(u, key) == Some(Lookup(t, key).value.(online := false, reason := reason)))
  {
    hide IndexOf;
    var at := IndexOf(t, key);
    if at.Some? {
      IndexOfUpdate(t, at.value, t[at.value].(online := false, reason := reason), key);
    }
  }
}

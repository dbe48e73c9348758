/**
 What reconciling one adapter's discovery result keeps and decides, for every
 table and every set of discovered rows.
 */
module Discovery {
  import opened Wrappers
  import opened DeviceTable

  // ------------------------------------------------- what each operation changes

  lemma IndexOfUpdate(t: seq<Device>, i: nat, d: Device, key: Key)
    requires Unique(t) && i < |t| && KeyOf(d) == KeyOf(t[i])
    ensures Unique(t[i := d])
    ensures Lookup(t[i := d], key) == if key == KeyOf(d) then Some(d) else Lookup(t, key)
  {
    hide IndexOf;
    var u := t[i := d];
    assert forall j | 0 <= j < |t| :: KeyOf(u[j]) == KeyOf(t[j]);
    if Lookup(t, key).Some? {
      LookupAt(t, IndexOf(t, key).value);
      LookupAt(u, IndexOf(t, key).value);
    }
  }

  lemma LookupAppend(t: seq<Device>, d: Device, key: Key)
    requires Unique(t) && Lookup(t, KeyOf(d)).None?
    ensures Unique(t + [d])
    ensures Lookup(t + [d], key) == if key == KeyOf(d) then Some(d) else Lookup(t, key)
  {
    var u := t + [d];
    assert u[..|t|] == t;
  }

  /** A status tells whether the row was stored; no other row changes. */
  lemma UpsertLookup(t: seq<Device>, d: Device, allow: bool, key: Key)
    requires Unique(t)
    ensures var o := Upsert(t, d, allow);
            && Unique(o.table)
            && (!Accepted(o.status) ==> o.table == t)
            && Lookup(o.table, key) ==
                 if Accepted(o.status) && key == KeyOf(d)
                 then Some(if Lookup(t, key).Some? then Merge(Lookup(t, key).value, d) else d)
                 else Lookup(t, key)
  {
    hide IndexOf;
    var o := Upsert(t, d, allow);
    if Accepted(o.status) {
      var at := IndexOf(t, KeyOf(d));
      if at.None? {
        LookupAppend(t, d, key);
      } else {
        IndexOfUpdate(t, at.value, Merge(t[at.value], d), key);
      }
    }
  }

  lemma {:induction false} EraseSubset(t: seq<Device>, snapshot: Device, current: set<Key>, d: Device)
    ensures d in EraseStale(t, snapshot, current) <==> d in t && !Stale(d, snapshot, current)
  {
    if t != [] {
      EraseSubset(t[..|t| - 1], snapshot, current, d);
      assert t == t[..|t| - 1] + [t[|t| - 1]];
    }
  }

  lemma {:induction false} EraseUnique(t: seq<Device>, snapshot: Device, current: set<Key>)
    requires Unique(t)
    ensures Unique(EraseStale(t, snapshot, current))
  {
    if t != [] {
      var init, last := t[..|t| - 1], t[|t| - 1];
      EraseUnique(init, snapshot, current);
      var kept := EraseStale(init, snapshot, current);
      forall i | 0 <= i < |kept| ensures KeyOf(kept[i]) != KeyOf(last) {
        EraseSubset(init, snapshot, current, kept[i]);
        assert kept[i] in init;
      }
    }
  }

  lemma LookupMember(t: seq<Device>, d: Device)
    requires Unique(t)
    ensures d in t <==> Lookup(t, KeyOf(d)) == Some(d)
  {
    hide IndexOf;
    if d in t {
      var i :| 0 <= i < |t| && t[i] == d;
      LookupAt(t, i);
    }
  }

  lemma EraseLookup(t: seq<Device>, snapshot: Device, current: set<Key>, key: Key)
    requires Unique(t)
    ensures Unique(EraseStale(t, snapshot, current))
    ensures Lookup(EraseStale(t, snapshot, current), key) ==
              match Lookup(t, key)
              case Some(d) => if Stale(d, snapshot, current) then None else Some(d)
              case None => None
  {
    hide IndexOf, Stale;
    var u := EraseStale(t, snapshot, current);
    EraseUnique(t, snapshot, current);
    LookupIn(t, key);
    LookupIn(u, key);
    if Lookup(t, key).Some? {
      EraseSubset(t, snapshot, current, Lookup(t, key).value);
      LookupMember(u, Lookup(t, key).value);
    }
    if Lookup(u, key).Some? {
      EraseSubset(t, snapshot, current, Lookup(u, key).value);
      LookupMember(t, Lookup(u, key).value);
    }
  }

  lemma MarkMissingLookup(t: seq<Device>, adapter: string, current: set<Key>, reason: string, key: Key)
    requires Unique(t)
    ensures Unique(MarkMissing(t, adapter, current, reason))
    ensures Lookup(MarkMissing(t, adapter, current, reason), key) ==
              if Lookup(t, key).Some? then Some(Missing(Lookup(t, key).value, adapter, current, reason)) else None
  {
    hide IndexOf;
    var u := MarkMissing(t, adapter, current, reason);
    assert forall i | 0 <= i < |t| :: u[i] == Missing(t[i], adapter, current, reason) && KeyOf(u[i]) == KeyOf(t[i]);
    if Lookup(t, key).Some? {
      LookupAt(u, IndexOf(t, key).value);
    }
  }

  // ---------------------------------------------------------------- exclusivity

  lemma UpsertExclusive(t: seq<Device>, d: Device, allow: bool)
    requires Exclusive(t)
    ensures Exclusive(Upsert(t, d, allow).table)
  {
    hide IndexOf;
    var u, at := Upsert(t, d, allow).table, IndexOf(t, KeyOf(d));
    if !Conflict(t, d, allow) {
      assert forall i | 0 <= i < |t| :: !(d.endpoint != "" && ConflictsWith(t[i], d, allow));
    }
  }

  lemma EraseExclusive(t: seq<Device>, snapshot: Device, current: set<Key>)
    requires Exclusive(t)
    ensures Exclusive(EraseStale(t, snapshot, current))
  {
    hide Stale, EraseStale;
    var u := EraseStale(t, snapshot, current);
    forall i, j | 0 <= i < |u| && 0 <= j < |u| && u[i].endpoint != "" && u[i].endpoint == u[j].endpoint
      ensures u[i].adapter == u[j].adapter
    {
      EraseSubset(t, snapshot, current, u[i]);
      EraseSubset(t, snapshot, current, u[j]);
      assert u[i] in t && u[j] in t;
    }
  }

  lemma ApplyPlanKeeps(t: seq<Device>, plan: Plan, adapter: string, count: nat, current: set<Key>)
    requires Unique(t) && Exclusive(t)
    ensures var o := ApplyPlan(t, plan, adapter, count, current); Unique(o.table) && Exclusive(o.table)
  {
    hide Upsert, EraseStale, Unique, Exclusive, HeldElsewhere;
    if !plan.Reject? {
      var d := plan.snapshot;
      EraseUnique(t, d, current);
      EraseExclusive(t, d, current);
      var kept := if d.adapter == adapter && count == 1 && !HeldElsewhere(t, d) then EraseStale(t, d, current) else t;
      UpsertLookup(kept, d, count >= 2, KeyOf(d));
      UpsertExclusive(kept, d, count >= 2);
    }
  }

  lemma {:induction false} FoldedKeeps(t: seq<Device>, adapter: string, plans: map<Key, Plan>, keys: seq<Key>, n: nat)
    requires Unique(t) && Exclusive(t)
    requires n <= |keys| && forall key | key in keys :: key in plans
    ensures var u := Folded(t, adapter, plans, keys, n); Unique(u) && Exclusive(u)
  {
    hide Unique, Exclusive, ApplyPlan;
    if n > 0 {
      FoldedKeeps(t, adapter, plans, keys, n - 1);
      var plan := plans[keys[n - 1]];
      ApplyPlanKeeps(Folded(t, adapter, plans, keys, n - 1), plan, adapter, CountFor(plans, adapter, plan), plans.Keys);
    }
  }

  // ------------------------------------------------------------ row by row

  /** Each plan speaks about the row of its own key. */
  ghost predicate Fit(t: seq<Device>, plans: map<Key, Plan>) {
    forall key | key in plans && !plans[key].Reject? ::
      && KeyOf(plans[key].snapshot) == key
      && (plans[key].Hold? ==> Lookup(t, key) == Some(plans[key].snapshot) && !Accepted(plans[key].status))
      && (Lookup(t, key).Some? && Lookup(t, key).value.endpoint != "" ==>
            plans[key].snapshot.endpoint == Lookup(t, key).value.endpoint)
  }

  lemma PlansFit(t: seq<Device>, rows: set<Device>)
    ensures Fit(t, Plans(t, rows))
    ensures Plans(t, rows).Keys == KeySet(rows)
    ensures forall key | key in Plans(t, rows) && Plans(t, rows)[key].Reject? :: !Accepted(Plans(t, rows)[key].status)
  {
    forall key | key in KeySet(rows)
      ensures var plan := Plans(t, rows)[key];
              if plan.Reject? then !Accepted(plan.status)
              else
                && KeyOf(plan.snapshot) == key
                && (plan.Hold? ==> Lookup(t, key) == Some(plan.snapshot) && !Accepted(plan.status))
                && (Lookup(t, key).Some? && Lookup(t, key).value.endpoint != "" ==>
                      plan.snapshot.endpoint == Lookup(t, key).value.endpoint)
    {
      LookupIn(t, key);
      PlanFits(Lookup(t, key), RowsOf(rows, key), key);
    }
  }

  lemma PlanFits(existing: Option<Device>, rows: set<Device>, key: Key)
    requires forall r | r in rows :: KeyOf(r) == key
    requires existing.Some? ==> KeyOf(existing.value) == key
    ensures var plan := PlanOf(existing, rows);
            if plan.Reject? then !Accepted(plan.status)
            else
              && KeyOf(plan.snapshot) == key
              && (plan.Hold? ==> existing == Some(plan.snapshot) && !Accepted(plan.status))
              && (existing.Some? && existing.value.endpoint != "" ==> plan.snapshot.endpoint == existing.value.endpoint)
  {
    hide Clash, Uniform;
  }

  ghost predicate Planned(t: seq<Device>, plans: map<Key, Plan>, keys: seq<Key>) {
    && Unique(t) && Fit(t, plans)
    && (forall key | key in keys :: key in plans)
    && forall i, j | 0 <= i < j < |keys| :: keys[i] != keys[j]
  }

  /** One key's plan changes only its own row and, possibly, removes rows of absent devices. */
  lemma ApplyPlanLookup(t: seq<Device>, plan: Plan, adapter: string, count: nat, current: set<Key>, key: Key)
    requires Unique(t)
    ensures var u := ApplyPlan(t, plan, adapter, count, current).table;
            && Unique(u)
            && (plan.Reject? || key != KeyOf(plan.snapshot) ==>
                  Lookup(u, key) == Lookup(t, key) || (Lookup(u, key).None? && key !in current))
  {
    hide Upsert, EraseStale, HeldElsewhere, IndexOf;
    if !plan.Reject? {
      var d := plan.snapshot;
      EraseLookup(t, d, current, key);
      LookupIn(t, key);
      var kept := if d.adapter == adapter && count == 1 && !HeldElsewhere(t, d) then EraseStale(t, d, current) else t;
      UpsertLookup(kept, d, count >= 2, key);
    }
  }

  /** Rows whose key has not had its turn are as they were, unless the device is absent. */
  lemma {:induction false} Untouched(t: seq<Device>, adapter: string, plans: map<Key, Plan>, keys: seq<Key>, n: nat,
                                     key: Key)
    requires Planned(t, plans, keys) && n <= |keys| && key !in keys[..n]
    ensures var u := Folded(t, adapter, plans, keys, n);
            Unique(u) && (Lookup(u, key) == Lookup(t, key) || (Lookup(u, key).None? && key !in plans))
  {
    hide ApplyPlan, Unique, Lookup;
    if n > 0 {
      Untouched(t, adapter, plans, keys, n - 1, key);
      var plan := plans[keys[n - 1]];
      assert keys[n - 1] in keys[..n];
      ApplyPlanLookup(Folded(t, adapter, plans, keys, n - 1), plan, adapter, CountFor(plans, adapter, plan), plans.Keys,
                      key);
    }
  }

  /** After its turn, a present device's row stays. */
  lemma {:induction false} Settled(t: seq<Device>, adapter: string, plans: map<Key, Plan>, keys: seq<Key>, i: nat,
                                   n: nat)
    requires Planned(t, plans, keys) && i < n <= |keys|
    ensures Unique(Folded(t, adapter, plans, keys, n))
    ensures Lookup(Folded(t, adapter, plans, keys, n), keys[i])
            == Lookup(Folded(t, adapter, plans, keys, i + 1), keys[i])
    decreases n
  {
    hide ApplyPlan, Unique, Lookup;
    var plan := plans[keys[n - 1]];
    if n == i + 1 {
      Untouched(t, adapter, plans, keys, i, keys[i]);
    } else {
      Settled(t, adapter, plans, keys, i, n - 1);
    }
    ApplyPlanLookup(Folded(t, adapter, plans, keys, n - 1), plan, adapter, CountFor(plans, adapter, plan), plans.Keys,
                    keys[i]);
  }

  /** What the turn of a present key does to its own row. */
  lemma TurnLookup(t: seq<Device>, plan: Plan, adapter: string, count: nat, current: set<Key>, key: Key)
    requires Unique(t) && key in current
    requires plan.Reject? ==> !Accepted(plan.status)
    requires plan.Hold? ==> KeyOf(plan.snapshot) == key && !Accepted(plan.status)
    requires plan.Accept? ==>
               && KeyOf(plan.snapshot) == key
               && (Lookup(t, key).Some? && Lookup(t, key).value.endpoint != "" ==>
                     plan.snapshot.endpoint == Lookup(t, key).value.endpoint)
    ensures var o := ApplyPlan(t, plan, adapter, count, current);
            Lookup(o.table, key) == if Accepted(o.status) then Some(plan.snapshot) else Lookup(t, key)
  {
    hide Upsert, EraseStale, HeldElsewhere, IndexOf;
    if !plan.Reject? {
      var d := plan.snapshot;
      EraseLookup(t, d, current, key);
      LookupIn(t, key);
      var kept := if d.adapter == adapter && count == 1 && !HeldElsewhere(t, d) then EraseStale(t, d, current) else t;
      UpsertLookup(kept, d, count >= 2, key);
    }
  }

  // ------------------------------------------------------------------ theorems

  lemma PlannedReconcile(t: seq<Device>, rows: set<Device>)
    requires Unique(t)
    ensures var plans := Plans(t, rows); Planned(t, plans, SortedKeys(plans)) && plans.Keys == KeySet(rows)
  {
    hide Unique, Fit, Plans;
    PlansFit(t, rows);
  }

  /** Keys stay unique and no two adapters come to share an endpoint, whatever was discovered. */
  lemma ReconcileKeeps(t: seq<Device>, adapter: string, rows: set<Device>, reason: string)
    requires Unique(t) && Exclusive(t)
    ensures var u := Reconciled(t, adapter, rows, reason); Unique(u) && Exclusive(u)
  {
    hide SortedKeys, Plans, Folded;
    var plans := Plans(t, rows);
    var keys := SortedKeys(plans);
    FoldedKeeps(t, adapter, plans, keys, |keys|);
    var v := Folded(t, adapter, plans, keys, |keys|);
    var u := Reconciled(t, adapter, rows, reason);
    assert forall i | 0 <= i < |v| :: u[i] == Missing(v[i], adapter, plans.Keys, reason);
  }

  /** Every row of the adapter that was not discovered ends offline, for the given reason. */
  lemma AbsentEndOffline(t: seq<Device>, adapter: string, rows: set<Device>, reason: string, d: Device)
    requires d in Reconciled(t, adapter, rows, reason) && d.adapter == adapter && KeyOf(d) !in KeySet(rows)
    ensures !d.online && d.reason == reason
  {
    hide SortedKeys, Folded, PlanOf;
    var plans := Plans(t, rows);
    var keys := SortedKeys(plans);
    var v, u := Folded(t, adapter, plans, keys, |keys|), Reconciled(t, adapter, rows, reason);
    var i :| 0 <= i < |u| && u[i] == d;
    assert u[i] == Missing(v[i], adapter, plans.Keys, reason);
  }

  /** The final row of a present key is the row right after the key's turn. */
  lemma ReconciledPresent(t: seq<Device>, adapter: string, rows: set<Device>, reason: string, key: Key)
    requires Unique(t) && key in KeySet(rows)
    ensures Accepted(ReconcileStatus(t, adapter, rows, key)) ==> Plans(t, rows)[key].Accept?
    ensures Lookup(Reconciled(t, adapter, rows, reason), key) ==
              if Accepted(ReconcileStatus(t, adapter, rows, key)) then Some(Plans(t, rows)[key].snapshot)
              else Lookup(t, key)
  {
    hide SortedKeys, Lookup, ApplyPlan, Unique, PlanOf;
    var plans := Plans(t, rows);
    var keys := SortedKeys(plans);
    PlannedReconcile(t, rows);
    PlansFit(t, rows);
    assert key in keys;
    var i :| 0 <= i < |keys| && keys[i] == key;
    assert keys[i] !in keys[..i];
    Untouched(t, adapter, plans, keys, i, key);
    Settled(t, adapter, plans, keys, i, |keys|);
    var u := Folded(t, adapter, plans, keys, i);
    TurnLookup(u, plans[key], adapter, CountFor(plans, adapter, plans[key]), plans.Keys, key);
    TurnStatus(u, plans[key], adapter, CountFor(plans, adapter, plans[key]), plans.Keys);
    MarkMissingLookup(Folded(t, adapter, plans, keys, |keys|), adapter, plans.Keys, reason, key);
    LookupIn(Folded(t, adapter, plans, keys, |keys|), key);
  }

  lemma TurnStatus(t: seq<Device>, plan: Plan, adapter: string, count: nat, current: set<Key>)
    requires !plan.Accept? ==> !Accepted(plan.status)
    ensures Accepted(ApplyPlan(t, plan, adapter, count, current).status) ==> plan.Accept?
  {
    hide Upsert, EraseStale, HeldElsewhere;
  }

  /**
   The result reported for a discovered row says what happened to the table:
   accepted means the row is stored with the endpoint its key has settled on,
   anything else means the stored row did not change.
   */
  lemma StatusTellsTable(t: seq<Device>, adapter: string, rows: set<Device>, reason: string, row: Device)
    requires Unique(t) && row in rows
    ensures var before, after := Lookup(t, KeyOf(row)), Lookup(Reconciled(t, adapter, rows, reason), KeyOf(row));
            if Accepted(ReconcileStatus(t, adapter, rows, KeyOf(row))) then
              && after.Some? && after.value == row.(endpoint := after.value.endpoint)
              && (row.endpoint != "" ==> after.value.endpoint == row.endpoint)
            else after == before
  {
    hide Reconciled, ReconcileStatus, Lookup, Unique;
    var key := KeyOf(row);
    ReconciledPresent(t, adapter, rows, reason, key);
    PlanAccepts(Lookup(t, key), RowsOf(rows, key), row);
  }

  lemma PlanAccepts(existing: Option<Device>, rows: set<Device>, row: Device)
    requires row in rows
    ensures var plan := PlanOf(existing, rows);
            plan.Accept? ==>
              && plan.snapshot == row.(endpoint := plan.snapshot.endpoint)
              && (row.endpoint != "" ==> plan.snapshot.endpoint == row.endpoint)
  {
    assert row.endpoint != "" ==> row.endpoint in Named(rows);
  }

  /** A bound endpoint never changes while its row exists. */
  lemma EndpointStable(t: seq<Device>, adapter: string, rows: set<Device>, reason: string, key: Key)
    requires Unique(t)
    ensures var before, after := Lookup(t, key), Lookup(Reconciled(t, adapter, rows, reason), key);
            before.Some? && after.Some? && before.value.endpoint != "" ==> after.value.endpoint == before.value.endpoint
  {
    if key in KeySet(rows) {
      hide Reconciled, Lookup, Unique, PlanOf, ReconcileStatus;
      ReconciledPresent(t, adapter, rows, reason, key);
      PlansFit(t, rows);
    } else {
      hide Lookup, Unique, PlanOf, Folded, SortedKeys;
      var plans := Plans(t, rows);
      var keys := SortedKeys(plans);
      PlannedReconcile(t, rows);
      Untouched(t, adapter, plans, keys, |keys|, key);
      MarkMissingLookup(Folded(t, adapter, plans, keys, |keys|), adapter, plans.Keys, reason, key);
    }
  }
}

/**
 The device table: one row per adapter and device id, and the endpoint each row
 is bound to. `Upsert` stores one row; `Reconciled` replaces what one adapter
 last discovered. The specification sees the discovered rows as a set.
 */
module DeviceTable {
  import opened Wrappers
  import opened Ordering

  datatype DeliveryMode = LocalProjection | NativeRelay

  datatype Details = Details(vendor: string, model: string, firmware: string, hardware: string,
                             transport: string, health: string)

  /** `endpoint` "" is unbound. */
  datatype Device = Device(adapter: string, id: string, serial: string, endpoint: string, mode: DeliveryMode,
                           online: bool, reason: string, details: Details)

  type Key = (string, string)

  function KeyOf(d: Device): Key {
    (d.adapter, d.id)
  }

  datatype Status =
    | Inserted | Refreshed | EndpointBound
    | EndpointConflict | EndpointChangeRejected | DiscoveryClaimConflict

  predicate Accepted(status: Status) {
    status == Inserted || status == Refreshed || status == EndpointBound
  }

  // --------------------------------------------------------------------- lookup

  /** The first row with this key. */
  function IndexOf(t: seq<Device>, key: Key): (at: Option<nat>)
    ensures at.Some? ==> at.value < |t| && KeyOf(t[at.value]) == key
    ensures at.None? ==> forall i | 0 <= i < |t| :: KeyOf(t[i]) != key
  {
    if t == [] then None
    else
      var n := |t| - 1;
      var at := IndexOf(t[..n], key);
      if at.Some? then at else if KeyOf(t[n]) == key then Some(n) else None
  }

  function Lookup(t: seq<Device>, key: Key): Option<Device> {
    var at := IndexOf(t, key);
    if at.Some? then Some(t[at.value]) else None
  }

  predicate Unique(t: seq<Device>) {
    forall i, j | 0 <= i < j < |t| :: KeyOf(t[i]) != KeyOf(t[j])
  }

  /** Two adapters never share an endpoint. */
  predicate Exclusive(t: seq<Device>) {
    forall i, j | 0 <= i < |t| && 0 <= j < |t| ::
      t[i].endpoint != "" && t[i].endpoint == t[j].endpoint ==> t[i].adapter == t[j].adapter
  }

  lemma LookupAt(t: seq<Device>, i: nat)
    requires Unique(t) && i < |t|
    ensures Lookup(t, KeyOf(t[i])) == Some(t[i]) && IndexOf(t, KeyOf(t[i])) == Some(i)
  {
  }

  lemma LookupIn(t: seq<Device>, key: Key)
    ensures Lookup(t, key).Some? ==> Lookup(t, key).value in t && KeyOf(Lookup(t, key).value) == key
  {
  }

  // --------------------------------------------------------------------- upsert

  predicate ConflictsWith(current: Device, d: Device, allowSameAdapter: bool) {
    && KeyOf(current) != KeyOf(d) && current.endpoint == d.endpoint
    && (!allowSameAdapter || current.adapter != d.adapter)
  }

  predicate Conflict(t: seq<Device>, d: Device, allowSameAdapter: bool) {
    d.endpoint != "" && exists i | 0 <= i < |t| :: ConflictsWith(t[i], d, allowSameAdapter)
  }

  /** What a row becomes: a bound endpoint outlives an update that does not name it. */
  function Merge(existing: Device, d: Device): Device {
    if d.endpoint == "" then d.(endpoint := existing.endpoint) else d
  }

  datatype Outcome = Outcome(table: seq<Device>, status: Status)

  function Upsert(t: seq<Device>, d: Device, allowSameAdapter: bool): Outcome {
    var at := IndexOf(t, KeyOf(d));
    if Conflict(t, d, allowSameAdapter) then Outcome(t, EndpointConflict)
    else if at.None? then Outcome(t + [d], Inserted)
    else
      var existing := t[at.value];
      if existing.endpoint != "" && d.endpoint != "" && d.endpoint != existing.endpoint
      then Outcome(t, EndpointChangeRejected)
      else Outcome(t[at.value := Merge(existing, d)],
                   if existing.endpoint == "" && d.endpoint != "" then EndpointBound else Refreshed)
  }

  // ---------------------------------------------------------------- reconciling

  /** What the rows of one key amount to. */
  datatype Plan =
    | Accept(snapshot: Device)
    | Hold(snapshot: Device, status: Status)
    | Reject(status: Status)

  function Blocked(existing: Option<Device>, status: Status): Plan {
    if existing.Some? && existing.value.endpoint != "" then Hold(existing.value, status) else Reject(status)
  }

  function KnownEndpoint(existing: Option<Device>): string {
    if existing.Some? then existing.value.endpoint else ""
  }

  function Named(rows: set<Device>): set<string> {
    set r | r in rows && r.endpoint != "" :: r.endpoint
  }

  /** The rows of one key name endpoints that differ from each other or from the bound one. */
  predicate Clash(known: string, named: set<string>) {
    if known != "" then exists e | e in named :: e != known
    else exists e, f | e in named && f in named :: e != f
  }

  ghost function Effective(known: string, named: set<string>): string {
    if known != "" || named == {} then known
    else
      var e :| e in named;
      e
  }

  ghost predicate Uniform(rows: set<Device>, endpoint: string) {
    forall a, b | a in rows && b in rows :: a.(endpoint := endpoint) == b.(endpoint := endpoint)
  }

  ghost function PlanOf(existing: Option<Device>, rows: set<Device>): Plan {
    var known := KnownEndpoint(existing);
    if rows == {} then Reject(DiscoveryClaimConflict)
    else if Clash(known, Named(rows))
    then Blocked(existing, if existing.None? then DiscoveryClaimConflict else EndpointChangeRejected)
    else
      var effective := Effective(known, Named(rows));
      if !Uniform(rows, effective) then Blocked(existing, DiscoveryClaimConflict)
      else
        var r :| r in rows;
        Accept(r.(endpoint := effective))
  }

  function KeySet(rows: set<Device>): set<Key> {
    set r | r in rows :: KeyOf(r)
  }

  function RowsOf(rows: set<Device>, key: Key): set<Device> {
    set r | r in rows && KeyOf(r) == key
  }

  ghost function Plans(t: seq<Device>, rows: set<Device>): map<Key, Plan> {
    map key | key in KeySet(rows) :: PlanOf(Lookup(t, key), RowsOf(rows, key))
  }

  predicate Claims(plan: Plan, adapter: string, endpoint: string) {
    !plan.Reject? && plan.snapshot.adapter == adapter && plan.snapshot.endpoint == endpoint && endpoint != ""
  }

  /** The present devices of the adapter that stand for an endpoint. */
  function Claimants(plans: map<Key, Plan>, adapter: string, endpoint: string): set<Key> {
    set key | key in plans && Claims(plans[key], adapter, endpoint)
  }

  /** An absent row of the same adapter that still holds the snapshot's endpoint. */
  predicate Stale(d: Device, snapshot: Device, current: set<Key>) {
    d.adapter == snapshot.adapter && d.id != snapshot.id && d.endpoint == snapshot.endpoint && KeyOf(d) !in current
  }

  function EraseStale(t: seq<Device>, snapshot: Device, current: set<Key>): seq<Device> {
    if t == [] then []
    else
      var n := |t| - 1;
      EraseStale(t[..n], snapshot, current) + (if Stale(t[n], snapshot, current) then [] else [t[n]])
  }

  predicate HeldElsewhere(t: seq<Device>, snapshot: Device) {
    exists i | 0 <= i < |t| :: t[i].endpoint == snapshot.endpoint && t[i].adapter != snapshot.adapter
  }

  function ApplyPlan(t: seq<Device>, plan: Plan, adapter: string, count: nat, current: set<Key>): Outcome {
    if plan.Reject? then Outcome(t, plan.status)
    else
      var d := plan.snapshot;
      var kept := if d.adapter == adapter && count == 1 && !HeldElsewhere(t, d) then EraseStale(t, d, current) else t;
      if plan.Hold? then Outcome(kept, plan.status) else Upsert(kept, d, count >= 2)
  }

  function CountFor(plans: map<Key, Plan>, adapter: string, plan: Plan): nat {
    if plan.Reject? then 0 else |Claimants(plans, adapter, plan.snapshot.endpoint)|
  }

  function InKeyOrder(keys: set<Key>): (ordered: seq<Key>)
    ensures forall key :: key in ordered <==> key in keys
    ensures forall i, j | 0 <= i < j < |ordered| :: ordered[i] != ordered[j]
  {
    PairOrder();
    var ordered := Ascending(keys, PairLess);
    assert forall i, j | 0 <= i < j < |ordered| :: PairLess(ordered[i], ordered[j]);
    ordered
  }

  function SortedKeys(plans: map<Key, Plan>): (keys: seq<Key>)
    ensures forall key :: key in keys <==> key in plans
    ensures forall i, j | 0 <= i < j < |keys| :: keys[i] != keys[j]
  {
    InKeyOrder(plans.Keys)
  }

  /** The table after the first `n` keys, in key order. */
  function Folded(t: seq<Device>, adapter: string, plans: map<Key, Plan>, keys: seq<Key>, n: nat): seq<Device>
    requires n <= |keys| && forall key | key in keys :: key in plans
    decreases n, 0
  {
    if n == 0 then t else StepKey(t, adapter, plans, keys, n - 1).table
  }

  function StepKey(t: seq<Device>, adapter: string, plans: map<Key, Plan>, keys: seq<Key>, i: nat): Outcome
    requires i < |keys| && forall key | key in keys :: key in plans
    decreases i, 1
  {
    var plan := plans[keys[i]];
    ApplyPlan(Folded(t, adapter, plans, keys, i), plan, adapter, CountFor(plans, adapter, plan), plans.Keys)
  }

  function Missing(d: Device, adapter: string, current: set<Key>, reason: string): Device {
    if d.adapter == adapter && KeyOf(d) !in current then d.(online := false, reason := reason) else d
  }

  function MarkMissing(t: seq<Device>, adapter: string, current: set<Key>, reason: string): seq<Device> {
    seq(|t|, i requires 0 <= i < |t| => Missing(t[i], adapter, current, reason))
  }

  ghost function Reconciled(t: seq<Device>, adapter: string, rows: set<Device>, reason: string): seq<Device> {
    var plans := Plans(t, rows);
    var keys := SortedKeys(plans);
    MarkMissing(Folded(t, adapter, plans, keys, |keys|), adapter, plans.Keys, reason)
  }

  /** The result reported for every discovered row with this key. */
  ghost function ReconcileStatus(t: seq<Device>, adapter: string, rows: set<Device>, key: Key): Status
    requires key in KeySet(rows)
  {
    var plans := Plans(t, rows);
    var keys := SortedKeys(plans);
    assert key in keys;
    var i :| 0 <= i < |keys| && keys[i] == key;
    StepKey(t, adapter, plans, keys, i).status
  }

  /** `mark_offline` for one key. */
  function MarkOffline(t: seq<Device>, key: Key, reason: string): seq<Device> {
    var at := IndexOf(t, key);
    if at.None? then t else t[at.value := t[at.value].(online := false, reason := reason)]
  }
}

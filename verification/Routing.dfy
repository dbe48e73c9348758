/**
 Resolving a command to a device: by endpoint, by device id, by serial number or
 by either of the last two. Every lookup fails closed when it is ambiguous.
 */
module Routing {
  import opened Wrappers
  import opened DeviceTable

  // ------------------------------------------------------------------ selectors

  datatype Selector =
    | ByEndpoint(text: string)
    | ById(text: string)
    | BySerial(text: string)
    | ByIdOrSerial(text: string)

  predicate Selects(selector: Selector, d: Device) {
    match selector
    case ByEndpoint(e) => d.endpoint == e
    case ById(id) => d.id == id
    case BySerial(s) => d.serial == s
    case ByIdOrSerial(s) => d.id == s || d.serial == s
  }

  datatype Match = NoMatch | One(device: Device) | Many

  /** What a scan that gives up at the second hit finds. */
  function Scan(t: seq<Device>, selector: Selector): Match {
    if t == [] then NoMatch
    else
      var n := |t| - 1;
      var found := Scan(t[..n], selector);
      if !Selects(selector, t[n]) then found
      else if found == NoMatch then One(t[n])
      else Many
  }

  /** The scan finds one device exactly when one row, and no other, is selected. */
  lemma {:induction false} ScanExact(t: seq<Device>, selector: Selector)
    ensures Scan(t, selector).NoMatch? <==> forall i | 0 <= i < |t| :: !Selects(selector, t[i])
    ensures forall d :: Scan(t, selector) == One(d) <==>
              exists i | 0 <= i < |t| :: OnlyAt(t, selector, i) && t[i] == d
  {
    if t != [] {
      var n := |t| - 1;
      ScanExact(t[..n], selector);
      forall d ensures Scan(t, selector) == One(d) <==> exists i | 0 <= i < |t| :: OnlyAt(t, selector, i) && t[i] == d {
        if i :| 0 <= i < n && OnlyAt(t[..n], selector, i) && t[..n][i] == d && !Selects(selector, t[n]) {
          assert OnlyAt(t, selector, i);
        }
        if Selects(selector, t[n]) && Scan(t[..n], selector).NoMatch? && d == t[n] {
          assert OnlyAt(t, selector, n);
        }
        if i :| 0 <= i < |t| && OnlyAt(t, selector, i) && t[i] == d {
          if i < n {
            assert OnlyAt(t[..n], selector, i);
          }
        }
      }
    }
  }

  /** Row `i`, and no other, is selected. */
  predicate OnlyAt(t: seq<Device>, selector: Selector, i: nat) {
    && i < |t| && Selects(selector, t[i])
    && forall j | 0 <= j < |t| && j != i :: !Selects(selector, t[j])
  }

  // ------------------------------------------------------------------- resolving

  datatype Target = Target(adapter: string, id: string, endpoint: string, mode: DeliveryMode)

  function TargetOf(d: Device): Target {
    Target(d.adapter, d.id, d.endpoint, d.mode)
  }

  datatype Resolution = Found(target: Target) | NotFound | Unavailable | Ambiguous

  function ResolveEndpoint(t: seq<Device>, endpoint: string): Resolution {
    if endpoint == "" then NotFound
    else
      match Scan(t, ByEndpoint(endpoint))
      case NoMatch => NotFound
      case Many => Ambiguous
      case One(d) => if d.online then Found(TargetOf(d)) else Unavailable
  }

  datatype SelectorKind = Unspecified | ProviderLocalId | SerialNumber

  function DeviceSelector(text: string, kind: SelectorKind): Selector {
    match kind
    case Unspecified => ByIdOrSerial(text)
    case ProviderLocalId => ById(text)
    case SerialNumber => BySerial(text)
  }

  /** An empty text selects nothing, except that an empty provider-local id is looked up as it is. */
  function ResolveDevice(t: seq<Device>, text: string, kind: SelectorKind): Option<Target> {
    if text == "" && kind != ProviderLocalId then None
    else
      match Scan(t, DeviceSelector(text, kind))
      case One(d) => if d.online then Some(TargetOf(d)) else None
      case _ => None
  }

  // -------------------------------------------------------------------- commands

  datatype Command = Command(method_: string, dst: string, device: string, selectorKind: SelectorKind)

  datatype Failure = RouteNotFound | RouteUnavailable

  datatype CommandRoute = Routed(target: Target) | Unrouted(failure: Failure)

  function ResolveCommand(t: seq<Device>, c: Command): CommandRoute {
    if c.dst == "" then
      match ResolveDevice(t, c.device, c.selectorKind)
      case Some(target) => Routed(target)
      case None => Unrouted(RouteNotFound)
    else
      match ResolveEndpoint(t, c.dst)
      case Found(target) => Routed(target)
      case NotFound => Unrouted(RouteNotFound)
      case _ => Unrouted(RouteUnavailable)
  }

  const DEVICES_LIST := "devices.list"

  function PhysicalKey(adapter: string, id: string): string {
    "physical:" + adapter + ":" + id
  }

  /** The lane a command is queued in. */
  function RouteKey(t: seq<Device>, c: Command): string {
    if c.method_ == DEVICES_LIST then "control-plane"
    else
      match ResolveCommand(t, c)
      case Routed(target) => PhysicalKey(target.adapter, target.id)
      case Unrouted(_) =>
        if c.dst != "" then "endpoint:" + c.dst
        else if c.device != "" then "legacy-device:" + c.device
        else "control-plane"
  }

  /** The device a command runs on, if any; listing devices runs on none. */
  function PhysicalDevice(t: seq<Device>, c: Command): Option<Key> {
    if c.method_ == DEVICES_LIST then None
    else
      match ResolveCommand(t, c)
      case Routed(target) => Some((target.adapter, target.id))
      case Unrouted(_) => None
  }

  /** Whichever alias names it, a command for a device is queued in that device's lane. */
  lemma SameDeviceSameLane(t: seq<Device>, c: Command, d: Command)
    requires PhysicalDevice(t, c).Some? && PhysicalDevice(t, c) == PhysicalDevice(t, d)
    ensures RouteKey(t, c) == RouteKey(t, d)
  {
  }

  /** Only commands for a device of the table share a lane with a device. */
  lemma LaneOfDevice(t: seq<Device>, c: Command, adapter: string, id: string)
    requires RouteKey(t, c) == PhysicalKey(adapter, id)
    ensures PhysicalDevice(t, c).Some?
  {
    var key := RouteKey(t, c);
    if PhysicalDevice(t, c).None? {
      assert key[0] == 'p';
      assert "endpoint:"[0] == 'e' && "legacy-device:"[0] == 'l' && "control-plane"[0] == 'c';
    }
  }

  /** A name followed by a colon begins another name. */
  predicate Shadows(a: string, b: string) {
    a + ":" <= b
  }

  /** The devices of these adapters all have route keys of their own. */
  ghost predicate Separate(names: set<string>) {
    forall a, x, b, y | a in names && b in names && PhysicalKey(a, x) == PhysicalKey(b, y) :: a == b && x == y
  }

  lemma KeyBody(a: string, x: string)
    ensures PhysicalKey(a, x)[|"physical:"|..] == a + ":" + x
  {
  }

  lemma SplitAtColon(a: string, x: string, b: string, y: string)
    requires a + ":" + x == b + ":" + y && !Shadows(a, b) && !Shadows(b, a)
    ensures a == b && x == y
  {
    var s := a + ":" + x;
    assert s[..|a| + 1] == a + ":" && s[..|b| + 1] == b + ":";
    assert a == s[..|a|] && b == s[..|b|];
    assert x == s[|a| + 1..] && y == s[|b| + 1..];
  }

  /** Every shadowed name collides: each device of `b` shares its lane with some device of `a`. */
  lemma LanesCollide(a: string, b: string, y: string)
    requires Shadows(a, b)
    ensures a != b && exists x :: PhysicalKey(a, x) == PhysicalKey(b, y)
  {
    var x := b[|a| + 1..] + ":" + y;
    assert b == a + ":" + b[|a| + 1..];
    assert a + ":" + x == b + ":" + y;
    assert PhysicalKey(a, x) == PhysicalKey(b, y);
  }

  /**
   Distinct devices have distinct lanes if and only if no adapter name followed
   by a colon begins another adapter's name.
   */
  lemma LanesSeparate(names: set<string>)
    ensures Separate(names) <==> forall a, b | a in names && b in names :: !Shadows(a, b)
  {
    if a, b :| a in names && b in names && Shadows(a, b) {
      LanesCollide(a, b, "");
    } else {
      forall a, x, b, y | a in names && b in names && PhysicalKey(a, x) == PhysicalKey(b, y)
        ensures a == b && x == y
      {
        KeyBody(a, x);
        KeyBody(b, y);
        SplitAtColon(a, x, b, y);
      }
    }
  }

  // ----------------------------------------------------------------------- scans

  /** The scan all lookups share: remember the first hit, give up at the second. */
  method ScanDevices(t: seq<Device>, selector: Selector) returns (found: Match)
    ensures found == Scan(t, selector)
  {
    found := NoMatch;
    for i := 0 to |t|
      invariant found == Scan(t[..i], selector) && !found.Many?
    {
      assert t[..i + 1][..i] == t[..i];
      if Selects(selector, t[i]) {
        if found.One? {
          ManyStays(t, selector, i + 1);
          return Many;
        }
        found := One(t[i]);
      }
    }
    assert t[..|t|] == t;
  }

  lemma {:induction false} ManyStays(t: seq<Device>, selector: Selector, n: nat)
    requires n <= |t| && Scan(t[..n], selector).Many?
    ensures Scan(t, selector).Many?
    decreases |t|
  {
    if n < |t| {
      assert t[..|t| - 1][..n] == t[..n];
      ManyStays(t[..|t| - 1], selector, n);
    } else {
      assert t[..n] == t;
    }
  }

  method ResolveRoute(t: seq<Device>, c: Command) returns (route: CommandRoute)
    ensures route == ResolveCommand(t, c)
    ensures route.Routed? ==> exists i | 0 <= i < |t| ::
              && t[i].online && TargetOf(t[i]) == route.target
              && OnlyAt(t, if c.dst == "" then DeviceSelector(c.device, c.selectorKind) else ByEndpoint(c.dst), i)
  {
    hide Selects;
    var selector := if c.dst == "" then DeviceSelector(c.device, c.selectorKind) else ByEndpoint(c.dst);
    if c.dst == "" && c.device == "" && c.selectorKind != ProviderLocalId {
      return Unrouted(RouteNotFound);
    }
    var found := ScanDevices(t, selector);
    ScanExact(t, selector);
    if found.One? && found.device.online {
      return Routed(TargetOf(found.device));
    }
    return Unrouted(if c.dst == "" || found.NoMatch? then RouteNotFound else RouteUnavailable);
  }
}

/**
 The cluster objects the control plane reads, the computed claims and binding results, and
 the order on namespaced names. Library behaviour the program only calls (label selectors,
 duration parsing) is a parameter, `Env`.
 */
module GatewayApi {
  import opened Ordering

  const GATEWAY_GROUP := "gateway.networking.k8s.io"
  const RSYNC_GROUP := "gateway.rsync.zjusct.io"
  const CONTROLLER := "gateway.rsync.zjusct.io/rsync-gateway"
  const PROTOCOL := "rsync.zjusct.io/rsync"
  const ROUTE_KIND := "RsyncRoute"
  const CORE_GROUP := ""

  type Int32 = x: int | -0x8000_0000 <= x < 0x8000_0000
  type Int64 = x: int | -0x8000_0000_0000_0000 <= x < 0x8000_0000_0000_0000

  /** Kubernetes names and namespaces never contain a slash. */
  type Label = s: string | '/' !in s witness ""

  /** A namespaced name. */
  datatype Key = Key(ns: Label, name: Label)

  datatype Env = Env(
    // What is wrong with a selector, if it does not parse; whether it matches a label set.
    selectorError: string -> Option<string>,
    selects: (string, map<string, string>) -> bool,
    // A duration in nanoseconds; None when the text is not a duration.
    parseDuration: string -> Option<Int64>)

  // ---------------------------------------------------------------- objects

  datatype Floor = Floor(minBytes: Option<Int64>, window: Option<string>, grace: Option<string>)

  datatype ConfigSpec = ConfigSpec(
    motd: Option<string>,
    relayIdleTimeout: Option<string>, relayMaxDuration: Option<string>,
    tcpKeepAlive: Option<string>, dialTimeout: Option<string>,
    perIp: Option<Int32>, maxActive: Option<Int32>, maxQueued: Option<Int32>,
    floor: Option<Floor>)

  datatype Truth = True | False | Undecided

  /** Time is the LastTransitionTime, which content comparison ignores. */
  datatype Condition = Condition(
    kind: string, status: Truth, reason: string, message: string, generation: int, time: int)

  datatype GatewayConfig = GatewayConfig(spec: ConfigSpec, generation: int, conditions: seq<Condition>)

  datatype ParametersRef = ParametersRef(group: string, kind: string, name: string, ns: Option<string>)

  datatype GatewayClass = GatewayClass(
    controllerName: string, parametersRef: Option<ParametersRef>, generation: int, conditions: seq<Condition>)

  datatype RouteGroupKind = RouteGroupKind(group: Option<string>, kind: string)

  datatype From = All | Same | Selector | Unknown(text: string)

  datatype RouteNamespaces = RouteNamespaces(from: Option<From>, selector: Option<string>)

  datatype AllowedRoutes = AllowedRoutes(kinds: seq<RouteGroupKind>, namespaces: Option<RouteNamespaces>)

  datatype Listener = Listener(name: string, protocol: string, port: int, tls: bool, allowed: Option<AllowedRoutes>)

  datatype ListenerStatus = ListenerStatus(
    name: string, attachedRoutes: int, supportedKinds: seq<RouteGroupKind>, conditions: seq<Condition>)

  datatype Gateway = Gateway(
    className: string, listeners: seq<Listener>, generation: int,
    conditions: seq<Condition>, listenerStatus: seq<ListenerStatus>)

  datatype ParentRef = ParentRef(
    group: Option<string>, kind: Option<string>, ns: Option<Label>, name: Label, section: Option<string>)

  datatype BackendRef = BackendRef(
    group: Option<string>, kind: Option<string>, ns: Option<Label>, name: Label,
    port: Option<Int32>, weight: Option<Int32>)

  datatype ParentStatus = ParentStatus(parentRef: ParentRef, controllerName: string, conditions: seq<Condition>)

  datatype Route = Route(
    created: int, labels: map<string, string>, generation: int,
    parentRefs: seq<ParentRef>, moduleNames: seq<string>, backendRefs: seq<BackendRef>,
    parents: seq<ParentStatus>)

  datatype GrantFrom = GrantFrom(group: string, kind: string, ns: string)
  datatype GrantTo = GrantTo(group: string, kind: string, name: Option<string>)
  datatype Grant = Grant(from: seq<GrantFrom>, to: seq<GrantTo>)

  datatype Snapshot = Snapshot(
    classes: map<string, GatewayClass>, configs: map<string, GatewayConfig>,
    gateways: map<Key, Gateway>, routes: map<Key, Route>,
    services: set<Key>, grants: map<string, seq<Grant>>)

  // ---------------------------------------------------------------- computed values

  datatype NamedConfig = NamedConfig(name: string, spec: ConfigSpec)

  datatype Claim = Claim(
    name: string, claimed: bool, accepted: bool, reason: string, message: string, config: Option<NamedConfig>)

  datatype ParentResult = ParentResult(
    parentRef: ParentRef, gateway: Key, listener: Option<Listener>,
    accepted: bool, reason: string, message: string)

  type Results = map<Key, seq<ParentResult>>

  // ---------------------------------------------------------------- text

  function Quote(s: string): string { "\"" + s + "\"" }

  function Digits(n: nat): string {
    if n < 10 then [('0' as int + n) as char] else Digits(n / 10) + Digits(n % 10)
  }

  function Decimal(n: int): string {
    if n < 0 then "-" + Digits(-n) else Digits(n)
  }

  // ---------------------------------------------------------------- order on keys

  function KeyString(k: Key): string {
    k.ns + "/" + k.name
  }

  predicate KeyLess(a: Key, b: Key) {
    StringLess(KeyString(a), KeyString(b))
  }

  lemma KeyStringInjective(a: Key, b: Key)
    requires KeyString(a) == KeyString(b)
    ensures a == b
  {
    var s, t := KeyString(a), KeyString(b);
    assert s[|a.ns|] == '/' && t[|b.ns|] == '/';
    assert forall i :: 0 <= i < |a.ns| ==> s[i] == a.ns[i] && s[i] != '/';
    assert forall i :: 0 <= i < |b.ns| ==> t[i] == b.ns[i] && t[i] != '/';
    assert |a.ns| == |b.ns|;
    assert a.ns == s[..|a.ns|] && b.ns == t[..|b.ns|];
    assert a.name == s[|a.ns| + 1..] && b.name == t[|b.ns| + 1..];
  }

  lemma KeyOrder(a: Key, b: Key, c: Key)
    ensures KeyLess(a, b) && KeyLess(b, c) ==> KeyLess(a, c)
    ensures a != b ==> KeyLess(a, b) || KeyLess(b, a)
    ensures !KeyLess(a, a)
  {
    if KeyLess(a, b) && KeyLess(b, c) { StringLessTransitive(KeyString(a), KeyString(b), KeyString(c)); }
    StringLessIrreflexive(KeyString(a));
    if KeyString(a) == KeyString(b) {
      KeyStringInjective(a, b);
    } else {
      StringLessConnected(KeyString(a), KeyString(b));
    }
  }

  lemma KeyLessIsStrictTotal()
    ensures StrictTotal(KeyLess)
  {
    forall a, b, c
      ensures KeyLess(a, b) && KeyLess(b, c) ==> KeyLess(a, c)
      ensures a != b ==> KeyLess(a, b) || KeyLess(b, a)
      ensures !KeyLess(a, a)
    {
      KeyOrder(a, b, c);
    }
  }
}

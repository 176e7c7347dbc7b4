/** Binding one parent reference of a route to a Gateway. */
module Binding {
  import opened Ordering
  import opened GatewayApi
  import opened Claims
  import opened Backends

  function EffectiveModules(key: Key, route: Route): (r: seq<string>)
    ensures r != []
  {
    if route.moduleNames == [] then [key.name] else route.moduleNames
  }

  predicate KindsAllow(l: Listener) {
    || l.allowed.None? || l.allowed.value.kinds == []
    || exists k :: k in l.allowed.value.kinds && Or(k.group, GATEWAY_GROUP) == RSYNC_GROUP && k.kind == ROUTE_KIND
  }

  function SameNamespaceRefusal(gatewayNs: string, key: Key): string {
    if gatewayNs != key.ns then "route namespace differs from the Gateway namespace" else ""
  }

  function NamespaceRefusal(env: Env, l: Listener, gatewayNs: string, key: Key, route: Route): string {
    if l.allowed.None? || l.allowed.value.namespaces.None? || l.allowed.value.namespaces.value.from.None? then
      SameNamespaceRefusal(gatewayNs, key)
    else
      var ns := l.allowed.value.namespaces.value;
      match ns.from.value
      case All => ""
      case Same => SameNamespaceRefusal(gatewayNs, key)
      case Selector =>
        if ns.selector.None? then "allowedRoutes.namespaces.from=Selector requires a selector"
        else
          var err := env.selectorError(ns.selector.value);
          if err.Some? then "invalid allowedRoutes.namespaces.selector: " + err.value
          else if !env.selects(ns.selector.value, route.labels) then "route namespace labels do not match the selector"
          else ""
      case Unknown(text) => "allowedRoutes.namespaces.from=" + text + " is not supported"
  }

  /** Why the listener keeps the route out; empty when it does not. */
  function ListenerRefusal(env: Env, l: Listener, gatewayNs: string, key: Key, route: Route): string {
    if !KindsAllow(l) then "route kind " + RSYNC_GROUP + "/" + ROUTE_KIND + " is not allowed by allowedRoutes.kinds"
    else NamespaceRefusal(env, l, gatewayNs, key, route)
  }

  function RsyncListeners(ls: seq<Listener>): seq<Listener> {
    if ls == [] then []
    else if ls[0].protocol == PROTOCOL then [ls[0]] + RsyncListeners(ls[1..])
    else RsyncListeners(ls[1..])
  }

  /** The first listener with the given name, as a list of at most one. */
  function Named(ls: seq<Listener>, name: string): seq<Listener> {
    if ls == [] then [] else if ls[0].name == name then [ls[0]] else Named(ls[1..], name)
  }

  /** The first listener that lets the route in, and the refusals met before it. */
  function Attach(env: Env, ls: seq<Listener>, gatewayNs: string, key: Key, route: Route): (Option<Listener>, string) {
    if ls == [] then (None, "")
    else
      var why := ListenerRefusal(env, ls[0], gatewayNs, key, route);
      if why == "" then (Some(ls[0]), "")
      else
        var (l, rest) := Attach(env, ls[1..], gatewayNs, key, route);
        (l, "listener " + Quote(ls[0].name) + ": " + why + "; " + rest)
  }

  function Unbound(ref: ParentRef, gw: Key, reason: string, message: string): ParentResult {
    ParentResult(ref, gw, None, false, reason, message)
  }

  function GatewayKey(key: Key, ref: ParentRef): Key {
    Key(Namespace(key.ns, ref.ns), ref.name)
  }

  predicate NamesGateway(ref: ParentRef) {
    Or(ref.group, GATEWAY_GROUP) == GATEWAY_GROUP && Or(ref.kind, "Gateway") == "Gateway"
  }

  /** The rsync listeners a parent reference may attach to. */
  function Candidates(gw: Gateway, ref: ParentRef): seq<Listener> {
    var ls := RsyncListeners(gw.listeners);
    if ref.section.Some? && ref.section.value != "" then Named(ls, ref.section.value) else ls
  }

  function BindParent(env: Env, snap: Snapshot, claims: map<string, Claim>, key: Key, route: Route, ref: ParentRef): ParentResult {
    if !NamesGateway(ref) then
      Unbound(ref, Key("", ""), "NoMatchingParent", "unsupported parent group/kind "
        + Or(ref.group, GATEWAY_GROUP) + "/" + Or(ref.kind, "Gateway"))
    else
      var gk := GatewayKey(key, ref);
      if gk !in snap.gateways then
        Unbound(ref, gk, "NoMatchingParent", "Gateway " + KeyString(gk) + " not found")
      else
        var gw := snap.gateways[gk];
        if gw.className !in claims || !claims[gw.className].claimed then
          Unbound(ref, gk, "NoMatchingParent", "GatewayClass " + Quote(gw.className) + " is not managed")
        else if !claims[gw.className].accepted then
          Unbound(ref, gk, "NoMatchingParent", "GatewayClass " + Quote(gw.className) + " is not accepted: "
            + claims[gw.className].message)
        else if RsyncListeners(gw.listeners) == [] then
          Unbound(ref, gk, "NoMatchingParent", "Gateway " + KeyString(gk) + " has no listener with protocol " + PROTOCOL)
        else if Candidates(gw, ref) == [] then
          Unbound(ref, gk, "NoMatchingParent", "Gateway " + KeyString(gk) + " has no listener named "
            + Quote(Or(ref.section, "")) + " with protocol " + PROTOCOL)
        else
          var (l, refusals) := Attach(env, Candidates(gw, ref), gk.ns, key, route);
          if l.Some? then ParentResult(ref, gk, l, true, "Accepted", "")
          else Unbound(ref, gk, "NotAllowedByListeners", "no listener of Gateway " + KeyString(gk)
            + " allows this route: " + refusals)
  }

  function BindParents(env: Env, snap: Snapshot, claims: map<string, Claim>, key: Key, route: Route): seq<ParentResult> {
    seq(|route.parentRefs|, i requires 0 <= i < |route.parentRefs| =>
      BindParent(env, snap, claims, key, route, route.parentRefs[i]))
  }

  // ---------------------------------------------------------------- when a reference binds

  lemma {:induction false} AttachFinds(env: Env, ls: seq<Listener>, gatewayNs: string, key: Key, route: Route)
    ensures var r := Attach(env, ls, gatewayNs, key, route).0;
      && (r.Some? ==> r.value in ls && ListenerRefusal(env, r.value, gatewayNs, key, route) == "")
      && (r.None? ==> forall l :: l in ls ==> ListenerRefusal(env, l, gatewayNs, key, route) != "")
  {
    if ls == [] {
    } else {
      AttachFinds(env, ls[1..], gatewayNs, key, route);
      assert ls == [ls[0]] + ls[1..];
    }
  }

  lemma {:induction false} RsyncListenersFilter(ls: seq<Listener>)
    ensures forall l :: l in RsyncListeners(ls) <==> l in ls && l.protocol == PROTOCOL
  {
    if ls == [] {
    } else {
      RsyncListenersFilter(ls[1..]);
      assert ls == [ls[0]] + ls[1..];
    }
  }

  lemma {:induction false} NamedFinds(ls: seq<Listener>, name: string)
    ensures forall l :: l in Named(ls, name) ==> l in ls && l.name == name
    ensures Named(ls, name) == [] <==> forall l :: l in ls ==> l.name != name
  {
    if ls == [] {
    } else {
      NamedFinds(ls[1..], name);
      assert ls == [ls[0]] + ls[1..];
    }
  }

  /** A reference binds exactly when it names an existing Gateway of an accepted class of
      ours one of whose candidate listeners admits the route, and it then carries a rsync
      listener of that Gateway's spec that admits it and has the requested name. */
  lemma BindParentIsExact(env: Env, snap: Snapshot, claims: map<string, Claim>, key: Key, route: Route, ref: ParentRef)
    ensures var r, gk := BindParent(env, snap, claims, key, route, ref), GatewayKey(key, ref);
      && r.parentRef == ref
      && (r.accepted <==>
            && NamesGateway(ref) && gk in snap.gateways && Managed(claims, snap.gateways[gk])
            && exists l :: l in Candidates(snap.gateways[gk], ref) && ListenerRefusal(env, l, gk.ns, key, route) == "")
      && (r.accepted ==>
            && r.gateway == gk && r.listener.Some?
            && r.listener.value in snap.gateways[gk].listeners
            && r.listener.value.protocol == PROTOCOL
            && (ref.section.Some? && ref.section.value != "" ==> r.listener.value.name == ref.section.value)
            && ListenerRefusal(env, r.listener.value, gk.ns, key, route) == "")
  {
    var gk := GatewayKey(key, ref);
    if NamesGateway(ref) && gk in snap.gateways {
      var gw := snap.gateways[gk];
      AttachFinds(env, Candidates(gw, ref), gk.ns, key, route);
      RsyncListenersFilter(gw.listeners);
      if ref.section.Some? {
        NamedFinds(RsyncListeners(gw.listeners), ref.section.value);
      }
    }
  }

  // ---------------------------------------------------------------- when a listener admits a route, written out

  /** No kinds listed, or RsyncRoute among them; a kind without a group is of the Gateway API's. */
  predicate TakesRsyncRoutes(l: Listener) {
    l.allowed.Some? && |l.allowed.value.kinds| > 0 ==>
      exists i :: 0 <= i < |l.allowed.value.kinds| && l.allowed.value.kinds[i] == RouteGroupKind(Some("gateway.rsync.zjusct.io"), "RsyncRoute")
  }

  /** From everywhere, from the Gateway's own namespace (also by default), or as selected. */
  predicate TakesFrom(env: Env, l: Listener, gatewayNs: string, key: Key, route: Route) {
    if l.allowed.None? || l.allowed.value.namespaces.None? || l.allowed.value.namespaces.value.from.None? then key.ns == gatewayNs
    else
      match l.allowed.value.namespaces.value.from.value
      case All => true
      case Same => key.ns == gatewayNs
      case Selector =>
        var selector := l.allowed.value.namespaces.value.selector;
        selector.Some? && env.selectorError(selector.value) == None && env.selects(selector.value, route.labels)
      case Unknown(_) => false
  }

  /** A listener admits a route exactly when it takes its kind and takes from its namespace. */
  lemma AdmitsIff(env: Env, l: Listener, gatewayNs: string, key: Key, route: Route)
    ensures ListenerRefusal(env, l, gatewayNs, key, route) == "" <==>
      TakesRsyncRoutes(l) && TakesFrom(env, l, gatewayNs, key, route)
  {
    assert GATEWAY_GROUP != RSYNC_GROUP by { assert |GATEWAY_GROUP| != |RSYNC_GROUP|; }
    assert KindsAllow(l) <==> TakesRsyncRoutes(l);
    assert NamespaceRefusal(env, l, gatewayNs, key, route) == "" <==> TakesFrom(env, l, gatewayNs, key, route);
  }

  /** The rsync listener in place `i` is the first of its name. */
  predicate FirstNamed(ls: seq<Listener>, i: nat)
    requires i < |ls|
  {
    && ls[i].protocol == "rsync.zjusct.io/rsync"
    && forall j :: 0 <= j < i ==> !(ls[j].protocol == "rsync.zjusct.io/rsync" && ls[j].name == ls[i].name)
  }

  lemma NamedStep(ls: seq<Listener>, name: string, l: Listener)
    requires ls != []
    requires l in Named(RsyncListeners(ls[1..]), name) <==>
      exists i :: 0 <= i < |ls[1..]| && ls[1..][i] == l && l.name == name && FirstNamed(ls[1..], i)
    ensures l in Named(RsyncListeners(ls), name) <==>
      exists i :: 0 <= i < |ls| && ls[i] == l && l.name == name && FirstNamed(ls, i)
  {
    var rest := ls[1..];
    if ls[0].protocol == PROTOCOL && ls[0].name == name {
      assert FirstNamed(ls, 0);
    } else {
      if i :| 0 <= i < |rest| && rest[i] == l && l.name == name && FirstNamed(rest, i) {
        assert ls[i + 1] == l && FirstNamed(ls, i + 1);
      }
      if i :| 0 <= i < |ls| && ls[i] == l && l.name == name && FirstNamed(ls, i) {
        assert i > 0 && rest[i - 1] == l && FirstNamed(rest, i - 1);
      }
    }
  }

  lemma {:induction false} NamedIs(ls: seq<Listener>, name: string)
    ensures forall l :: l in Named(RsyncListeners(ls), name) <==>
      exists i :: 0 <= i < |ls| && ls[i] == l && l.name == name && FirstNamed(ls, i)
  {
    if ls == [] {
    } else {
      var rest := ls[1..];
      NamedIs(rest, name);
      forall l ensures l in Named(RsyncListeners(ls), name) <==>
        exists i :: 0 <= i < |ls| && ls[i] == l && l.name == name && FirstNamed(ls, i)
      {
        NamedStep(ls, name, l);
      }
    }
  }

  /** A reference may attach to the rsync listeners of the Gateway or, if it names a section, to
      the first of that name. */
  lemma CandidatesAre(gw: Gateway, ref: ParentRef, l: Listener)
    ensures l in Candidates(gw, ref) <==>
      if ref.section == None || ref.section == Some("") then l in gw.listeners && l.protocol == "rsync.zjusct.io/rsync"
      else exists i :: 0 <= i < |gw.listeners| && gw.listeners[i] == l && l.name == ref.section.value && FirstNamed(gw.listeners, i)
  {
    RsyncListenersFilter(gw.listeners);
    if ref.section.Some? { NamedIs(gw.listeners, ref.section.value); }
  }

  /** Of several listeners that admit the route, it attaches to the first. */
  lemma {:induction false} AttachIsFirst(env: Env, ls: seq<Listener>, gatewayNs: string, key: Key, route: Route, i: nat)
    requires i < |ls| && ListenerRefusal(env, ls[i], gatewayNs, key, route) == ""
    requires forall j :: 0 <= j < i ==> ListenerRefusal(env, ls[j], gatewayNs, key, route) != ""
    ensures Attach(env, ls, gatewayNs, key, route).0 == Some(ls[i])
  {
    if i == 0 {
    } else {
      assert forall j :: 0 <= j < i - 1 ==> ls[1..][j] == ls[j + 1];
      AttachIsFirst(env, ls[1..], gatewayNs, key, route, i - 1);
    }
  }

  /** The reason given: a managed Gateway with listeners to attach to that all refuse is one
      thing, no such Gateway or listener another. */
  lemma BindReason(env: Env, snap: Snapshot, claims: map<string, Claim>, key: Key, route: Route, ref: ParentRef)
    ensures var r, gk := BindParent(env, snap, claims, key, route, ref), GatewayKey(key, ref);
      r.reason ==
        if r.accepted then "Accepted"
        else if NamesGateway(ref) && gk in snap.gateways && Managed(claims, snap.gateways[gk]) && Candidates(snap.gateways[gk], ref) != []
        then "NotAllowedByListeners"
        else "NoMatchingParent"
  {
  }

  /** The Gateway a reference names: in its own namespace if it gives one, else the route's. */
  lemma GatewayKeyIs(key: Key, ref: ParentRef)
    ensures GatewayKey(key, ref).name == ref.name
    ensures GatewayKey(key, ref).ns == match ref.ns case None => key.ns case Some(ns) => if |ns| == 0 then key.ns else ns
    ensures NamesGateway(ref) <==>
      && (ref.group == None || ref.group == Some("gateway.networking.k8s.io")) && (ref.kind == None || ref.kind == Some("Gateway"))
  {
  }
}

/**
 Writing every status back after a rebuild, and when a second rebuild of the unchanged
 cluster writes nothing.
 */
module StatusPass {
  import opened Ordering
  import opened GatewayApi
  import opened Claims
  import opened Backends
  import opened Conflicts
  import opened Conditions
  import opened Statuses

  // ---------------------------------------------------------------- one object of each kind

  function ClaimAt(claims: map<string, Claim>, name: string): Claim {
    if name in claims then claims[name] else Claim("", false, false, "", "", None)
  }

  function ClassCondition(gc: GatewayClass, claim: Claim): Condition {
    Condition("Accepted", TruthOf(claim.accepted), claim.reason, claim.message, gc.generation, 0)
  }

  function ConfigCondition(config: GatewayConfig, applyErr: Option<string>): Condition {
    if applyErr.Some? then
      Condition("Accepted", False, "Invalid",
        "failed to apply data-plane configuration: " + applyErr.value, config.generation, 0)
    else Condition("Accepted", True, "Accepted", "configuration applied to the data plane", config.generation, 0)
  }

  predicate ClassQuiet(gc: GatewayClass, claim: Claim) {
    claim.claimed ==> ConditionsEqual(gc.conditions, [ClassCondition(gc, claim)])
  }

  function ClassAfter(gc: GatewayClass, claim: Claim, now: int): GatewayClass {
    if !claim.claimed then gc
    else gc.(conditions := Recorded(gc.conditions, ClassCondition(gc, claim), now))
  }

  predicate ConfigQuiet(config: GatewayConfig, applyErr: Option<string>) {
    ConditionsEqual(config.conditions, [ConfigCondition(config, applyErr)])
  }

  function ConfigAfter(config: GatewayConfig, applyErr: Option<string>, now: int): GatewayConfig {
    config.(conditions := Recorded(config.conditions, ConfigCondition(config, applyErr), now))
  }

  predicate RefersTo(claim: Claim, name: string) {
    claim.claimed && claim.config.Some? && claim.config.value.name == name
  }

  /** Some claimed class takes its settings from the configuration of that name. */
  ghost predicate Referenced(claims: map<string, Claim>, name: string) {
    exists c :: c in claims && RefersTo(claims[c], name)
  }

  /** Backends are resolved only for routes accepted somewhere. */
  ghost function BackendsFor(snap: Snapshot, r: Key, route: Route, rs: seq<ParentResult>): BackendStatus {
    if AcceptedSomewhere(rs) then BackendsStatus(snap, r, route.backendRefs) else RESOLVED
  }

  // ---------------------------------------------------------------- the whole pass

  /** What a pass works with besides the snapshot. */
  datatype Pass = Pass(claims: map<string, Claim>, results: Results, ports: seq<int>, applyErr: Option<string>)

  ghost function GatewayIn(p: Pass, g: Key, gw: Gateway, now: int): Gateway {
    if Managed(p.claims, gw) then GatewayAfter(g, gw, p.ports, now) else gw
  }

  ghost predicate GatewayQuietIn(p: Pass, g: Key, gw: Gateway, now: int) {
    Managed(p.claims, gw) ==> GatewayQuiet(g, gw, p.ports, now)
  }

  ghost function RouteIn(p: Pass, snap: Snapshot, r: Key, route: Route, now: int): Route {
    if r in p.results then RouteAfter(route, p.results[r], BackendsFor(snap, r, route, p.results[r]), now) else route
  }

  ghost predicate RouteQuietIn(p: Pass, snap: Snapshot, r: Key, route: Route, now: int) {
    r in p.results ==> RouteQuiet(route, p.results[r], BackendsFor(snap, r, route, p.results[r]), now)
  }

  ghost function ConfigIn(p: Pass, name: string, config: GatewayConfig, now: int): GatewayConfig {
    if Referenced(p.claims, name) then ConfigAfter(config, p.applyErr, now) else config
  }

  ghost predicate ConfigQuietIn(p: Pass, name: string, config: GatewayConfig) {
    Referenced(p.claims, name) ==> ConfigQuiet(config, p.applyErr)
  }

  ghost predicate ClassesWritten(p: Pass, a: map<string, GatewayClass>, b: map<string, GatewayClass>, now: int) {
    a.Keys == b.Keys && forall n :: n in a ==> b[n] == ClassAfter(a[n], ClaimAt(p.claims, n), now)
  }

  ghost predicate GatewaysWritten(p: Pass, a: map<Key, Gateway>, b: map<Key, Gateway>, now: int) {
    a.Keys == b.Keys && forall g :: g in a ==> b[g] == GatewayIn(p, g, a[g], now)
  }

  ghost predicate RoutesWritten(p: Pass, snap: Snapshot, a: map<Key, Route>, b: map<Key, Route>, now: int) {
    a.Keys == b.Keys && forall r :: r in a ==> b[r] == RouteIn(p, snap, r, a[r], now)
  }

  ghost predicate ConfigsWritten(p: Pass, a: map<string, GatewayConfig>, b: map<string, GatewayConfig>, now: int) {
    a.Keys == b.Keys && forall n :: n in a ==> b[n] == ConfigIn(p, n, a[n], now)
  }

  /** `snap'` is `snap` after a pass in which every update succeeded. */
  ghost predicate Written(p: Pass, snap: Snapshot, snap': Snapshot, now: int) {
    && snap'.services == snap.services && snap'.grants == snap.grants
    && ClassesWritten(p, snap.classes, snap'.classes, now)
    && GatewaysWritten(p, snap.gateways, snap'.gateways, now)
    && RoutesWritten(p, snap, snap.routes, snap'.routes, now)
    && ConfigsWritten(p, snap.configs, snap'.configs, now)
  }

  ghost predicate ClassesQuiet(p: Pass, classes: map<string, GatewayClass>) {
    forall n :: n in classes ==> ClassQuiet(classes[n], ClaimAt(p.claims, n))
  }

  ghost predicate GatewaysQuiet(p: Pass, gateways: map<Key, Gateway>, now: int) {
    forall g :: g in gateways ==> GatewayQuietIn(p, g, gateways[g], now)
  }

  ghost predicate RoutesQuiet(p: Pass, snap: Snapshot, now: int) {
    forall r :: r in snap.routes ==> RouteQuietIn(p, snap, r, snap.routes[r], now)
  }

  ghost predicate ConfigsQuiet(p: Pass, configs: map<string, GatewayConfig>) {
    forall n :: n in configs ==> ConfigQuietIn(p, n, configs[n])
  }

  /** Quiet as far as classes, Gateways and routes go. */
  ghost predicate QuietBut(p: Pass, snap: Snapshot, now: int) {
    ClassesQuiet(p, snap.classes) && GatewaysQuiet(p, snap.gateways, now) && RoutesQuiet(p, snap, now)
  }

  /** A pass over this snapshot writes nothing. */
  ghost predicate Quiet(p: Pass, snap: Snapshot, now: int) {
    QuietBut(p, snap, now) && ConfigsQuiet(p, snap.configs)
  }

  // ---------------------------------------------------------------- the program

  lemma StableComparison(cur: seq<Condition>, c: Condition, now: int)
    ensures ConditionsEqual(cur, [StableCondition(cur, c, now)]) <==> ConditionsEqual(cur, [c])
  {
  }

  method WriteClasses(p: Pass, classes: map<string, GatewayClass>, now: int) returns (out: map<string, GatewayClass>, writes: nat)
    ensures ClassesWritten(p, classes, out, now)
    ensures writes == 0 <==> ClassesQuiet(p, classes)
  {
    out, writes := classes, 0;
    var todo := classes.Keys;
    while todo != {}
      invariant todo <= classes.Keys && out.Keys == classes.Keys
      invariant forall n :: n in classes && n in todo ==> out[n] == classes[n]
      invariant forall n :: n in classes && n !in todo ==> out[n] == ClassAfter(classes[n], ClaimAt(p.claims, n), now)
      invariant writes == 0 <==> forall n :: n in classes && n !in todo ==> ClassQuiet(classes[n], ClaimAt(p.claims, n))
      decreases todo
    {
      var n :| n in todo;
      todo := todo - {n};
      var gc, claim := out[n], ClaimAt(p.claims, n);
      if !claim.claimed { continue; }
      var stable := StableCondition(gc.conditions, ClassCondition(gc, claim), now);
      StableComparison(gc.conditions, ClassCondition(gc, claim), now);
      if ConditionsEqual(gc.conditions, [stable]) { continue; }
      var merged := MergeConditions(gc.conditions, [stable]);
      out := out[n := gc.(conditions := merged)];
      writes := writes + 1;
    }
  }

  method WriteGateway(p: Pass, g: Key, gw: Gateway, now: int) returns (out: Gateway, wrote: bool)
    ensures out == GatewayIn(p, g, gw, now)
    ensures !wrote <==> GatewayQuietIn(p, g, gw, now)
  {
    if !Managed(p.claims, gw) { return gw, false; }
    var conditions, listeners := BuildGatewayStatus(g, gw, p.ports, now);
    if ConditionsEqual(gw.conditions, conditions) && ListenerStatusesEqual(gw.listenerStatus, listeners) { return gw, false; }
    return gw.(conditions := conditions, listenerStatus := listeners), true;
  }

  method WriteGateways(p: Pass, gateways: map<Key, Gateway>, now: int) returns (out: map<Key, Gateway>, writes: nat)
    ensures GatewaysWritten(p, gateways, out, now)
    ensures writes == 0 <==> GatewaysQuiet(p, gateways, now)
  {
    out, writes := gateways, 0;
    var todo := gateways.Keys;
    while todo != {}
      invariant todo <= gateways.Keys && out.Keys == gateways.Keys
      invariant forall g :: g in gateways ==> out[g] == (if g in todo then gateways[g] else GatewayIn(p, g, gateways[g], now))
      invariant writes == 0 <==> forall g :: g in gateways && g !in todo ==> GatewayQuietIn(p, g, gateways[g], now)
      decreases todo
    {
      var g :| g in todo;
      var gw, wrote := WriteGateway(p, g, out[g], now);
      out, todo := out[g := gw], todo - {g};
      if wrote { writes := writes + 1; }
    }
  }

  method WriteRoute(p: Pass, snap: Snapshot, r: Key, route: Route, now: int) returns (out: Route, wrote: bool)
    ensures out == RouteIn(p, snap, r, route, now)
    ensures !wrote <==> RouteQuietIn(p, snap, r, route, now)
  {
    if r !in p.results { return route, false; }
    var status := RESOLVED;
    if AcceptedSomewhere(p.results[r]) {
      var _, s := ResolveBackends(snap, r, route.backendRefs);
      status := s;
    }
    var parents := BuildRouteStatus(route, p.results[r], status, now);
    if ParentStatusesEqual(route.parents, parents) { return route, false; }
    return route.(parents := parents), true;
  }

  method WriteRoutes(p: Pass, snap: Snapshot, now: int) returns (out: map<Key, Route>, writes: nat)
    ensures RoutesWritten(p, snap, snap.routes, out, now)
    ensures writes == 0 <==> RoutesQuiet(p, snap, now)
  {
    out, writes := snap.routes, 0;
    var todo := snap.routes.Keys;
    while todo != {}
      invariant todo <= snap.routes.Keys && out.Keys == snap.routes.Keys
      invariant forall r :: r in snap.routes ==> out[r] == (if r in todo then snap.routes[r] else RouteIn(p, snap, r, snap.routes[r], now))
      invariant writes == 0 <==> forall r :: r in snap.routes && r !in todo ==> RouteQuietIn(p, snap, r, snap.routes[r], now)
      decreases todo
    {
      var r :| r in todo;
      var route, wrote := WriteRoute(p, snap, r, out[r], now);
      out, todo := out[r := route], todo - {r};
      if wrote { writes := writes + 1; }
    }
  }

  method WriteConfig(config: GatewayConfig, applyErr: Option<string>, now: int) returns (out: GatewayConfig, wrote: bool)
    ensures out == ConfigAfter(config, applyErr, now)
    ensures !wrote <==> ConfigQuiet(config, applyErr)
  {
    var cond := StableCondition(config.conditions, ConfigCondition(config, applyErr), now);
    StableComparison(config.conditions, ConfigCondition(config, applyErr), now);
    if ConditionsEqual(config.conditions, [cond]) { return config, false; }
    var merged := MergeConditions(config.conditions, [cond]);
    return config.(conditions := merged), true;
  }

  ghost predicate ReferencedIn(claims: map<string, Claim>, done: set<string>, n: string) {
    exists c :: c in done && c in claims && RefersTo(claims[c], n)
  }

  /** Configurations after the claims in `done` were visited. */
  ghost predicate ConfigsDone(p: Pass, done: set<string>, a: map<string, GatewayConfig>, b: map<string, GatewayConfig>, now: int) {
    && a.Keys == b.Keys
    && forall n :: n in a ==> b[n] == if ReferencedIn(p.claims, done, n) then ConfigAfter(a[n], p.applyErr, now) else a[n]
  }

  ghost predicate ConfigsWereQuiet(p: Pass, done: set<string>, a: map<string, GatewayConfig>) {
    forall n :: n in a && ReferencedIn(p.claims, done, n) ==> ConfigQuiet(a[n], p.applyErr)
  }

  lemma ConfigAfterTwice(config: GatewayConfig, applyErr: Option<string>, now: int)
    ensures ConfigAfter(ConfigAfter(config, applyErr, now), applyErr, now) == ConfigAfter(config, applyErr, now)
    ensures ConfigQuiet(config, applyErr) ==> ConfigQuiet(ConfigAfter(config, applyErr, now), applyErr)
  {
    RecordedTwice(config.conditions, ConfigCondition(config, applyErr), now, now);
  }

  lemma ReferencedNext(claims: map<string, Claim>, done: set<string>, c: string, n: string)
    requires c in claims
    ensures ReferencedIn(claims, done + {c}, n) <==> ReferencedIn(claims, done, n) || RefersTo(claims[c], n)
  {
    if RefersTo(claims[c], n) { assert c in done + {c}; }
  }

  /** One claim's turn in the configuration loop. Two classes may share a configuration, so
      one may be visited more than once. */
  method WriteClaim(p: Pass, c: string, ghost done: set<string>, ghost a: map<string, GatewayConfig>,
      b: map<string, GatewayConfig>, now: int) returns (out: map<string, GatewayConfig>, wrote: bool)
    requires c in p.claims && ConfigsDone(p, done, a, b, now)
    ensures ConfigsDone(p, done + {c}, a, out, now)
    ensures ConfigsWereQuiet(p, done, a) ==> (!wrote <==> ConfigsWereQuiet(p, done + {c}, a))
  {
    out, wrote := b, false;
    var claim := p.claims[c];
    forall n ensures ReferencedIn(p.claims, done + {c}, n) <==> ReferencedIn(p.claims, done, n) || RefersTo(claim, n) {
      ReferencedNext(p.claims, done, c, n);
    }
    if claim.claimed && claim.config.Some? && claim.config.value.name in b {
      var n := claim.config.value.name;
      ConfigAfterTwice(a[n], p.applyErr, now);
      var config;
      config, wrote := WriteConfig(b[n], p.applyErr, now);
      out := b[n := config];
    }
  }

  lemma QuietShrinks(p: Pass, done: set<string>, c: string, a: map<string, GatewayConfig>)
    requires c in p.claims
    ensures ConfigsWereQuiet(p, done + {c}, a) ==> ConfigsWereQuiet(p, done, a)
  {
    forall n | n in a && ReferencedIn(p.claims, done, n) ensures ReferencedIn(p.claims, done + {c}, n) {
      ReferencedNext(p.claims, done, c, n);
    }
  }

  lemma AllReferenced(p: Pass, done: set<string>)
    requires done == p.claims.Keys
    ensures forall n :: ReferencedIn(p.claims, done, n) <==> Referenced(p.claims, n)
  {
  }

  method WriteConfigs(p: Pass, configs: map<string, GatewayConfig>, now: int) returns (out: map<string, GatewayConfig>, writes: nat)
    ensures ConfigsWritten(p, configs, out, now)
    ensures writes == 0 <==> ConfigsQuiet(p, configs)
  {
    out, writes := configs, 0;
    var todo := p.claims.Keys;
    ghost var done: set<string> := {};
    while todo != {}
      invariant todo + done == p.claims.Keys
      invariant ConfigsDone(p, done, configs, out, now)
      invariant writes == 0 <==> ConfigsWereQuiet(p, done, configs)
      decreases todo
    {
      var c :| c in todo;
      var wrote;
      ghost var before := done;
      out, wrote := WriteClaim(p, c, done, configs, out, now);
      todo, done := todo - {c}, done + {c};
      QuietShrinks(p, before, c, configs);
      if wrote { writes := writes + 1; }
    }
    AllReferenced(p, done);
  }

  /** The pass computes the written snapshot, whatever the order of iteration, and counts no
      write exactly when everything is quiet. */
  method WriteStatuses(p: Pass, snap: Snapshot, now: int) returns (snap': Snapshot, writes: nat)
    ensures Written(p, snap, snap', now)
    ensures writes == 0 <==> Quiet(p, snap, now)
  {
    var classes, w1 := WriteClasses(p, snap.classes, now);
    var gateways, w2 := WriteGateways(p, snap.gateways, now);
    var routes, w3 := WriteRoutes(p, snap, now);
    var configs, w4 := WriteConfigs(p, snap.configs, now);
    snap' := Snapshot(classes, configs, gateways, routes, snap.services, snap.grants);
    writes := w1 + w2 + w3 + w4;
  }

  // ---------------------------------------------------------------- the second rebuild

  /** The pass of a rebuild of `snap`. */
  ghost function PassOf(env: Env, snap: Snapshot, ports: seq<int>, applyErr: Option<string>): Pass {
    Pass(ClaimsOf(env, snap), ResultsOf(env, snap, ClaimsOf(env, snap)), ports, applyErr)
  }

  lemma ClaimIgnoresStatus(env: Env, snap: Snapshot, snap': Snapshot, n: string, a: GatewayClass, b: GatewayClass)
    requires snap.configs.Keys == snap'.configs.Keys && forall n :: n in snap.configs ==> snap'.configs[n].spec == snap.configs[n].spec
    requires a.controllerName == b.controllerName && a.parametersRef == b.parametersRef
    ensures ClaimOf(env, snap', n, b) == ClaimOf(env, snap, n, a)
  {
  }

  /** Claims look at no status. */
  lemma ClaimsIgnoreStatus(env: Env, snap: Snapshot, snap': Snapshot)
    requires snap.classes.Keys == snap'.classes.Keys && snap.configs.Keys == snap'.configs.Keys
    requires forall n :: n in snap.classes ==> snap'.classes[n] == snap.classes[n].(conditions := snap'.classes[n].conditions)
    requires forall n :: n in snap.configs ==> snap'.configs[n] == snap.configs[n].(conditions := snap'.configs[n].conditions)
    ensures ClaimsOf(env, snap') == ClaimsOf(env, snap)
  {
    forall n | n in snap.classes ensures ClaimsOf(env, snap')[n] == ClaimsOf(env, snap)[n] {
      var a, b := snap.classes[n], snap'.classes[n];
      assert a.controllerName == b.controllerName && a.parametersRef == b.parametersRef;
      ClaimIgnoresStatus(env, snap, snap', n, a, b);
    }
  }

  lemma WrittenConfigs(p: Pass, snap: Snapshot, snap': Snapshot, now: int)
    requires Written(p, snap, snap', now)
    ensures forall n :: n in snap.configs ==> snap'.configs[n] == snap.configs[n].(conditions := snap'.configs[n].conditions)
    ensures forall n :: n in snap.classes ==> snap'.classes[n] == snap.classes[n].(conditions := snap'.classes[n].conditions)
  {
  }

  lemma WrittenRoutes(p: Pass, snap: Snapshot, snap': Snapshot, now: int)
    requires Written(p, snap, snap', now)
    ensures SameGateways(snap, snap')
    ensures forall r :: r in snap.routes ==> SameRoute(snap.routes[r], snap'.routes[r])
  {
    forall g | g in snap.gateways ensures SameGateway(snap.gateways[g], snap'.gateways[g]) {
      assert snap'.gateways[g] == GatewayIn(p, g, snap.gateways[g], now);
    }
    forall r | r in snap.routes ensures SameRoute(snap.routes[r], snap'.routes[r]) {
      assert snap'.routes[r] == RouteIn(p, snap, r, snap.routes[r], now);
    }
  }

  /** A status write changes neither claims nor binding results. */
  lemma PassIgnoresStatus(env: Env, snap: Snapshot, snap': Snapshot, ports: seq<int>, applyErr: Option<string>, now: int)
    requires Written(PassOf(env, snap, ports, applyErr), snap, snap', now)
    ensures PassOf(env, snap', ports, applyErr) == PassOf(env, snap, ports, applyErr)
  {
    var p := PassOf(env, snap, ports, applyErr);
    WrittenConfigs(p, snap, snap', now);
    WrittenRoutes(p, snap, snap', now);
    ClaimsIgnoreStatus(env, snap, snap');
    BindingIgnoresStatus(env, snap, snap', ClaimsOf(env, snap));
  }

  ghost predicate CanSettleBut(p: Pass, snap: Snapshot) {
    && (forall n :: n in snap.classes && ClaimAt(p.claims, n).claimed ==> AtMost(snap.classes[n].conditions, "Accepted"))
    && (forall g :: g in snap.gateways && Managed(p.claims, snap.gateways[g]) ==> NoShadow(snap.gateways[g].listeners))
  }

  /** Nothing keeps the statuses from coming to rest: no listener name of a managed Gateway is
      shadowed, and no class of ours and no configuration in use has a condition besides
      Accepted. */
  ghost predicate CanSettle(p: Pass, snap: Snapshot) {
    && CanSettleBut(p, snap)
    && (forall n :: n in snap.configs && Referenced(p.claims, n) ==> AtMost(snap.configs[n].conditions, "Accepted"))
  }

  lemma ClassSettles(gc: GatewayClass, claim: Claim, now: int)
    ensures ClassQuiet(ClassAfter(gc, claim, now), claim) <==> (claim.claimed ==> AtMost(gc.conditions, "Accepted"))
  {
    RecordedSettles(gc.conditions, ClassCondition(gc, claim), now);
  }

  /** Different outcomes of the apply are reported differently. */
  lemma OutcomesDiffer(config: GatewayConfig, a: Option<string>, b: Option<string>)
    requires a != b
    ensures !SameContent(ConfigCondition(config, a), ConfigCondition(config, b))
  {
    var prefix := "failed to apply data-plane configuration: ";
    if a.Some? && b.Some? {
      assert (prefix + a.value)[|prefix|..] == a.value && (prefix + b.value)[|prefix|..] == b.value;
    }
  }

  lemma ConfigSettles(config: GatewayConfig, applyErr: Option<string>, applyErr': Option<string>, now: int)
    ensures ConfigQuiet(ConfigAfter(config, applyErr, now), applyErr') <==>
      AtMost(config.conditions, "Accepted") && applyErr' == applyErr
  {
    RecordedSettles(config.conditions, ConfigCondition(config, applyErr), now);
    if applyErr' != applyErr {
      OutcomesDiffer(config, applyErr, applyErr');
      RecordedIsNot(config.conditions, ConfigCondition(config, applyErr), ConfigCondition(config, applyErr'), now);
    }
  }

  lemma GatewaySettlesIn(p: Pass, g: Key, gw: Gateway, now: int, now': int)
    ensures GatewayQuietIn(p, g, GatewayIn(p, g, gw, now), now') <==> (Managed(p.claims, gw) ==> NoShadow(gw.listeners))
  {
    GatewaySettles(g, gw, p.ports, now, now');
  }

  lemma {:induction false} BackendsIgnoreStatus(snap: Snapshot, snap': Snapshot, r: Key, refs: seq<BackendRef>)
    requires snap'.services == snap.services && snap'.grants == snap.grants
    ensures BackendsStatus(snap', r, refs) == BackendsStatus(snap, r, refs)
  {
    if refs == [] {
    } else {
      BackendsIgnoreStatus(snap, snap', r, refs[..|refs| - 1]);
      var ref := refs[|refs| - 1];
      ProblemIff(snap, r, ref);
      assert Granted(snap', r.ns, TargetOf(r, ref).ns, ref.name) == Granted(snap, r.ns, TargetOf(r, ref).ns, ref.name);
    }
  }

  lemma RouteSettlesIn(p: Pass, snap: Snapshot, snap': Snapshot, r: Key, route: Route, now: int, now': int)
    requires snap'.services == snap.services && snap'.grants == snap.grants
    ensures RouteQuietIn(p, snap', r, RouteIn(p, snap, r, route, now), now')
  {
    if r in p.results {
      BackendsIgnoreStatus(snap, snap', r, route.backendRefs);
      RouteSettles(route, p.results[r], BackendsFor(snap, r, route, p.results[r]), now, now');
    }
  }

  /** Some configuration's status reports the outcome of the apply. */
  ghost predicate OutcomeIsReported(p: Pass, snap: Snapshot) {
    exists n :: n in snap.configs && Referenced(p.claims, n)
  }

  lemma QuietButAfter(p: Pass, applyErr': Option<string>, snap: Snapshot, snap': Snapshot, now: int, now': int)
    requires Written(p, snap, snap', now)
    ensures QuietBut(p.(applyErr := applyErr'), snap', now') <==> CanSettleBut(p, snap)
  {
    var p' := p.(applyErr := applyErr');
    forall n | n in snap.classes
      ensures ClassQuiet(snap'.classes[n], ClaimAt(p.claims, n)) <==>
        (ClaimAt(p.claims, n).claimed ==> AtMost(snap.classes[n].conditions, "Accepted"))
    {
      ClassSettles(snap.classes[n], ClaimAt(p.claims, n), now);
    }
    forall g | g in snap.gateways
      ensures GatewayQuietIn(p', g, snap'.gateways[g], now') <==> (Managed(p.claims, snap.gateways[g]) ==> NoShadow(snap.gateways[g].listeners))
    {
      GatewaySettlesIn(p, g, snap.gateways[g], now, now');
    }
    forall r | r in snap.routes ensures RouteQuietIn(p', snap', r, snap'.routes[r], now') {
      RouteSettlesIn(p, snap, snap', r, snap.routes[r], now, now');
    }
  }

  lemma ConfigsAfter(p: Pass, applyErr': Option<string>, snap: Snapshot, snap': Snapshot, now: int)
    requires Written(p, snap, snap', now)
    ensures (forall n :: n in snap'.configs ==> ConfigQuietIn(p.(applyErr := applyErr'), n, snap'.configs[n])) <==>
      && (forall n :: n in snap.configs && Referenced(p.claims, n) ==> AtMost(snap.configs[n].conditions, "Accepted"))
      && (applyErr' == p.applyErr || !OutcomeIsReported(p, snap))
  {
    forall n | n in snap.configs
      ensures ConfigQuietIn(p.(applyErr := applyErr'), n, snap'.configs[n]) <==>
        (Referenced(p.claims, n) ==> AtMost(snap.configs[n].conditions, "Accepted") && applyErr' == p.applyErr)
    {
      ConfigSettles(snap.configs[n], p.applyErr, applyErr', now);
    }
  }

  /** The next pass, whose apply may have ended differently. */
  lemma QuietAfter(p: Pass, applyErr': Option<string>, snap: Snapshot, snap': Snapshot, now: int, now': int)
    requires Written(p, snap, snap', now)
    ensures Quiet(p.(applyErr := applyErr'), snap', now') <==>
      CanSettle(p, snap) && (applyErr' == p.applyErr || !OutcomeIsReported(p, snap))
  {
    QuietButAfter(p, applyErr', snap, snap', now, now');
    ConfigsAfter(p, applyErr', snap, snap', now);
  }

  /** After a rebuild whose updates all succeeded, rebuilding the unchanged cluster writes
      nothing, at any later time, exactly when the statuses could settle and the apply ended as
      before, as far as that is reported. RsyncRoutes never stand in the way. */
  lemma SecondRebuildIsQuiet(env: Env, snap: Snapshot, snap': Snapshot, ports: seq<int>,
      applyErr: Option<string>, applyErr': Option<string>, now: int, now': int)
    requires Written(PassOf(env, snap, ports, applyErr), snap, snap', now)
    ensures Quiet(PassOf(env, snap', ports, applyErr'), snap', now') <==>
      && CanSettle(PassOf(env, snap, ports, applyErr), snap)
      && (applyErr' == applyErr || !OutcomeIsReported(PassOf(env, snap, ports, applyErr), snap))
  {
    PassIgnoresStatus(env, snap, snap', ports, applyErr, now);
    QuietAfter(PassOf(env, snap, ports, applyErr), applyErr', snap, snap', now, now');
  }

  // ---------------------------------------------------------------- what the statuses say

  /** Our entry for a parent: an Accepted condition that gives the binding's verdict and, when
      that is positive, a ResolvedRefs condition that gives the references'. */
  ghost predicate ParentTells(s: ParentStatus, res: ParentResult, backends: BackendStatus, generation: int) {
    && s.controllerName == CONTROLLER && ParentRefString(s.parentRef) == ParentRefString(res.parentRef)
    && |s.conditions| == (if res.accepted then 2 else 1)
    && Reads(s.conditions[0], "Accepted", if res.accepted then True else False, res.reason, res.message, generation)
    && (res.accepted ==>
          Reads(s.conditions[1], "ResolvedRefs", if backends.resolved then True else False, backends.reason, backends.message, generation))
  }

  lemma ParentEntryTells(generation: int, ps: seq<ParentStatus>, res: ParentResult, backends: BackendStatus, now: int,
      e: ParentStatus, s: ParentStatus)
    requires e == ParentEntry(generation, ps, res, backends, now) && ParentStatusEqual(s, e)
    ensures ParentTells(s, res, backends, generation)
  {
    ConditionsEqualIff(s.conditions, e.conditions);
  }

  lemma MatchesWanted(route: Route, results: seq<ParentResult>, backends: BackendStatus, now: int)
    ensures ParentStatusesEqual(RouteAfter(route, results, backends, now).parents, WantedParents(route, results, backends, now))
  {
  }

  lemma EqualAt(ps: seq<ParentStatus>, foreign: seq<ParentStatus>, ours: seq<ParentStatus>, i: nat)
    requires ParentStatusesEqual(ps, foreign + ours) && i < |ours|
    ensures |ps| == |foreign| + |ours| && ParentStatusEqual(ps[|foreign| + i], ours[i])
  {
    assert (foreign + ours)[|foreign| + i] == ours[i];
  }

  lemma EntryAfter(route: Route, results: seq<ParentResult>, backends: BackendStatus, now: int, i: nat,
      ours: seq<ParentStatus>, ps: seq<ParentStatus>)
    requires i < |ours| && ours == ParentEntries(route.generation, route.parents, results, backends, now)
    requires ps == RouteAfter(route, results, backends, now).parents
    ensures |Foreign(route.parents)| + i < |ps| && ParentStatusEqual(ps[|Foreign(route.parents)| + i], ours[i])
  {
    MatchesWanted(route, results, backends, now);
    EqualAt(ps, Foreign(route.parents), ours, i);
  }

  ghost predicate ReferencesResolve(snap: Snapshot, r: Key, refs: seq<BackendRef>) {
    forall ref :: ref in refs ==> Resolves(snap, r, ref)
  }

  lemma RouteAfterTells(route: Route, results: seq<ParentResult>, backends: BackendStatus, now: int, i: nat,
      ours: seq<ParentStatus>, ps: seq<ParentStatus>)
    requires i < |results| && ours == ParentEntries(route.generation, route.parents, results, backends, now)
    requires ps == RouteAfter(route, results, backends, now).parents
    ensures |Foreign(route.parents)| + i < |ps| && ParentTells(ps[|Foreign(route.parents)| + i], results[i], backends, route.generation)
  {
    EntryAfter(route, results, backends, now, i, ours, ps);
    ParentEntryTells(route.generation, route.parents, results[i], backends, now, ours[i], ps[|Foreign(route.parents)| + i]);
  }

  /** The `n`-th entry tells the truth about the binding and, if that is accepted, about the
      backend references: all resolve, or the first that does not is named. */
  ghost predicate EntryIsTrue(snap: Snapshot, r: Key, route: Route, ps: seq<ParentStatus>, n: nat, res: ParentResult) {
    && n < |ps| && (res.accepted ==> ParentTells(ps[n], res, BackendsStatus(snap, r, route.backendRefs), route.generation))
    && (!res.accepted ==> ParentTells(ps[n], res, RESOLVED, route.generation))
    && (res.accepted ==> (ps[n].conditions[1].status == True <==> ReferencesResolve(snap, r, route.backendRefs)))
  }

  lemma BackendsForAccepted(snap: Snapshot, r: Key, route: Route, rs: seq<ParentResult>, i: nat)
    requires i < |rs| && rs[i].accepted
    ensures BackendsFor(snap, r, route, rs) == BackendsStatus(snap, r, route.backendRefs)
  {
    assert rs[i] in rs;
  }

  lemma TellsRefusal(s: ParentStatus, res: ParentResult, backends: BackendStatus, other: BackendStatus, generation: int)
    requires ParentTells(s, res, backends, generation) && !res.accepted
    ensures ParentTells(s, res, other, generation)
  {
  }

  /** After a pass, past the entries of other controllers, every parent of a route has its
      entry, and it tells the truth. */
  lemma RouteStatusIsTrue(p: Pass, snap: Snapshot, r: Key, route: Route, now: int, i: nat)
    requires r in p.results && i < |p.results[r]|
    ensures EntryIsTrue(snap, r, route, RouteIn(p, snap, r, route, now).parents, |Foreign(route.parents)| + i, p.results[r][i])
  {
    var results := p.results[r];
    var backends := BackendsFor(snap, r, route, results);
    var ps := RouteIn(p, snap, r, route, now).parents;
    RouteAfterTells(route, results, backends, now, i, ParentEntries(route.generation, route.parents, results, backends, now), ps);
    StatusIsExact(snap, r, route.backendRefs);
    if results[i].accepted {
      BackendsForAccepted(snap, r, route, results, i);
    } else {
      TellsRefusal(ps[|Foreign(route.parents)| + i], results[i], backends, RESOLVED, route.generation);
    }
  }

  /** A class of ours is reported as it was claimed. */
  lemma ClassReports(gc: GatewayClass, claim: Claim, now: int)
    requires claim.claimed
    ensures Reports(ClassAfter(gc, claim, now).conditions, "Accepted", if claim.accepted then True else False,
      claim.reason, claim.message, gc.generation)
  {
    RecordedReports(gc.conditions, ClassCondition(gc, claim), now);
  }

  /** A configuration in use is reported with the outcome of the apply. */
  lemma ConfigReports(config: GatewayConfig, applyErr: Option<string>, now: int)
    ensures var cs := ConfigAfter(config, applyErr, now).conditions;
      match applyErr
      case None => Reports(cs, "Accepted", True, "Accepted", "configuration applied to the data plane", config.generation)
      case Some(err) => Reports(cs, "Accepted", False, "Invalid", "failed to apply data-plane configuration: " + err, config.generation)
  {
    RecordedReports(config.conditions, ConfigCondition(config, applyErr), now);
  }

  /** Every managed Gateway is reported programmed, whether the apply went well or not. */
  lemma ProgrammedRegardless(p: Pass, g: Key, gw: Gateway, now: int)
    requires Managed(p.claims, gw)
    ensures Says(GatewayIn(p, g, gw, now).conditions, "Programmed", True)
  {
    GatewayConditionsSay(g, gw, now, GatewayIn(p, g, gw, now).conditions);
  }

  lemma RecordedSays(cur: seq<Condition>, c: Condition, now: int)
    ensures Says(Recorded(cur, c, now), c.kind, True) <==> c.status == True
  {
    var w, cs := StableCondition(cur, c, now), Recorded(cur, c, now);
    if ConditionsEqual(cur, [c]) {
      assert SameContent(cur[0], c) && cs == [cs[0]];
    } else {
      MergedCarries(cur, [w], w);
    }
  }

  /** A configuration in use is reported accepted exactly when the apply went well. */
  lemma ConfigSaysIff(p: Pass, name: string, config: GatewayConfig, now: int)
    requires Referenced(p.claims, name)
    ensures Says(ConfigIn(p, name, config, now).conditions, "Accepted", True) <==> p.applyErr.None?
  {
    RecordedSays(config.conditions, ConfigCondition(config, p.applyErr), now);
  }

  // ---------------------------------------------------------------- what is not ours

  /** Everything but conditions of the given types is kept, in order. */
  predicate KeepsOthers(before: seq<Condition>, after: seq<Condition>, kinds: seq<string>) {
    Others(after, kinds) == Others(before, kinds)
  }

  lemma RecordedKeepsOthers(cur: seq<Condition>, c: Condition, now: int)
    requires c.kind == "Accepted"
    ensures KeepsOthers(cur, Recorded(cur, c, now), ["Accepted"])
  {
    var w := StableCondition(cur, c, now);
    assert Kinds([w]) == ["Accepted"];
    MergedKeepsOthers(cur, [w]);
  }

  /** A Gateway keeps its conditions of other types and its foreign listener entries, in order;
      there are more of these afterwards only where a name is shadowed. */
  ghost predicate KeepsForeign(before: Gateway, after: Gateway) {
    var ls, ss, ss' := before.listeners, before.listenerStatus, after.listenerStatus;
    && KeepsOthers(before.conditions, after.conditions, ["Accepted", "Programmed"])
    && Unmanaged(ls, ss) <= Unmanaged(ls, ss')
    && (NoShadow(ls) ==> Unmanaged(ls, ss') == Unmanaged(ls, ss))
  }

  lemma GatewayKeepsForeign(p: Pass, g: Key, gw: Gateway, now: int)
    ensures KeepsForeign(gw, GatewayIn(p, g, gw, now))
  {
    if Managed(p.claims, gw) { ForeignGatewayStatusSurvives(g, gw, p.ports, now); }
  }

  /** Conditions of other types, listener entries that are not ours and parent entries of
      other controllers survive a pass in order, on every object. */
  lemma ForeignStatusSurvives(p: Pass, snap: Snapshot, snap': Snapshot, now: int)
    requires Written(p, snap, snap', now)
    ensures forall n :: n in snap.classes ==> KeepsOthers(snap.classes[n].conditions, snap'.classes[n].conditions, ["Accepted"])
    ensures forall n :: n in snap.configs ==> KeepsOthers(snap.configs[n].conditions, snap'.configs[n].conditions, ["Accepted"])
    ensures forall r :: r in snap.routes ==> Foreign(snap'.routes[r].parents) == Foreign(snap.routes[r].parents)
    ensures forall g :: g in snap.gateways ==> KeepsForeign(snap.gateways[g], snap'.gateways[g])
  {
    forall n | n in snap.classes ensures KeepsOthers(snap.classes[n].conditions, snap'.classes[n].conditions, ["Accepted"]) {
      RecordedKeepsOthers(snap.classes[n].conditions, ClassCondition(snap.classes[n], ClaimAt(p.claims, n)), now);
    }
    forall n | n in snap.configs ensures KeepsOthers(snap.configs[n].conditions, snap'.configs[n].conditions, ["Accepted"]) {
      RecordedKeepsOthers(snap.configs[n].conditions, ConfigCondition(snap.configs[n], p.applyErr), now);
    }
    forall r | r in snap.routes ensures Foreign(snap'.routes[r].parents) == Foreign(snap.routes[r].parents) {
      if r in p.results {
        ForeignParentsSurvive(snap.routes[r], p.results[r], BackendsFor(snap, r, snap.routes[r], p.results[r]), now);
      }
    }
    forall g | g in snap.gateways ensures KeepsForeign(snap.gateways[g], snap'.gateways[g]) {
      GatewayKeepsForeign(p, g, snap.gateways[g], now);
    }
  }
}

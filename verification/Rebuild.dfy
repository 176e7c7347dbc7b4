/**
 One global rebuild: claims, bindings and the data-plane table. Maps are visited in any
 order; the table is shown to be the one the cluster state determines.
 */
module Rebuild {
  import opened Ordering
  import opened GatewayApi
  import opened Claims
  import opened Backends
  import opened Binding
  import opened Conflicts
  import opened ServerConfig
  import opened Translate

  // ---------------------------------------------------------------- least keys

  ghost predicate Least(gs: set<Key>, g: Key) {
    g in gs && forall x :: x in gs ==> x == g || KeyLess(g, x)
  }

  lemma {:induction false} LeastExists(gs: set<Key>)
    requires gs != {}
    ensures exists g :: Least(gs, g)
  {
    var x :| x in gs;
    var rest := gs - {x};
    assert gs == rest + {x};
    if rest == {} {
      assert Least(gs, x);
    } else {
      LeastExists(rest);
      var y :| Least(rest, y);
      KeyOrder(x, y, x);
      var g := if KeyLess(x, y) then x else y;
      forall z | z in gs ensures z == g || KeyLess(g, z) {
        KeyOrder(x, y, z);
      }
      assert Least(gs, g);
    }
  }

  lemma LeastIsUnique(gs: set<Key>, a: Key, b: Key)
    requires Least(gs, a) && Least(gs, b)
    ensures a == b
  {
    KeyOrder(a, b, a);
  }

  ghost function LeastOf(gs: set<Key>): (g: Key)
    requires gs != {}
    ensures Least(gs, g)
  {
    LeastExists(gs);
    var g :| Least(gs, g);
    g
  }

  // ---------------------------------------------------------------- what the cluster state determines

  ghost function AcceptedAt(rs: seq<ParentResult>): set<Key> {
    set i | 0 <= i < |rs| && rs[i].accepted :: rs[i].gateway
  }

  ghost function ManagedGateways(env: Env, snap: Snapshot): set<Key> {
    set g | g in snap.gateways && Managed(ClaimsOf(env, snap), snap.gateways[g])
  }

  ghost function Bindings(env: Env, snap: Snapshot): Results {
    ResultsOf(env, snap, ClaimsOf(env, snap))
  }

  /** The Gateways at which route `r` is accepted. */
  ghost function HomesOf(env: Env, snap: Snapshot, r: Key): set<Key>
    requires r in snap.routes
  {
    AcceptedAt(Bindings(env, snap)[r])
  }

  /** An accepted parent is an existing Gateway of an accepted class of ours. */
  lemma HomesAreManaged(env: Env, snap: Snapshot, r: Key)
    requires r in snap.routes
    ensures HomesOf(env, snap, r) <= ManagedGateways(env, snap)
  {
    var claims := ClaimsOf(env, snap);
    var pre: Results, results: Results := PreOf(env, snap, claims), Bindings(env, snap);
    forall i: nat | i < |results[r]| && results[r][i].accepted
      ensures results[r][i].gateway in ManagedGateways(env, snap)
    {
      SolutionMeaning(snap.routes, pre, r, i);
      BindParentIsExact(env, snap, claims, r, snap.routes[r], snap.routes[r].parentRefs[i]);
    }
  }

  lemma ManagedHasConfig(env: Env, snap: Snapshot, g: Key)
    requires g in ManagedGateways(env, snap)
    ensures var claims := ClaimsOf(env, snap);
      && snap.gateways[g].className in claims
      && claims[snap.gateways[g].className].config.Some?
      && Sound(env, claims[snap.gateways[g].className].config.value.spec)
  {
    AcceptedClaimIsSound(env, snap, snap.gateways[g].className);
  }

  /** The configuration of the least of some managed Gateways. */
  ghost function ConfigAmong(env: Env, snap: Snapshot, gs: set<Key>): (c: Option<ConfigSpec>)
    requires gs <= ManagedGateways(env, snap)
    ensures c.None? <==> gs == {}
    ensures c.Some? ==> Sound(env, c.value)
  {
    if gs == {} then None
    else
      ManagedHasConfig(env, snap, LeastOf(gs));
      Some(ClaimsOf(env, snap)[snap.gateways[LeastOf(gs)].className].config.value.spec)
  }

  ghost function PrimaryConfig(env: Env, snap: Snapshot): Option<ConfigSpec> {
    ConfigAmong(env, snap, ManagedGateways(env, snap))
  }

  ghost function InputFor(env: Env, snap: Snapshot, r: Key): RouteInput
    requires r in snap.routes
  {
    HomesAreManaged(env, snap, r);
    RouteInput(r, EffectiveModules(r, snap.routes[r]), UsableBackends(snap, r, snap.routes[r].backendRefs),
               ConfigAmong(env, snap, HomesOf(env, snap, r)))
  }

  /** Every route accepted somewhere, with what the translator is given for it. */
  ghost function ServedInputs(env: Env, snap: Snapshot): map<Key, RouteInput> {
    map r | r in snap.routes && HomesOf(env, snap, r) != {} :: InputFor(env, snap, r)
  }

  /** Backend `i` of a served route, under its generated name. */
  ghost predicate Provides(ins: map<Key, RouteInput>, r: Key, i: nat, name: string, u: Upstream) {
    && r in ins && i < |ins[r].backends| && ins[r].config.Some?
    && name == UpstreamName(r, i)
    && u == Entry(ins[r].modules, ins[r].backends[i], ins[r].config.value)
  }

  /** The last backend of the route under its name. */
  ghost predicate LastProvides(ins: map<Key, RouteInput>, r: Key, i: nat, name: string, u: Upstream) {
    Provides(ins, r, i, name, u) && LastNamed(r, |ins[r].backends|, i, name)
  }

  /** Backends that share a name are to be reached in the same way. */
  ghost predicate NoClash(ins: map<Key, RouteInput>) {
    forall r, i: nat, r', i': nat, n, u, u' ::
      Provides(ins, r, i, n, u) && Provides(ins, r', i', n, u') ==> u == u'
  }

  /** Routes that give the same name agree on their last backend of that name. */
  ghost predicate RoutesAgree(ins: map<Key, RouteInput>) {
    forall r, i: nat, r', i': nat, n, u, u' ::
      LastProvides(ins, r, i, n, u) && LastProvides(ins, r', i', n, u') ==> u == u'
  }

  ghost predicate OnlyProvided(ins: map<Key, RouteInput>, upstreams: map<string, Upstream>) {
    forall n :: n in upstreams ==> exists r, i: nat :: Provides(ins, r, i, n, upstreams[n])
  }

  /** The upstreams are exactly the backends of the served routes. */
  ghost predicate Describes(ins: map<Key, RouteInput>, upstreams: map<string, Upstream>) {
    && (forall r, i: nat, n, u :: Provides(ins, r, i, n, u) ==> n in upstreams && upstreams[n] == u)
    && OnlyProvided(ins, upstreams)
  }

  /** Every name given is there, with the last backend of that name of some route. */
  ghost predicate LastWins(ins: map<Key, RouteInput>, upstreams: map<string, Upstream>) {
    && (forall r, i: nat, n, u :: Provides(ins, r, i, n, u) ==> n in upstreams)
    && (forall n :: n in upstreams ==> exists r, i: nat :: LastProvides(ins, r, i, n, upstreams[n]))
  }

  /** `cfg` says what the cluster state says. */
  ghost predicate Compiled(env: Env, snap: Snapshot, cfg: Config) {
    && ProxySettings(env, PrimaryConfig(env, snap)) == Ok(cfg.proxy)
    && Describes(ServedInputs(env, snap), cfg.upstreams)
  }

  /** `cfg` is a table a rebuild may come up with. */
  ghost predicate Built(env: Env, snap: Snapshot, cfg: Config) {
    && ProxySettings(env, PrimaryConfig(env, snap)) == Ok(cfg.proxy)
    && LastWins(ServedInputs(env, snap), cfg.upstreams)
  }

  lemma LastWinsProvides(ins: map<Key, RouteInput>, upstreams: map<string, Upstream>)
    requires LastWins(ins, upstreams)
    ensures OnlyProvided(ins, upstreams)
  {
    forall n | n in upstreams ensures exists r, i: nat :: Provides(ins, r, i, n, upstreams[n]) {
      var r, i: nat :| LastProvides(ins, r, i, n, upstreams[n]);
      assert Provides(ins, r, i, n, upstreams[n]);
    }
  }

  /** A table in which the last wins describes the served routes exactly when no names clash. */
  lemma DescribesIffNoClash(ins: map<Key, RouteInput>, upstreams: map<string, Upstream>)
    requires LastWins(ins, upstreams)
    ensures Describes(ins, upstreams) <==> NoClash(ins)
  {
    LastWinsProvides(ins, upstreams);
    if NoClash(ins) {
      forall r, i: nat, n, u | Provides(ins, r, i, n, u) ensures n in upstreams && upstreams[n] == u {
        var r', i': nat :| Provides(ins, r', i', n, upstreams[n]);
      }
    }
  }

  lemma LastWinsAt(ins: map<Key, RouteInput>, a: map<string, Upstream>, b: map<string, Upstream>, n: string)
    requires RoutesAgree(ins) && LastWins(ins, a) && LastWins(ins, b) && n in a
    ensures n in b && b[n] == a[n]
  {
    var r, i: nat :| LastProvides(ins, r, i, n, a[n]);
    assert Provides(ins, r, i, n, a[n]);
    var r', i': nat :| LastProvides(ins, r', i', n, b[n]);
  }

  /** Where routes agree, there is only one table in which the last wins. */
  lemma LastWinsIsUnique(ins: map<Key, RouteInput>, a: map<string, Upstream>, b: map<string, Upstream>)
    requires RoutesAgree(ins) && LastWins(ins, a) && LastWins(ins, b)
    ensures a == b
  {
    forall n | n in a ensures n in b && b[n] == a[n] { LastWinsAt(ins, a, b, n); }
    forall n | n in b ensures n in a { LastWinsAt(ins, b, a, n); }
  }

  /** Replicas that see the same state come up with the same table where routes agree. */
  lemma BuiltIsUnique(env: Env, snap: Snapshot, a: Config, b: Config)
    requires Built(env, snap, a) && Built(env, snap, b) && RoutesAgree(ServedInputs(env, snap))
    ensures a == b
  {
    LastWinsIsUnique(ServedInputs(env, snap), a.upstreams, b.upstreams);
  }

  // ---------------------------------------------------------------- the program

  lemma AcceptedAtNext(rs: seq<ParentResult>, i: nat)
    requires i < |rs|
    ensures AcceptedAt(rs[..i + 1]) == AcceptedAt(rs[..i]) + if rs[i].accepted then {rs[i].gateway} else {}
  {
    var s := rs[..i + 1];
    assert s == rs[..i] + [rs[i]];
    forall g | g in AcceptedAt(rs[..i]) ensures g in AcceptedAt(s) {
      var j :| 0 <= j < i && rs[j].accepted && rs[j].gateway == g;
      assert s[j] == rs[j];
    }
    if rs[i].accepted {
      assert s[i] == rs[i];
    }
  }

  /** The distinct Gateways a route is accepted at, least first. */
  method BoundGatewaysFor(rs: seq<ParentResult>) returns (out: seq<Key>)
    ensures forall g :: g in out <==> g in AcceptedAt(rs)
    ensures out != [] ==> Least(AcceptedAt(rs), out[0])
    ensures forall i, j :: 0 <= i < j < |out| ==> KeyLess(out[i], out[j])
  {
    var list: seq<Key> := [];
    var seen: set<Key> := {};
    for i := 0 to |rs|
      invariant Distinct(list)
      invariant forall g :: g in list <==> g in seen
      invariant seen == AcceptedAt(rs[..i])
    {
      assert AcceptedAt(rs[..i + 1]) == AcceptedAt(rs[..i]) + if rs[i].accepted then {rs[i].gateway} else {} by {
        AcceptedAtNext(rs, i);
      }
      if !rs[i].accepted || rs[i].gateway in seen { continue; }
      seen := seen + {rs[i].gateway};
      list := list + [rs[i].gateway];
    }
    assert rs[..|rs|] == rs;
    KeyLessIsStrictTotal();
    SortMembers(list, KeyLess);
    SortStrict(list, KeyLess);
    out := Sort(list, KeyLess);
  }

  lemma LeastGrows(gs: set<Key>, best: Key, g: Key)
    requires gs != {} ==> Least(gs, best)
    ensures Least(gs + {g}, if gs == {} || KeyLess(g, best) then g else best)
  {
    if gs != {} {
      KeyOrder(best, g, best);
      forall x | x in gs && KeyLess(g, best) ensures x == g || KeyLess(g, x) {
        KeyOrder(g, best, x);
      }
    }
  }

  /** The scan for the least managed Gateway keeps the least of those seen. */
  method ChoosePrimary(env: Env, snap: Snapshot, claims: map<string, Claim>) returns (primary: Option<ConfigSpec>)
    requires claims == ClaimsOf(env, snap)
    ensures primary == PrimaryConfig(env, snap)
  {
    primary := None;
    var primaryGateway := Key("", "");
    var todo := snap.gateways.Keys;
    ghost var seen: set<Key> := {};
    while todo != {}
      invariant todo <= snap.gateways.Keys
      invariant seen == ManagedGateways(env, snap) - todo
      invariant primary == ConfigAmong(env, snap, seen)
      invariant seen != {} ==> Least(seen, primaryGateway)
      decreases todo
    {
      var g :| g in todo;
      todo := todo - {g};
      var gw := snap.gateways[g];
      if !Managed(claims, gw) {
        continue;
      }
      ManagedHasConfig(env, snap, g);
      ghost var before, best := seen, primaryGateway;
      seen := seen + {g};
      if primary == None || KeyLess(g, primaryGateway) {
        primary := Some(claims[gw.className].config.value.spec);
        primaryGateway := g;
      }
      LeastGrows(before, best, g);
      LeastIsUnique(seen, primaryGateway, LeastOf(seen));
      if before != {} { LeastIsUnique(before, best, LeastOf(before)); }
    }
    assert seen == ManagedGateways(env, snap);
  }

  /** The inputs of the served routes visited so far, each once. */
  ghost predicate Collected(ins: map<Key, RouteInput>, done: set<Key>, inputs: seq<RouteInput>) {
    && (forall k :: 0 <= k < |inputs| ==> inputs[k].route in done && inputs[k].route in ins && inputs[k] == ins[inputs[k].route])
    && (forall r :: r in done && r in ins ==> ins[r] in inputs)
    && (forall j, k :: 0 <= j < k < |inputs| ==> inputs[j].route != inputs[k].route)
  }

  /** The inputs of the served routes, each once, in some order. */
  ghost predicate InSomeOrder(ins: map<Key, RouteInput>, inputs: seq<RouteInput>) {
    Collected(ins, ins.Keys, inputs)
  }

  method RouteConfig(env: Env, snap: Snapshot, claims: map<string, Claim>, gateways: seq<Key>, ghost homes: set<Key>)
    returns (config: Option<ConfigSpec>)
    requires claims == ClaimsOf(env, snap) && homes <= ManagedGateways(env, snap) && gateways != []
    requires Least(homes, gateways[0]) && forall g :: g in gateways <==> g in homes
    ensures config == ConfigAmong(env, snap, homes)
  {
    config := None;
    LeastIsUnique(homes, gateways[0], LeastOf(homes));
    ManagedHasConfig(env, snap, gateways[0]);
    var i := 0;
    while config.None? && i < |gateways|
      invariant config.None? ==> i == 0
      invariant config.Some? ==> config == ConfigAmong(env, snap, homes)
    {
      var g := gateways[i];
      if g in snap.gateways && snap.gateways[g].className in claims {
        var claim := claims[snap.gateways[g].className];
        if claim.config.Some? { config := Some(claim.config.value.spec); }
      }
      i := i + 1;
    }
  }

  lemma CollectedGrows(ins: map<Key, RouteInput>, done: set<Key>, inputs: seq<RouteInput>, r: Key, input: Option<RouteInput>)
    requires Collected(ins, done, inputs) && r !in done && (input.None? <==> r !in ins)
    requires input.Some? ==> input.value == ins[r] && input.value.route == r
    ensures Collected(ins, done + {r}, if input.Some? then inputs + [input.value] else inputs)
  {
  }

  /** One route's turn: skipped when accepted nowhere, otherwise its input is added. */
  method CollectInput(env: Env, snap: Snapshot, claims: map<string, Claim>, results: Results, r: Key,
      inputs: seq<RouteInput>, ghost ins: map<Key, RouteInput>, ghost done: set<Key>)
    returns (inputs': seq<RouteInput>)
    requires claims == ClaimsOf(env, snap) && results == Bindings(env, snap) && r in snap.routes
    requires ins == ServedInputs(env, snap) && Collected(ins, done, inputs) && r !in done
    ensures Collected(ins, done + {r}, inputs')
  {
    var gateways := BoundGatewaysFor(results[r]);
    if gateways == [] {
      assert HomesOf(env, snap, r) == {};
      CollectedGrows(ins, done, inputs, r, None);
      return inputs;
    }
    assert gateways[0] in HomesOf(env, snap, r);
    HomesAreManaged(env, snap, r);
    var backends, _ := ResolveBackends(snap, r, snap.routes[r].backendRefs);
    var config := RouteConfig(env, snap, claims, gateways, HomesOf(env, snap, r));
    var input := RouteInput(r, EffectiveModules(r, snap.routes[r]), backends, config);
    CollectedGrows(ins, done, inputs, r, Some(input));
    return inputs + [input];
  }

  lemma OneMoreDone(keys: set<Key>, todo: set<Key>, r: Key)
    requires r in todo && todo <= keys
    ensures keys - (todo - {r}) == keys - todo + {r}
  {
  }

  lemma AllCollected(ins: map<Key, RouteInput>, done: set<Key>, inputs: seq<RouteInput>)
    requires Collected(ins, done, inputs) && ins.Keys <= done
    ensures InSomeOrder(ins, inputs)
  {
  }

  /** Whatever the order of iteration, every served route's input is collected once. */
  method CollectInputs(env: Env, snap: Snapshot, claims: map<string, Claim>, results: Results) returns (inputs: seq<RouteInput>)
    requires claims == ClaimsOf(env, snap) && results == Bindings(env, snap)
    ensures InSomeOrder(ServedInputs(env, snap), inputs)
  {
    inputs := [];
    ghost var ins := ServedInputs(env, snap);
    var keys := snap.routes.Keys;
    var todo := keys;
    while todo != {}
      invariant todo <= keys && Collected(ins, keys - todo, inputs)
      decreases todo
    {
      var r :| r in todo;
      inputs := CollectInput(env, snap, claims, results, r, inputs, ins, keys - todo);
      OneMoreDone(keys, todo, r);
      todo := todo - {r};
    }
    AllCollected(ins, keys - todo, inputs);
  }

  // ---------------------------------------------------------------- totality and meaning of the table

  /** Everything the translator validates was validated when the class was claimed. */
  lemma ServedIsSound(env: Env, snap: Snapshot, r: Key)
    requires r in ServedInputs(env, snap)
    ensures var c := ServedInputs(env, snap)[r].config; c.Some? && Sound(env, c.value)
    ensures ServedInputs(env, snap)[r].route == r
  {
    HomesAreManaged(env, snap, r);
  }

  lemma PrimaryIsSound(env: Env, snap: Snapshot)
    ensures var p := ProxySettings(env, PrimaryConfig(env, snap));
      p.Ok? && LimitsOk(p.value) && p.value.idleSecs >= 0 && p.value.listenTls == ""
  {
    var primary := PrimaryConfig(env, snap);
    if primary.Some? { SettingsAreSound(env, primary.value); }
  }

  ghost predicate WellKeyed(ins: map<Key, RouteInput>) {
    forall r :: r in ins ==> ins[r].route == r && ins[r].config.Some?
  }

  /** Whatever names collide and in whatever order, the last of a name wins. */
  lemma TableLastWins(ins: map<Key, RouteInput>, primary: Option<ConfigSpec>, inputs: seq<RouteInput>)
    requires InSomeOrder(ins, inputs) && WellKeyed(ins)
    ensures LastWins(ins, TableOf(primary, inputs))
  {
    var table := TableOf(primary, inputs);
    forall n | n in table ensures exists r, i: nat :: LastProvides(ins, r, i, n, table[n]) {
      TableOrigin(primary, inputs, n);
      var k: nat, i: nat :| IsEntry(primary, inputs, k, i, n, table[n]);
      assert LastProvides(ins, inputs[k].route, i, n, table[n]);
    }
    forall r, i: nat, n, u | Provides(ins, r, i, n, u) ensures n in table {
      assert ins[r] in inputs;
      var k :| 0 <= k < |inputs| && inputs[k] == ins[r];
      TableHasNames(primary, inputs, k, i, n);
    }
  }

  // ---------------------------------------------------------------- the order of the routes

  /** The table is the same for every order. */
  ghost predicate OrderFree(ins: map<Key, RouteInput>, primary: Option<ConfigSpec>) {
    forall a, b :: InSomeOrder(ins, a) && InSomeOrder(ins, b) ==> TableOf(primary, a) == TableOf(primary, b)
  }

  lemma {:induction false} SomeOrder(ins: map<Key, RouteInput>, keys: set<Key>) returns (inputs: seq<RouteInput>)
    requires WellKeyed(ins) && keys <= ins.Keys
    ensures Collected(ins, keys, inputs)
    decreases keys
  {
    inputs := [];
    if keys == {} {
    } else {
      var r :| r in keys;
      var front := SomeOrder(ins, keys - {r});
      inputs := front + [ins[r]];
    }
  }

  lemma OrderEndingWith(ins: map<Key, RouteInput>, r: Key) returns (inputs: seq<RouteInput>)
    requires WellKeyed(ins) && r in ins
    ensures InSomeOrder(ins, inputs) && inputs != [] && inputs[|inputs| - 1] == ins[r]
  {
    var front := SomeOrder(ins, ins.Keys - {r});
    inputs := front + [ins[r]];
    forall q | q in ins ensures ins[q] in inputs {
      if q != r { assert q in ins.Keys - {r}; }
    }
  }

  /** The route that comes last has its way. */
  lemma LastRouteWins(ins: map<Key, RouteInput>, primary: Option<ConfigSpec>, inputs: seq<RouteInput>, r: Key, i: nat, n: string, u: Upstream)
    requires WellKeyed(ins) && LastProvides(ins, r, i, n, u) && inputs != [] && inputs[|inputs| - 1] == ins[r]
    ensures n in TableOf(primary, inputs) && TableOf(primary, inputs)[n] == u
  {
    LastNamedStays(TableOf(primary, inputs[..|inputs| - 1]), ins[r], ins[r].config.value, |ins[r].backends|, i, n);
  }

  /** The order of the routes does not matter exactly when routes that give the same name agree
      on their last backend of it. Clashes within one route lose backends, but always the same;
      clashes between routes can make replicas differ. */
  lemma OrderFreeIff(ins: map<Key, RouteInput>, primary: Option<ConfigSpec>)
    requires WellKeyed(ins)
    ensures OrderFree(ins, primary) <==> RoutesAgree(ins)
  {
    if RoutesAgree(ins) {
      forall a, b | InSomeOrder(ins, a) && InSomeOrder(ins, b) ensures TableOf(primary, a) == TableOf(primary, b) {
        TableLastWins(ins, primary, a);
        TableLastWins(ins, primary, b);
        LastWinsIsUnique(ins, TableOf(primary, a), TableOf(primary, b));
      }
    } else {
      var r, i: nat, r', i': nat, n, u, u' :| LastProvides(ins, r, i, n, u) && LastProvides(ins, r', i', n, u') && u != u';
      var a := OrderEndingWith(ins, r);
      var b := OrderEndingWith(ins, r');
      LastRouteWins(ins, primary, a, r, i, n, u);
      LastRouteWins(ins, primary, b, r', i', n, u');
    }
  }

  // ---------------------------------------------------------------- the whole rebuild

  /** Building the table never fails and never dereferences a missing spec; its settings pass
      the server's checks. For every name the last backend wins, and the table says what the
      cluster state says exactly when no names clash. */
  method BuildTable(env: Env, snap: Snapshot, claims: map<string, Claim>, results: Results) returns (out: Outcome<Config>)
    requires claims == ClaimsOf(env, snap) && results == Bindings(env, snap)
    ensures out.Ok? && LimitsOk(out.value.proxy) && out.value.proxy.idleSecs >= 0 && out.value.proxy.listenTls == ""
    ensures Built(env, snap, out.value)
    ensures Compiled(env, snap, out.value) <==> NoClash(ServedInputs(env, snap))
  {
    var primary := ChoosePrimary(env, snap, claims);
    var inputs := CollectInputs(env, snap, claims, results);
    ghost var ins := ServedInputs(env, snap);
    PrimaryIsSound(env, snap);
    forall r | r in ins
      ensures ins[r].route == r && ins[r].config.Some? && Sound(env, ins[r].config.value)
    {
      ServedIsSound(env, snap, r);
    }
    out := BuildServerConfig(env, primary, inputs);
    TableLastWins(ins, primary, inputs);
    DescribesIffNoClash(ins, out.value.upstreams);
  }

  /** The whole rebuild, from snapshot to table. */
  method RebuildTable(env: Env, snap: Snapshot) returns (claims: map<string, Claim>, results: Results, out: Outcome<Config>)
    ensures claims == ClaimsOf(env, snap)
    ensures results == Bindings(env, snap)
    ensures out.Ok? && LimitsOk(out.value.proxy) && out.value.proxy.idleSecs >= 0 && out.value.proxy.listenTls == ""
    ensures Built(env, snap, out.value)
    ensures Compiled(env, snap, out.value) <==> NoClash(ServedInputs(env, snap))
  {
    claims := ClaimClasses(env, snap);
    results := BindRoutes(env, snap, claims);
    out := BuildTable(env, snap, claims, results);
  }
}

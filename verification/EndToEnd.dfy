/**
 From cluster state to what a client reaches: one rebuild followed by one load serves, for
 every module, exactly the addresses the accepted routes' usable backends have.
 */
module EndToEnd {
  import opened Ordering
  import opened GatewayApi
  import opened Claims
  import opened Backends
  import opened Binding
  import opened Conflicts
  import opened ServerConfig
  import opened Translate
  import opened Rebuild
  import opened ModuleIndex
  import AdmissionQueue
  import SR = ServerReload
  import DP = DataPlane

  /** The address a Service is reached at within the cluster. */
  function AddressText(service: Key, port: int): string {
    service.name + ("." + (service.ns + (".svc:" + Decimal(port))))
  }

  ghost predicate ServesVia(env: Env, snap: Snapshot, m: string, a: string, r: Key, ref: BackendRef) {
    && r in snap.routes && AcceptedSomewhere(Bindings(env, snap)[r]) && ServesModule(r, snap.routes[r], m)
    && ref in snap.routes[r].backendRefs && Usable(snap, r, ref)
    && a == AddressText(TargetOf(r, ref), ref.port.value)
  }

  lemma AddressIs(b: Backend)
    ensures Address(b) == AddressText(b.service, b.port)
  {
    var x, y, z := b.service.name, b.service.ns, Decimal(b.port);
    assert x + "." + y + ".svc:" + z == x + ("." + (y + (".svc:" + z)));
  }

  /** Some route with an accepted parent serves module `m` from a usable backend at `a`. */
  ghost predicate Reaches(env: Env, snap: Snapshot, m: string, a: string) {
    exists r, ref :: ServesVia(env, snap, m, a, r, ref)
  }

  /** An input of the translator serves `m` from its `i`-th backend at `a`. */
  ghost predicate InputReaches(ins: map<Key, RouteInput>, m: string, a: string, r: Key, i: nat) {
    && r in ins && i < |ins[r].backends| && m in ins[r].modules && a == Address(ins[r].backends[i])
  }

  /** Some input serves `m` at `a`. */
  ghost predicate Reached(ins: map<Key, RouteInput>, m: string, a: string) {
    exists r, i: nat :: InputReaches(ins, m, a, r, i)
  }

  /** Looking up `m` gives a target at `a`. */
  ghost predicate Offers(table: map<string, seq<Target>>, m: string, a: string) {
    exists t :: t in Lookup(table, m) && t.addr == a
  }

  // ---------------------------------------------------------------- cluster state to inputs

  lemma HomesMeanAccepted(rs: seq<ParentResult>)
    ensures AcceptedSomewhere(rs) <==> AcceptedAt(rs) != {}
  {
    if AcceptedSomewhere(rs) {
      var i :| 0 <= i < |rs| && rs[i].accepted;
      assert rs[i].gateway in AcceptedAt(rs);
    }
  }

  /** What the translator is given for a served route. */
  lemma InputOf(env: Env, snap: Snapshot, r: Key)
    requires r in snap.routes
    ensures r in ServedInputs(env, snap) <==> AcceptedSomewhere(Bindings(env, snap)[r])
    ensures r in ServedInputs(env, snap) ==>
      && ServedInputs(env, snap)[r].modules == EffectiveModules(r, snap.routes[r])
      && ServedInputs(env, snap)[r].backends == UsableBackends(snap, r, snap.routes[r].backendRefs)
  {
    HomesMeanAccepted(Bindings(env, snap)[r]);
  }

  lemma ServesViaInput(env: Env, snap: Snapshot, ins: map<Key, RouteInput>, m: string, a: string, r: Key, ref: BackendRef)
    requires ins == ServedInputs(env, snap) && ServesVia(env, snap, m, a, r, ref)
    ensures exists i: nat :: InputReaches(ins, m, a, r, i)
  {
    InputOf(env, snap, r);
    var b := Backend(TargetOf(r, ref), ref.port.value);
    AddressIs(b);
    UsableMembers(snap, r, snap.routes[r].backendRefs, b);
    var i: nat :| i < |ins[r].backends| && ins[r].backends[i] == b;
    assert InputReaches(ins, m, a, r, i);
  }

  lemma BackendServesVia(env: Env, snap: Snapshot, m: string, b: Backend, r: Key)
    requires r in snap.routes && AcceptedSomewhere(Bindings(env, snap)[r]) && ServesModule(r, snap.routes[r], m)
    requires b in UsableBackends(snap, r, snap.routes[r].backendRefs)
    ensures exists ref :: ServesVia(env, snap, m, Address(b), r, ref)
  {
    var refs := snap.routes[r].backendRefs;
    AddressIs(b);
    UsableMembers(snap, r, refs, b);
    var ref :| ref in refs && Usable(snap, r, ref) && b == Backend(TargetOf(r, ref), ref.port.value);
    assert ServesVia(env, snap, m, Address(b), r, ref);
  }

  lemma InputServesVia(env: Env, snap: Snapshot, ins: map<Key, RouteInput>, m: string, a: string, r: Key, i: nat)
    requires ins == ServedInputs(env, snap) && InputReaches(ins, m, a, r, i)
    ensures exists ref :: ServesVia(env, snap, m, a, r, ref)
  {
    InputOf(env, snap, r);
    ServesModuleIff(r, snap.routes[r], m);
    var b := ins[r].backends[i];
    BackendServesVia(env, snap, m, b, r);
  }

  lemma InputsReach(env: Env, snap: Snapshot, m: string, a: string)
    ensures Reaches(env, snap, m, a) <==> Reached(ServedInputs(env, snap), m, a)
  {
    var ins := ServedInputs(env, snap);
    if r, ref :| ServesVia(env, snap, m, a, r, ref) { ServesViaInput(env, snap, ins, m, a, r, ref); }
    if r, i: nat :| InputReaches(ins, m, a, r, i) { InputServesVia(env, snap, ins, m, a, r, i); }
  }

  // ---------------------------------------------------------------- inputs to the upstream list

  ghost predicate Lists(us: seq<UpstreamConfig>, m: string, a: string, k: nat) {
    k < |us| && m in us[k].modules && us[k].target.addr == a
  }

  /** No generated upstream asks for discovery. */
  lemma ProvidedListing(ins: map<Key, RouteInput>, c: Config, d: map<string, seq<string>>, us: seq<UpstreamConfig>, k: nat)
    requires OnlyProvided(ins, c.upstreams) && SR.Lists(c, d, us) && k < |us|
    ensures us[k].name in c.upstreams
    ensures us[k].modules == c.upstreams[us[k].name].modules
    ensures us[k].target.addr == c.upstreams[us[k].name].address
  {
    var n := us[k].name;
    var r, i: nat :| Provides(ins, r, i, n, c.upstreams[n]);
  }

  /** The upstreams hold module `m` at address `a` under name `n`. */
  ghost predicate HoldsAt(upstreams: map<string, Upstream>, m: string, a: string, n: string) {
    n in upstreams && m in upstreams[n].modules && upstreams[n].address == a
  }

  ghost predicate Holds(upstreams: map<string, Upstream>, m: string, a: string) {
    exists n :: HoldsAt(upstreams, m, a, n)
  }

  lemma ListsHold(ins: map<Key, RouteInput>, c: Config, d: map<string, seq<string>>, us: seq<UpstreamConfig>, m: string, a: string)
    requires OnlyProvided(ins, c.upstreams) && SR.Lists(c, d, us)
    ensures Holds(c.upstreams, m, a) <==> exists k: nat :: Lists(us, m, a, k)
  {
    if n :| HoldsAt(c.upstreams, m, a, n) {
      var k := SR.NamedBy(us, n);
      ProvidedListing(ins, c, d, us, k);
      assert Lists(us, m, a, k);
    }
    if k: nat :| Lists(us, m, a, k) {
      ProvidedListing(ins, c, d, us, k);
      assert HoldsAt(c.upstreams, m, a, us[k].name);
    }
  }

  /** Nothing is held that no input reaches. */
  lemma HeldIsReached(ins: map<Key, RouteInput>, upstreams: map<string, Upstream>, m: string, a: string)
    requires OnlyProvided(ins, upstreams) && Holds(upstreams, m, a)
    ensures Reached(ins, m, a)
  {
    var n :| HoldsAt(upstreams, m, a, n);
    var r, i: nat :| Provides(ins, r, i, n, upstreams[n]);
    assert InputReaches(ins, m, a, r, i);
  }

  lemma OffersListed(table: map<string, seq<Target>>, us: seq<UpstreamConfig>, m: string, a: string)
    requires Indexes(table, us)
    ensures Offers(table, m, a) <==> exists k: nat :: Lists(us, m, a, k)
  {
    assert Lookup(table, m) == TargetsOf(us, m);
    if Offers(table, m, a) {
      var t :| t in Lookup(table, m) && t.addr == a;
      TargetsMembers(us, m, t);
      var u :| u in us && m in u.modules && u.target == t;
      var k: nat :| k < |us| && us[k] == u;
      assert Lists(us, m, a, k);
    }
    if k: nat :| Lists(us, m, a, k) {
      TargetsMembers(us, m, us[k].target);
      assert us[k] in us;
    }
  }

  lemma PresentMeansOffered(table: map<string, seq<Target>>, us: seq<UpstreamConfig>, m: string)
    requires Indexes(table, us)
    ensures m in table <==> exists a :: Offers(table, m, a)
  {
    if m in table {
      assert table[m][0] in Lookup(table, m);
      assert Offers(table, m, table[m][0].addr);
    }
  }

  // ---------------------------------------------------------------- the whole way

  lemma ServedIsWellKeyed(env: Env, snap: Snapshot)
    ensures WellKeyed(ServedInputs(env, snap))
  {
    forall r | r in ServedInputs(env, snap) { ServedIsSound(env, snap, r); }
  }

  /** A module offers an address exactly when an accepted route serves it from a usable
      backend there; a module nobody serves is absent. */
  ghost predicate ServesExactly(env: Env, snap: Snapshot, table: map<string, seq<Target>>) {
    && (forall m, a :: Offers(table, m, a) <==> Reaches(env, snap, m, a))
    && (forall m :: m in table <==> exists a :: Reaches(env, snap, m, a))
  }

  /** Every module and address an input reaches is held. */
  ghost predicate Carried(ins: map<Key, RouteInput>, upstreams: map<string, Upstream>) {
    forall m, a :: Reached(ins, m, a) ==> Holds(upstreams, m, a)
  }

  lemma OffersIffHeld(ins: map<Key, RouteInput>, c: Config, io: SR.Io, s: SR.Srv, s': SR.Srv, m: string, a: string)
    requires OnlyProvided(ins, c.upstreams) && SR.Loaded(c, false, io, s, s')
    ensures Offers(s'.modules, m, a) <==> Holds(c.upstreams, m, a)
  {
    ListsHold(ins, c, SR.Discovered(false, io), s'.upstreams, m, a);
    OffersListed(s'.modules, s'.upstreams, m, a);
  }

  /** How a loaded table, the upstreams, the inputs and the cluster state hang together. */
  ghost predicate Linked(env: Env, snap: Snapshot, ins: map<Key, RouteInput>, upstreams: map<string, Upstream>,
      table: map<string, seq<Target>>, m: string, a: string)
  {
    && (Offers(table, m, a) <==> Holds(upstreams, m, a))
    && (Reaches(env, snap, m, a) <==> Reached(ins, m, a))
    && (Offers(table, m, a) ==> Reaches(env, snap, m, a))
  }

  lemma ReachesOffered(env: Env, snap: Snapshot, ins: map<Key, RouteInput>, c: Config, io: SR.Io, s: SR.Srv, s': SR.Srv, m: string, a: string)
    requires ins == ServedInputs(env, snap) && OnlyProvided(ins, c.upstreams) && SR.Loaded(c, false, io, s, s')
    ensures Linked(env, snap, ins, c.upstreams, s'.modules, m, a)
  {
    OffersIffHeld(ins, c, io, s, s', m, a);
    InputsReach(env, snap, m, a);
    if Holds(c.upstreams, m, a) { HeldIsReached(ins, c.upstreams, m, a); }
  }

  lemma PresenceFollows(env: Env, snap: Snapshot, table: map<string, seq<Target>>, m: string)
    requires m in table <==> exists a :: Offers(table, m, a)
    requires forall a :: Offers(table, m, a) <==> Reaches(env, snap, m, a)
    ensures m in table <==> exists a :: Reaches(env, snap, m, a)
  {
    if m in table {
      var a :| Offers(table, m, a);
      assert Reaches(env, snap, m, a);
    }
    if a :| Reaches(env, snap, m, a) { assert Offers(table, m, a); }
  }

  lemma ExactWhenCarried(env: Env, snap: Snapshot, ins: map<Key, RouteInput>, upstreams: map<string, Upstream>, table: map<string, seq<Target>>)
    requires forall m, a :: Linked(env, snap, ins, upstreams, table, m, a)
    requires forall m :: m in table <==> exists a :: Offers(table, m, a)
    requires Carried(ins, upstreams)
    ensures ServesExactly(env, snap, table)
  {
    forall m, a ensures Offers(table, m, a) <==> Reaches(env, snap, m, a) {
      assert Linked(env, snap, ins, upstreams, table, m, a);
    }
    forall m ensures m in table <==> exists a :: Reaches(env, snap, m, a) { PresenceFollows(env, snap, table, m); }
  }

  lemma CarriedWhenExact(env: Env, snap: Snapshot, ins: map<Key, RouteInput>, upstreams: map<string, Upstream>, table: map<string, seq<Target>>)
    requires forall m, a :: Linked(env, snap, ins, upstreams, table, m, a)
    requires ServesExactly(env, snap, table)
    ensures Carried(ins, upstreams)
  {
    forall m, a | Reached(ins, m, a) ensures Holds(upstreams, m, a) {
      assert Linked(env, snap, ins, upstreams, table, m, a);
      assert Offers(table, m, a) <==> Reaches(env, snap, m, a);
    }
  }

  /** After loading a table of served routes, the server serves exactly what the cluster state
      says if and only if the table carries every module and address. */
  lemma MeaningIff(env: Env, snap: Snapshot, ins: map<Key, RouteInput>, c: Config, io: SR.Io, s: SR.Srv, s': SR.Srv)
    requires ins == ServedInputs(env, snap) && OnlyProvided(ins, c.upstreams) && SR.Loaded(c, false, io, s, s')
    ensures ServesExactly(env, snap, s'.modules) <==> Carried(ins, c.upstreams)
  {
    forall m, a ensures Linked(env, snap, ins, c.upstreams, s'.modules, m, a) {
      ReachesOffered(env, snap, ins, c, io, s, s', m, a);
    }
    forall m ensures m in s'.modules <==> exists a :: Offers(s'.modules, m, a) {
      PresentMeansOffered(s'.modules, s'.upstreams, m);
    }
    if Carried(ins, c.upstreams) { ExactWhenCarried(env, snap, ins, c.upstreams, s'.modules); }
    if ServesExactly(env, snap, s'.modules) { CarriedWhenExact(env, snap, ins, c.upstreams, s'.modules); }
  }

  ghost predicate Gives(ins: map<Key, RouteInput>, m: string, a: string, r: Key, i: nat, n: string, u: Upstream) {
    LastProvides(ins, r, i, n, u) && m in u.modules && u.address == a
  }

  ghost predicate Given(ins: map<Key, RouteInput>, m: string, a: string) {
    exists r, i: nat, n, u :: Gives(ins, m, a, r, i, n, u)
  }

  /** Every module and address an input reaches is given by the last backend of some name. */
  ghost predicate Covered(ins: map<Key, RouteInput>) {
    forall m, a :: Reached(ins, m, a) ==> Given(ins, m, a)
  }

  lemma HeldIffGiven(ins: map<Key, RouteInput>, upstreams: map<string, Upstream>, m: string, a: string)
    requires LastWins(ins, upstreams) && RoutesAgree(ins)
    ensures Holds(upstreams, m, a) <==> Given(ins, m, a)
  {
    if n :| HoldsAt(upstreams, m, a, n) {
      var r, i: nat :| LastProvides(ins, r, i, n, upstreams[n]);
      assert Gives(ins, m, a, r, i, n, upstreams[n]);
    }
    if r, i: nat, n, u :| Gives(ins, m, a, r, i, n, u) {
      assert Provides(ins, r, i, n, u);
      var r', i': nat :| LastProvides(ins, r', i', n, upstreams[n]);
      assert HoldsAt(upstreams, m, a, n);
    }
  }

  /** Where routes agree, whether a table carries everything can be told from the routes. */
  lemma CarriedIff(ins: map<Key, RouteInput>, upstreams: map<string, Upstream>)
    requires LastWins(ins, upstreams) && RoutesAgree(ins)
    ensures Carried(ins, upstreams) <==> Covered(ins)
  {
    forall m, a ensures Holds(upstreams, m, a) <==> Given(ins, m, a) {
      HeldIffGiven(ins, upstreams, m, a);
    }
  }

  lemma DescribedIsCarried(ins: map<Key, RouteInput>, upstreams: map<string, Upstream>)
    requires Describes(ins, upstreams) && WellKeyed(ins)
    ensures Carried(ins, upstreams)
  {
    forall m, a | Reached(ins, m, a) ensures Holds(upstreams, m, a) {
      var r, i: nat :| InputReaches(ins, m, a, r, i);
      var n, u := UpstreamName(r, i), Entry(ins[r].modules, ins[r].backends[i], ins[r].config.value);
      assert Provides(ins, r, i, n, u);
      assert HoldsAt(upstreams, m, a, n);
    }
  }

  /** Loading the compiled table preserves its meaning. */
  lemma MeaningIsPreserved(env: Env, snap: Snapshot, c: Config, io: SR.Io, s: SR.Srv, s': SR.Srv)
    requires Compiled(env, snap, c) && SR.Loaded(c, false, io, s, s')
    ensures ServesExactly(env, snap, s'.modules)
  {
    ServedIsWellKeyed(env, snap);
    DescribedIsCarried(ServedInputs(env, snap), c.upstreams);
    MeaningIff(env, snap, ServedInputs(env, snap), c, io, s, s');
  }

  // ---------------------------------------------------------------- acceptance of a compiled table

  ghost predicate AddressesResolve(io: SR.Io, c: Config) {
    forall n :: n in c.upstreams ==> io.addrOk(c.upstreams[n].address)
  }

  lemma ProvidedIsOk(env: Env, snap: Snapshot, io: SR.Io, n: string, u: Upstream)
    requires exists r, i: nat :: Provides(ServedInputs(env, snap), r, i, n, u)
    ensures SR.UpstreamOk(io, u) <==> io.addrOk(u.address)
  {
    var r, i: nat :| Provides(ServedInputs(env, snap), r, i, n, u);
    ServedIsSound(env, snap, r);
  }

  /** A table of served routes is refused only when an upstream address does not resolve, or
      by a server started with a TLS listener. */
  lemma OnlyAddressesCanFail(env: Env, snap: Snapshot, c: Config, io: SR.Io, started: bool, tlsOn: bool)
    requires LimitsOk(c.proxy) && c.proxy.idleSecs >= 0 && c.proxy.listenTls == ""
    requires OnlyProvided(ServedInputs(env, snap), c.upstreams)
    ensures SR.Acceptable(c, false, io, started, tlsOn) <==> !(started && tlsOn) && AddressesResolve(io, c)
  {
    forall n | n in c.upstreams ensures SR.UpstreamOk(io, c.upstreams[n]) <==> io.addrOk(c.upstreams[n].address) {
      ProvidedIsOk(env, snap, io, n, c.upstreams[n]);
    }
  }

  // ---------------------------------------------------------------- replicas

  /** Two replicas that see the same cluster state, whatever they served before and whatever
      the world around them answers, end up with
      the same upstreams and the same target sequence for every module, where routes that give
      the same upstream name agree. */
  lemma ReplicasAgree(env: Env, snap: Snapshot, c1: Config, c2: Config, io1: SR.Io, io2: SR.Io,
      s1: SR.Srv, s1': SR.Srv, s2: SR.Srv, s2': SR.Srv)
    requires Built(env, snap, c1) && Built(env, snap, c2) && RoutesAgree(ServedInputs(env, snap))
    requires SR.Loaded(c1, false, io1, s1, s1') && SR.Loaded(c2, false, io2, s2, s2')
    ensures c1 == c2 && s1'.upstreams == s2'.upstreams && s1'.modules == s2'.modules && s1'.timings == s2'.timings
  {
    BuiltIsUnique(env, snap, c1, c2);
    SR.ListIsUnique(c1, SR.Discovered(false, io1), s1'.upstreams, s2'.upstreams);
    IndexIsUnique(s1'.modules, s2'.modules, s1'.upstreams);
  }

  // ---------------------------------------------------------------- timings

  /** `t` is the configured duration cut to whole seconds, zero when none is set. */
  ghost predicate Keeps(env: Env, d: Option<string>, t: int) {
    && t >= 0 && (d.None? ==> t == 0)
    && (d.Some? && env.parseDuration(d.value).Some? ==> t <= env.parseDuration(d.value).value < t + SECOND)
  }

  /** What the relays run by, given the primary configuration: every duration is within a
      second below what is asked for; a window or grace below a second, or unset, gives way to a
      minute and to the window. */
  ghost predicate TimingsKeep(env: Env, c: ConfigSpec, t: SR.Timings) {
    && Keeps(env, c.relayIdleTimeout, t.idle) && Keeps(env, c.relayMaxDuration, t.maxDuration)
    && Keeps(env, c.tcpKeepAlive, t.keepAlive) && Keeps(env, c.dialTimeout, t.dialTimeout)
    && (if SubSecond(env, WindowOf(c)) then t.window == 60 * SECOND else Keeps(env, WindowOf(c), t.window))
    && (if SubSecond(env, GraceOf(c)) then t.grace == t.window else Keeps(env, GraceOf(c), t.grace))
    && t.minBytes == FloorBytes(c)
  }

  lemma FaithfulKeeps(env: Env, d: Option<string>, secs: int)
    requires GoodDuration(env, d) && Faithful(env, d, secs)
    ensures Keeps(env, d, Seconds(secs)) && (secs == 0 <==> SubSecond(env, d))
  {
  }

  lemma SettingsKeep(env: Env, c: ConfigSpec, p: Proxy)
    requires Sound(env, c) && ProxySettings(env, Some(c)) == Ok(p)
    ensures TimingsKeep(env, c, SR.TimingsOf(p))
  {
    SettingsAreSound(env, c);
    FaithfulKeeps(env, c.relayIdleTimeout, p.idleSecs);
    FaithfulKeeps(env, c.relayMaxDuration, p.maxDurationSecs);
    FaithfulKeeps(env, c.tcpKeepAlive, p.keepAliveSecs);
    FaithfulKeeps(env, c.dialTimeout, p.dialSecs);
    if Faithful(env, WindowOf(c), p.windowSecs) { FaithfulKeeps(env, WindowOf(c), p.windowSecs); }
    if Faithful(env, GraceOf(c), p.graceSecs) { FaithfulKeeps(env, GraceOf(c), p.graceSecs); }
    SecondsExact(60);
  }

  /** After a load of the built table the relays keep the primary configuration's timings. */
  lemma TimingsArePreserved(env: Env, snap: Snapshot, c: Config, io: SR.Io, s: SR.Srv, s': SR.Srv)
    requires Built(env, snap, c) && SR.Loaded(c, false, io, s, s') && PrimaryConfig(env, snap).Some?
    ensures TimingsKeep(env, PrimaryConfig(env, snap).value, s'.timings)
  {
    SettingsKeep(env, PrimaryConfig(env, snap).value, c.proxy);
  }

  // ---------------------------------------------------------------- limits

  /** An optional limit, zero when unset. */
  predicate IsLimit(limit: Option<Int32>, x: int) {
    match limit
    case None => x == 0
    case Some(n) => x == n
  }

  ghost function ConfigOf(env: Env, snap: Snapshot, g: Key): Option<ConfigSpec> {
    if g in snap.gateways && snap.gateways[g].className in ClaimsOf(env, snap)
       && ClaimsOf(env, snap)[snap.gateways[g].className].config.Some?
    then Some(ClaimsOf(env, snap)[snap.gateways[g].className].config.value.spec)
    else None
  }

  /** The configuration of the class of the least Gateway the route is accepted at. */
  ghost predicate RulesRoute(env: Env, snap: Snapshot, r: Key, spec: ConfigSpec)
    requires r in snap.routes
  {
    exists g :: Least(HomesOf(env, snap, r), g) && ConfigOf(env, snap, g) == Some(spec)
  }

  lemma ServedRules(env: Env, snap: Snapshot, r: Key)
    requires r in ServedInputs(env, snap)
    ensures r in snap.routes && ServedInputs(env, snap)[r].config.Some?
    ensures RulesRoute(env, snap, r, ServedInputs(env, snap)[r].config.value)
  {
    HomesAreManaged(env, snap, r);
    var g := LeastOf(HomesOf(env, snap, r));
    ManagedHasConfig(env, snap, g);
    assert Least(HomesOf(env, snap, r), g) && ConfigOf(env, snap, g) == ServedInputs(env, snap)[r].config;
  }

  lemma ProvidedLimits(ins: map<Key, RouteInput>, r: Key, i: nat, n: string, u: Upstream)
    requires Provides(ins, r, i, n, u)
    ensures var spec := ins[r].config.value;
      && IsLimit(spec.maxActive, u.maxActive) && IsLimit(spec.maxQueued, u.maxQueued) && IsLimit(spec.perIp, u.perIp)
      && u.modules == ins[r].modules && !u.discover && !u.useProxyProtocol
  {
  }

  /** A queue and an upstream have the limits of a configuration; without a per-IP cap of its own
      the upstream has the proxy's. The PROXY protocol is not spoken. */
  predicate Limited(spec: ConfigSpec, proxyPerIp: int, q: AdmissionQueue.State, u: UpstreamConfig) {
    && IsLimit(spec.maxActive, q.max) && IsLimit(spec.maxQueued, q.maxQueued)
    && (if spec.perIp.Some? && spec.perIp.value != 0 then u.perIp == spec.perIp.value else u.perIp == proxyPerIp)
    && !u.target.useProxyProtocol
  }

  /** After a load of the built table, the queue of a backend has the limits its route's
      configuration asks for, and its upstream the per-IP cap or else the primary's. */
  lemma LimitsArePreserved(env: Env, snap: Snapshot, c: Config, io: SR.Io, s: SR.Srv, s': SR.Srv, r: Key, i: nat, n: string, k: nat)
    requires Built(env, snap, c) && SR.Loaded(c, false, io, s, s')
    requires n in c.upstreams && Provides(ServedInputs(env, snap), r, i, n, c.upstreams[n])
    requires k < |s'.upstreams| && s'.upstreams[k].name == n
    ensures n in s'.queues && r in snap.routes
    ensures exists spec :: RulesRoute(env, snap, r, spec) && Limited(spec, c.proxy.perIp, s'.queues[n], s'.upstreams[k])
  {
    ServedRules(env, snap, r);
    ProvidedLimits(ServedInputs(env, snap), r, i, n, c.upstreams[n]);
    SR.LoadedUpstream(c, false, io, s, s', n);
    var j :| 0 <= j < |s'.upstreams| && SR.AsConfigured(c, false, io, n, s'.upstreams[j]);
    SR.NamedOnce(s'.upstreams, j, k);
    assert Limited(ServedInputs(env, snap)[r].config.value, c.proxy.perIp, s'.queues[n], s'.upstreams[k]);
  }

  // ---------------------------------------------------------------- the program

  /** Where a client asking for module `m` is sent: an unknown module is an error, and the
      panic is the zero 32-bit modulus. Otherwise the target is one the table offers. */
  method Dispatch(table: map<string, seq<Target>>, m: string, ip: Option<seq<bv8>>) returns (out: Outcome<Target>)
    requires forall m :: m in table ==> table[m] != []
    ensures out.Err? <==> m !in table
    ensures out.Panic? <==> m in table && ip.Some? && |table[m]| % 0x1_0000_0000 == 0
    ensures out.Ok? ==> out.value in Lookup(table, m) && Offers(table, m, out.value.addr)
  {
    if m !in table { return Err("unknown module"); }
    var targets := table[m];
    var i := ChooseTarget(ip, |targets|);
    if i.None? { return Panic; }
    assert targets[i.value] in Lookup(table, m);
    return Ok(targets[i.value]);
  }

  /** Server `j` can take the table: no TLS listener, and every address resolves for it. */
  ghost predicate Takes(c: Config, ios: seq<SR.Io>, flags: seq<(bool, bool)>, j: nat)
    requires j < |ios| == |flags|
  {
    !(flags[j].0 && flags[j].1) && AddressesResolve(ios[j], c)
  }

  lemma AcceptsIffTakes(env: Env, snap: Snapshot, c: Config, ios: seq<SR.Io>, flags: seq<(bool, bool)>)
    requires Built(env, snap, c) && |ios| == |flags|
    ensures forall j :: 0 <= j < |ios| ==> (DP.Accepts(c, ios, flags, j) <==> Takes(c, ios, flags, j))
  {
    PrimaryIsSound(env, snap);
    LastWinsProvides(ServedInputs(env, snap), c.upstreams);
    forall j | 0 <= j < |ios| ensures DP.Accepts(c, ios, flags, j) <==> Takes(c, ios, flags, j) {
      OnlyAddressesCanFail(env, snap, c, ios[j], flags[j].0, flags[j].1);
    }
  }

  /** Each of the first `n` servers serves exactly what the cluster state says, if and only if
      the table carries it. */
  ghost predicate ServeIffCarried(env: Env, snap: Snapshot, c: Config, views: seq<SR.Srv>, n: nat)
    requires n <= |views|
  {
    forall j :: 0 <= j < n ==> (ServesExactly(env, snap, views[j].modules) <==> Carried(ServedInputs(env, snap), c.upstreams))
  }

  lemma AppliedServe(env: Env, snap: Snapshot, c: Config, ios: seq<SR.Io>, before: seq<SR.Srv>, after: seq<SR.Srv>, n: nat)
    requires Built(env, snap, c) && DP.AppliedTo(c, ios, before, after, n)
    ensures ServeIffCarried(env, snap, c, after, n)
  {
    LastWinsProvides(ServedInputs(env, snap), c.upstreams);
    forall j | 0 <= j < n
      ensures ServesExactly(env, snap, after[j].modules) <==> Carried(ServedInputs(env, snap), c.upstreams)
    {
      MeaningIff(env, snap, ServedInputs(env, snap), c, ios[j], before[j], after[j]);
    }
  }

  /** A built table carries everything when no names clash, and, where routes agree, exactly
      when the last backends of the names cover everything. */
  lemma BuiltCarries(env: Env, snap: Snapshot, c: Config)
    requires Built(env, snap, c)
    ensures NoClash(ServedInputs(env, snap)) ==> Carried(ServedInputs(env, snap), c.upstreams)
    ensures RoutesAgree(ServedInputs(env, snap)) ==>
      (Carried(ServedInputs(env, snap), c.upstreams) <==> Covered(ServedInputs(env, snap)))
  {
    var ins := ServedInputs(env, snap);
    ServedIsWellKeyed(env, snap);
    DescribesIffNoClash(ins, c.upstreams);
    if NoClash(ins) { DescribedIsCarried(ins, c.upstreams); }
    if RoutesAgree(ins) { CarriedIff(ins, c.upstreams); }
  }

  /** A round of applying: the servers before the first that cannot take the table have loaded
      it, the others are as they were. */
  ghost predicate Round(c: Config, ios: seq<SR.Io>, flags: seq<(bool, bool)>, before: seq<SR.Srv>, after: seq<SR.Srv>, applied: nat) {
    && |flags| == |ios| && DP.AppliedTo(c, ios, before, after, applied)
    && (forall j :: 0 <= j < applied ==> Takes(c, ios, flags, j))
    && (applied < |ios| ==> !Takes(c, ios, flags, applied))
  }

  method ApplyTable(ghost env: Env, ghost snap: Snapshot, servers: seq<SR.Server>, ios: seq<SR.Io>, c: Config)
    returns (applied: nat)
    requires |ios| == |servers| && DP.Isolated(servers) && Built(env, snap, c)
    modifies servers, DP.Queues(servers)
    ensures DP.Isolated(servers) && DP.FlagsOf(servers) == old(DP.FlagsOf(servers))
    ensures Round(c, ios, DP.FlagsOf(servers), old(DP.ViewsOf(servers)), DP.ViewsOf(servers), applied)
    ensures ServeIffCarried(env, snap, c, DP.ViewsOf(servers), applied)
  {
    ghost var before := DP.ViewsOf(servers);
    applied := DP.Apply(servers, ios, c);
    AcceptsIffTakes(env, snap, c, ios, DP.FlagsOf(servers));
    AppliedServe(env, snap, c, ios, before, DP.ViewsOf(servers), applied);
  }

  /** One reconcile up to the data plane: rebuild, then apply to the servers. The rebuild never
      errors. The servers before the first that cannot take the table have loaded it, the
      others are as they were; those that have serve exactly what the cluster state says if and
      only if the table carries it (see `BuiltCarries`). */
  method Reconcile(env: Env, snap: Snapshot, servers: seq<SR.Server>, ios: seq<SR.Io>)
    returns (claims: map<string, Claim>, results: Results, c: Config, applied: nat)
    requires |ios| == |servers| && DP.Isolated(servers)
    modifies servers, DP.Queues(servers)
    ensures DP.Isolated(servers) && DP.FlagsOf(servers) == old(DP.FlagsOf(servers))
    ensures claims == ClaimsOf(env, snap) && results == Bindings(env, snap) && Built(env, snap, c)
    ensures Round(c, ios, DP.FlagsOf(servers), old(DP.ViewsOf(servers)), DP.ViewsOf(servers), applied)
    ensures ServeIffCarried(env, snap, c, DP.ViewsOf(servers), applied)
  {
    ghost var before, flags := DP.ViewsOf(servers), DP.FlagsOf(servers);
    var out;
    claims, results, out := RebuildTable(env, snap);
    c := out.value;
    assert DP.ViewsOf(servers) == before && DP.FlagsOf(servers) == flags;
    applied := ApplyTable(env, snap, servers, ios, c);
  }
}

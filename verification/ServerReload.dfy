/**
 Loading a configuration into a running server. A load is judged in full before anything a
 relay depends on changes; queues of upstreams that stay are kept and resized in place.
 */
module ServerReload {
  import opened Ordering
  import opened ServerConfig
  import opened ModuleIndex
  import AdmissionQueue
  import opened AdmissionQueueImpl

  // ---------------------------------------------------------------- what a load determines

  /** What the outside world answers during a load: the key pair (None when it cannot be
      loaded), address resolution, module discovery (None when it fails), the log files. */
  datatype Io = Io(
    cert: Option<string>, addrOk: string -> bool, discovered: Option<map<string, seq<string>>>,
    accessLogOk: bool, errorLogOk: bool)

  /** Relay timings and dialer settings, in nanoseconds. */
  datatype Timings = Timings(
    idle: int, maxDuration: int, keepAlive: int, minBytes: int, window: int, grace: int, dialTimeout: int)

  /** The part of the server a relay depends on. */
  datatype Srv = Srv(
    modules: map<string, seq<Target>>, upstreams: seq<UpstreamConfig>, timings: Timings,
    cert: Option<string>, queues: map<string, AdmissionQueue.State>)

  function Window(p: Proxy): int {
    if p.windowSecs == 0 then 60 else p.windowSecs
  }

  function Grace(p: Proxy): int {
    if p.graceSecs == 0 then Window(p) else p.graceSecs
  }

  function TimingsOf(p: Proxy): Timings {
    Timings(Seconds(p.idleSecs), Seconds(p.maxDurationSecs), Seconds(p.keepAliveSecs), p.minBytes,
            Seconds(Window(p)), Seconds(Grace(p)), Seconds(p.dialSecs))
  }

  function Configured(c: Config, name: string): UpstreamConfig
    requires name in c.upstreams
  {
    var v := c.upstreams[name];
    UpstreamConfig(name, Target(name, v.address, v.useProxyProtocol), v.modules, v.discover,
                   v.maxActive, v.maxQueued, if v.perIp == 0 then c.proxy.perIp else v.perIp)
  }

  predicate UpstreamOk(io: Io, v: Upstream) {
    !(v.modules == [] && !v.discover) && v.perIp >= 0 && io.addrOk(v.address)
  }

  function Resolved(u: UpstreamConfig, discovered: map<string, seq<string>>): UpstreamConfig {
    if u.discover then u.(modules := if u.name in discovered then discovered[u.name] else []) else u
  }

  function Discovered(openLog: bool, io: Io): map<string, seq<string>> {
    if openLog && io.discovered.Some? then io.discovered.value else map[]
  }

  /** The checks a plan has to pass; the rest of `Acceptable` is checked later. */
  predicate Plannable(c: Config, openLog: bool, io: Io, started: bool, tlsOn: bool) {
    && (started ==> (tlsOn <==> c.proxy.listenTls != ""))
    && (c.proxy.listenTls != "" ==> c.proxy.tlsCert != "" && c.proxy.tlsKey != "" && io.cert.Some?)
    && LimitsOk(c.proxy)
    && (forall n :: n in c.upstreams ==> UpstreamOk(io, c.upstreams[n]))
    && (openLog ==> io.discovered.Some?)
  }

  /** The configuration passes every check. */
  predicate Acceptable(c: Config, openLog: bool, io: Io, started: bool, tlsOn: bool) {
    && Plannable(c, openLog, io, started, tlsOn)
    && (openLog ==> io.accessLogOk && io.errorLogOk)
    && c.proxy.idleSecs >= 0
  }

  ghost predicate Ascending(us: seq<UpstreamConfig>) {
    forall i, j :: 0 <= i < j < |us| ==> StringLess(us[i].name, us[j].name)
  }

  ghost predicate Named(us: seq<UpstreamConfig>, n: string) {
    exists i :: 0 <= i < |us| && us[i].name == n
  }

  /** The upstream list: one entry per configured name, in name order. */
  ghost predicate Lists(c: Config, d: map<string, seq<string>>, us: seq<UpstreamConfig>) {
    && Ascending(us)
    && (forall i :: 0 <= i < |us| ==> us[i].name in c.upstreams && us[i] == Resolved(Configured(c, us[i].name), d))
    && (forall n :: n in c.upstreams ==> Named(us, n))
  }

  /** The queue of an upstream after a load: resized when it was there, new otherwise. */
  ghost function Requeue(before: map<string, AdmissionQueue.State>, u: UpstreamConfig): AdmissionQueue.State {
    if u.name in before then AdmissionQueue.Step(before[u.name], AdmissionQueue.SetMax(u.maxActive, u.maxQueued))
    else AdmissionQueue.New(u.maxActive, u.maxQueued)
  }

  // ---------------------------------------------------------------- the queues after a load

  /** The queue state of every listed upstream. */
  ghost function Wanted(before: map<string, AdmissionQueue.State>, us: seq<UpstreamConfig>): map<string, AdmissionQueue.State> {
    if us == [] then map[]
    else Wanted(before, us[..|us| - 1])[us[|us| - 1].name := Requeue(before, us[|us| - 1])]
  }

  lemma {:induction false} WantedNames(before: map<string, AdmissionQueue.State>, us: seq<UpstreamConfig>, n: string)
    ensures n in Wanted(before, us) <==> Named(us, n)
  {
    if us == [] {
    } else {
      var front, last := us[..|us| - 1], us[|us| - 1];
      WantedNames(before, front, n);
      if Named(front, n) {
        var i :| 0 <= i < |front| && front[i].name == n;
        assert us[i].name == n;
      }
      if Named(us, n) && n != last.name {
        var i :| 0 <= i < |us| && us[i].name == n;
        assert front[i].name == n;
      }
    }
  }

  lemma {:induction false} WantedAt(before: map<string, AdmissionQueue.State>, us: seq<UpstreamConfig>, i: nat)
    requires Ascending(us) && i < |us|
    ensures us[i].name in Wanted(before, us) && Wanted(before, us)[us[i].name] == Requeue(before, us[i])
  {
    var front := us[..|us| - 1];
    if i < |front| {
      assert front[i] == us[i];
      WantedAt(before, front, i);
      StringLessIrreflexive(us[i].name);
    }
  }

  lemma WantedNext(before: map<string, AdmissionQueue.State>, us: seq<UpstreamConfig>, k: nat)
    requires Ascending(us) && k < |us|
    ensures Wanted(before, us[..k + 1]) == Wanted(before, us[..k])[us[k].name := Requeue(before, us[k])]
    ensures us[k].name !in Wanted(before, us[..k])
  {
    assert us[..k + 1][..k] == us[..k];
    WantedNames(before, us[..k], us[k].name);
    StringLessIrreflexive(us[k].name);
  }

  // ---------------------------------------------------------------- a successful load

  /** `s'` is `s` after a successful load. */
  ghost predicate Loaded(c: Config, openLog: bool, io: Io, s: Srv, s': Srv) {
    && Lists(c, Discovered(openLog, io), s'.upstreams)
    && Indexes(s'.modules, s'.upstreams)
    && s'.timings == TimingsOf(c.proxy)
    && s'.cert == (if c.proxy.listenTls == "" then None else io.cert)
    && s'.queues == Wanted(s.queues, s'.upstreams)
  }

  // ---------------------------------------------------------------- the program

  method SortedNames(c: Config) returns (names: seq<string>)
    ensures forall i, j :: 0 <= i < j < |names| ==> StringLess(names[i], names[j])
    ensures forall n :: n in names <==> n in c.upstreams
  {
    var list: seq<string> := [];
    var todo := c.upstreams.Keys;
    while todo != {}
      invariant todo <= c.upstreams.Keys && Distinct(list)
      invariant forall n :: n in list <==> n in c.upstreams.Keys - todo
      decreases todo
    {
      var n :| n in todo;
      assert n !in list;
      todo := todo - {n};
      list := list + [n];
    }
    StringLessIsStrictTotal();
    SortMembers(list, StringLess);
    SortStrict(list, StringLess);
    names := Sort(list, StringLess);
  }

  /** The checking loop; None on the first upstream that fails. */
  method CheckUpstreams(c: Config, io: Io, names: seq<string>) returns (us: Option<seq<UpstreamConfig>>)
    requires forall i :: 0 <= i < |names| ==> names[i] in c.upstreams
    ensures us.Some? <==> forall i :: 0 <= i < |names| ==> UpstreamOk(io, c.upstreams[names[i]])
    ensures us.Some? ==> |us.value| == |names|
    ensures us.Some? ==> forall i :: 0 <= i < |names| ==> us.value[i] == Configured(c, names[i])
  {
    var list: seq<UpstreamConfig> := [];
    for i := 0 to |names|
      invariant |list| == i
      invariant forall j :: 0 <= j < i ==> list[j] == Configured(c, names[j]) && UpstreamOk(io, c.upstreams[names[j]])
    {
      var v := c.upstreams[names[i]];
      if v.modules == [] && !v.discover { return None; }
      if v.perIp < 0 { return None; }
      if !io.addrOk(v.address) { return None; }
      list := list + [Configured(c, names[i])];
    }
    return Some(list);
  }

  method ResolveUpstreams(us: seq<UpstreamConfig>, discovered: map<string, seq<string>>) returns (out: seq<UpstreamConfig>)
    ensures |out| == |us| && forall i :: 0 <= i < |us| ==> out[i] == Resolved(us[i], discovered)
  {
    out := [];
    for i := 0 to |us|
      invariant |out| == i && forall j :: 0 <= j < i ==> out[j] == Resolved(us[j], discovered)
    {
      out := out + [Resolved(us[i], discovered)];
    }
  }

  lemma ResolvedName(c: Config, n: string, d: map<string, seq<string>>)
    requires n in c.upstreams
    ensures Resolved(Configured(c, n), d).name == n
  {
  }

  lemma NamesInOrder(names: seq<string>, us: seq<UpstreamConfig>)
    requires |us| == |names| && forall i :: 0 <= i < |us| ==> us[i].name == names[i]
    requires forall i, j :: 0 <= i < j < |names| ==> StringLess(names[i], names[j])
    ensures Ascending(us)
  {
    forall i, j | 0 <= i < j < |us| ensures StringLess(us[i].name, us[j].name) {
      assert StringLess(names[i], names[j]);
    }
  }

  lemma NamedAs(names: seq<string>, us: seq<UpstreamConfig>, n: string)
    requires |us| == |names| && forall i :: 0 <= i < |us| ==> us[i].name == names[i]
    requires n in names
    ensures Named(us, n)
  {
    var i :| 0 <= i < |names| && names[i] == n;
    assert us[i].name == n;
  }

  lemma ListsInOrder(c: Config, d: map<string, seq<string>>, names: seq<string>, us: seq<UpstreamConfig>)
    requires forall i, j :: 0 <= i < j < |names| ==> StringLess(names[i], names[j])
    requires forall n :: n in names <==> n in c.upstreams
    requires |us| == |names| && forall i :: 0 <= i < |us| ==> names[i] in c.upstreams && us[i] == Resolved(Configured(c, names[i]), d)
    ensures Lists(c, d, us)
  {
    forall i | 0 <= i < |us| ensures us[i].name == names[i] {
      ResolvedName(c, names[i], d);
    }
    NamesInOrder(names, us);
    forall n | n in c.upstreams ensures Named(us, n) {
      assert n in names;
      NamedAs(names, us, n);
    }
  }

  /** The resolved upstream list, or None when an upstream fails its checks. */
  method ListUpstreams(c: Config, openLog: bool, io: Io) returns (out: Option<seq<UpstreamConfig>>)
    ensures out.Some? <==> forall n :: n in c.upstreams ==> UpstreamOk(io, c.upstreams[n])
    ensures out.Some? ==> Lists(c, Discovered(openLog, io), out.value)
  {
    var names := SortedNames(c);
    forall i | 0 <= i < |names| ensures names[i] in c.upstreams { assert names[i] in names; }
    var us := CheckUpstreams(c, io, names);
    if us.None? { return None; }
    var resolved := ResolveUpstreams(us.value, Discovered(openLog, io));
    ListsInOrder(c, Discovered(openLog, io), names, resolved);
    return Some(resolved);
  }

  /** What the checks before the reload lock, and the tables built under it, come to. */
  datatype Plan = Plan(upstreams: seq<UpstreamConfig>, modules: map<string, seq<Target>>, cert: Option<string>)

  method MakePlan(c: Config, openLog: bool, io: Io, started: bool, tlsOn: bool) returns (plan: Option<Plan>)
    ensures plan.Some? <==> Plannable(c, openLog, io, started, tlsOn)
    ensures plan.Some? ==>
      && Lists(c, Discovered(openLog, io), plan.value.upstreams)
      && Indexes(plan.value.modules, plan.value.upstreams)
      && plan.value.cert == (if c.proxy.listenTls == "" then None else io.cert)
  {
    if started && tlsOn != (c.proxy.listenTls != "") { return None; }
    var cert: Option<string> := None;
    if c.proxy.listenTls != "" {
      if c.proxy.tlsCert == "" || c.proxy.tlsKey == "" { return None; }
      if io.cert.None? { return None; }
      cert := io.cert;
    }
    if c.proxy.maxDurationSecs < 0 { return None; }
    if c.proxy.keepAliveSecs < 0 { return None; }
    if c.proxy.perIp < 0 { return None; }
    if c.proxy.dialSecs < 0 { return None; }
    if c.proxy.minBytes < 0 { return None; }
    if c.proxy.windowSecs < 0 { return None; }
    if c.proxy.graceSecs < 0 { return None; }
    var listed := ListUpstreams(c, openLog, io);
    if listed.None? { return None; }
    if openLog && io.discovered.None? { return None; }
    var table := BuildModuleTargets(listed.value);
    return Some(Plan(listed.value, table, cert));
  }

  class Server {
    var listenAddr: string
    var tlsListenAddr: string
    var httpListenAddr: string
    var motd: string
    var accessLog: string
    var errorLog: string
    var started: bool
    var tlsOn: bool
    var timings: Timings
    var modules: map<string, seq<Target>>
    var upstreams: seq<UpstreamConfig>
    var queues: map<string, Queue>
    var cert: Option<string>

    /** Different upstreams have different queues. */
    ghost predicate Valid()
      reads this
    {
      forall a, b :: a in queues && b in queues && a != b ==> queues[a] != queues[b]
    }

    static ghost function Views(qs: map<string, Queue>): map<string, AdmissionQueue.State>
      reads qs.Values
    {
      map n | n in qs :: qs[n].View()
    }

    ghost function View(): Srv
      reads this, queues.Values
    {
      Srv(modules, upstreams, timings, cert, Views(queues))
    }

    constructor ()
      ensures Valid() && View().queues == map[] && View().modules == map[] && View().upstreams == []
    {
      listenAddr, tlsListenAddr, httpListenAddr, motd, accessLog, errorLog := "", "", "", "", "", "";
      started, tlsOn, timings := false, false, Timings(0, 0, 0, 0, 0, 0, 0);
      modules, upstreams, queues, cert := map[], [], map[], None;
    }

    /** One upstream's turn: its queue is kept and resized, or made. */
    method UpdateQueue(u: UpstreamConfig, ghost before: map<string, AdmissionQueue.State>, ghost want: AdmissionQueue.State)
      returns (q: Queue)
      requires want == Requeue(before, u) && (u.name in before <==> u.name in queues)
      requires u.name in queues ==> queues[u.name].View() == before[u.name]
      modifies if u.name in queues then {queues[u.name]} else {}
      ensures if u.name in queues then q == queues[u.name] else fresh(q)
      ensures q.View() == want
    {
      if u.name in queues {
        q := queues[u.name];
        q.SetMax(u.maxActive, u.maxQueued);
      } else {
        q := new Queue(u.maxActive, u.maxQueued);
      }
    }

    /** The names in `out` have their own queues, names of `queues` the queues they have there. */
    static ghost predicate Placed(queues: map<string, Queue>, out: map<string, Queue>) {
      && (forall a, b :: a in out && b in out && a != b ==> out[a] != out[b])
      && (forall n :: n in out ==> if n in queues then out[n] == queues[n] else out[n] !in queues.Values)
    }

    static lemma PlacedNext(queues: map<string, Queue>, out: map<string, Queue>, n: string, q: Queue)
      requires Placed(queues, queues) && Placed(queues, out) && n !in out
      requires if n in queues then q == queues[n] else q !in queues.Values && q !in out.Values
      ensures Placed(queues, out[n := q])
    {
      forall m | m in out ensures out[m] != q {
        if m in queues && n in queues { assert out[m] == queues[m] && queues[m] != queues[n]; }
      }
    }

    /** Every visited name is in place and the queues of the others are untouched. */
    ghost predicate Sharing(out: map<string, Queue>, before: map<string, AdmissionQueue.State>)
      reads this, queues.Values
    {
      && before.Keys == queues.Keys && Placed(queues, out)
      && (forall n :: n in queues && n !in out ==> queues[n].View() == before[n])
    }

    static ghost predicate Shows(out: map<string, Queue>, views: map<string, AdmissionQueue.State>)
      reads out.Values
    {
      out.Keys == views.Keys && forall n :: n in out ==> out[n].View() == views[n]
    }

    method UpdateNext(u: UpstreamConfig, out: map<string, Queue>, ghost before: map<string, AdmissionQueue.State>,
        ghost views: map<string, AdmissionQueue.State>, ghost want: AdmissionQueue.State)
      returns (out': map<string, Queue>)
      requires Valid() && Sharing(out, before) && u.name !in out && want == Requeue(before, u) && Shows(out, views)
      modifies if u.name in queues then {queues[u.name]} else {}
      ensures Sharing(out', before) && Shows(out', views[u.name := want])
      ensures u.name in out' && out' == out[u.name := out'[u.name]] && (u.name in queues || fresh(out'[u.name]))
    {
      var q := UpdateQueue(u, before, want);
      PlacedNext(queues, out, u.name, q);
      out' := out[u.name := q];
    }

    /** One upstream's turn in the list. */
    method UpdateAt(us: seq<UpstreamConfig>, k: nat, out: map<string, Queue>, ghost before: map<string, AdmissionQueue.State>)
      returns (out': map<string, Queue>)
      requires Valid() && Ascending(us) && k < |us| && Sharing(out, before) && Shows(out, Wanted(before, us[..k]))
      modifies if us[k].name in queues then {queues[us[k].name]} else {}
      ensures Sharing(out', before) && Shows(out', Wanted(before, us[..k + 1]))
      ensures us[k].name in out' && out' == out[us[k].name := out'[us[k].name]]
      ensures us[k].name in queues || fresh(out'[us[k].name])
    {
      WantedNext(before, us, k);
      out' := UpdateNext(us[k], out, before, Wanted(before, us[..k]), Requeue(before, us[k]));
    }

    static lemma ShowsViews(out: map<string, Queue>, views: map<string, AdmissionQueue.State>)
      requires Shows(out, views)
      ensures Views(out) == views
    {
    }

    /** Keep and resize the queues that stay, make the new ones. */
    method UpdateQueues(us: seq<UpstreamConfig>, ghost before: map<string, AdmissionQueue.State>) returns (out: map<string, Queue>)
      requires Valid() && Ascending(us) && before == Views(queues)
      modifies queues.Values
      ensures Views(out) == Wanted(before, us)
      ensures forall a, b :: a in out && b in out && a != b ==> out[a] != out[b]
      ensures forall n :: n in out ==> if n in queues then out[n] == queues[n] else fresh(out[n])
    {
      out := map[];
      for k := 0 to |us|
        invariant Sharing(out, before) && Shows(out, Wanted(before, us[..k]))
        invariant forall n :: n in out && n !in queues ==> fresh(out[n])
      {
        out := UpdateAt(us, k, out, before);
      }
      assert us[..|us|] == us;
      ShowsViews(out, Wanted(before, us));
    }

    /** Swap in the updated queue map. */
    method SwapQueues(us: seq<UpstreamConfig>)
      requires Valid() && Ascending(us)
      modifies `queues, queues.Values
      ensures Valid() && Views(queues) == Wanted(old(Views(queues)), us)
      ensures forall n :: n in queues ==> if n in old(queues) then queues[n] == old(queues[n]) else fresh(queues[n])
    {
      var updated := UpdateQueues(us, Views(queues));
      queues := updated;
    }

    method AssignTables(p: Proxy, plan: Plan)
      modifies `timings, `modules, `upstreams, `cert
      ensures timings == TimingsOf(p) && modules == plan.modules && upstreams == plan.upstreams && cert == plan.cert
    {
      timings := TimingsOf(p);
      modules, upstreams, cert := plan.modules, plan.upstreams, plan.cert;
    }

    /** The assignments of a load that can no longer fail. */
    method Install(p: Proxy, plan: Plan)
      requires Valid() && Ascending(plan.upstreams)
      modifies `timings, `modules, `upstreams, `queues, `cert, queues.Values
      ensures Valid()
      ensures View() == Srv(plan.modules, plan.upstreams, TimingsOf(p), plan.cert, Wanted(old(Views(queues)), plan.upstreams))
      ensures forall n :: n in queues ==> if n in old(queues) then queues[n] == old(queues[n]) else fresh(queues[n])
    {
      AssignTables(p, plan);
      SwapQueues(plan.upstreams);
    }

    /** The assignments made before the last checks; false when a check fails. */
    method AssignEarly(p: Proxy, openLog: bool, io: Io) returns (ok: bool)
      modifies `listenAddr, `tlsListenAddr, `httpListenAddr, `accessLog, `errorLog, `motd
      ensures ok <==> (openLog ==> io.accessLogOk && io.errorLogOk) && p.idleSecs >= 0
      ensures listenAddr == (if old(listenAddr) == "" then p.listen else old(listenAddr))
      ensures tlsListenAddr == (if old(tlsListenAddr) == "" then p.listenTls else old(tlsListenAddr))
      ensures httpListenAddr == (if old(httpListenAddr) == "" then p.listenHttp else old(httpListenAddr))
      ensures ok ==> motd == p.motd
      ensures ok && openLog ==> accessLog == p.accessLog && errorLog == p.errorLog
    {
      if listenAddr == "" { listenAddr := p.listen; }
      if tlsListenAddr == "" { tlsListenAddr := p.listenTls; }
      if httpListenAddr == "" { httpListenAddr := p.listenHttp; }
      if openLog {
        if !io.accessLogOk { return false; }
        accessLog := p.accessLog;
        if !io.errorLogOk { return false; }
        errorLog := p.errorLog;
      }
      motd := p.motd;
      return p.idleSecs >= 0;
    }

    /** A load succeeds exactly when the configuration is acceptable. A failed load leaves
        modules, upstreams, timings, certificate and every queue as they were; a successful
        one installs what the configuration determines, and every name that stays keeps its
        queue object. */
    method LoadConfig(c: Config, openLog: bool, io: Io) returns (ok: bool)
      requires Valid()
      modifies this, queues.Values
      ensures Valid() && started == old(started) && tlsOn == old(tlsOn)
      ensures ok <==> Acceptable(c, openLog, io, started, tlsOn)
      ensures ok ==> Loaded(c, openLog, io, old(View()), View()) && motd == c.proxy.motd
      ensures ok ==> listenAddr == if old(listenAddr) == "" then c.proxy.listen else old(listenAddr)
      ensures !ok ==> unchanged(`modules, `upstreams, `timings, `cert, `queues) && unchanged(queues.Values)
      ensures forall n :: n in queues ==> if n in old(queues) then queues[n] == old(queues[n]) else fresh(queues[n])
    {
      ghost var before := View();
      var plan := MakePlan(c, openLog, io, started, tlsOn);
      if plan.None? { return false; }
      ok := AssignEarly(c.proxy, openLog, io);
      if !ok { return; }
      assert Views(queues) == before.queues;
      Install(c.proxy, plan.value);
    }
  }

  // ---------------------------------------------------------------- any sequence of loads and queue operations

  datatype Event =
    | Load(c: Config, openLog: bool, io: Io, started: bool, tlsOn: bool)
    | Use(name: string, op: AdmissionQueue.Op)

  ghost predicate Next(s: Srv, e: Event, s': Srv) {
    match e
    case Load(c, openLog, io, started, tlsOn) =>
      if Acceptable(c, openLog, io, started, tlsOn) then Loaded(c, openLog, io, s, s') else s' == s
    case Use(name, op) =>
      if name in s.queues then s' == s.(queues := s.queues[name := AdmissionQueue.Step(s.queues[name], op)]) else s' == s
  }

  ghost predicate IsRun(states: seq<Srv>, events: seq<Event>) {
    |states| == |events| + 1 && forall k :: 0 <= k < |events| ==> Next(states[k], events[k], states[k + 1])
  }

  /** Queues are keyed by exactly the upstream names, every target has a queue, and every
      queue is in order. */
  ghost predicate SrvInv(s: Srv) {
    && (forall n :: n in s.queues <==> Named(s.upstreams, n))
    && (forall m, t :: m in s.modules && t in s.modules[m] ==> t.upstream in s.queues)
    && (forall n :: n in s.queues ==> AdmissionQueue.Inv(s.queues[n]))
  }

  lemma RequeueInv(before: map<string, AdmissionQueue.State>, u: UpstreamConfig)
    requires u.name in before ==> AdmissionQueue.Inv(before[u.name])
    ensures AdmissionQueue.Inv(Requeue(before, u))
    ensures u.name in before ==>
      && AdmissionQueue.Line(Requeue(before, u)) == AdmissionQueue.Line(before[u.name])
      && before[u.name].active <= Requeue(before, u).active
  {
    if u.name in before {
      var q, op := before[u.name], AdmissionQueue.SetMax(u.maxActive, u.maxQueued);
      var q1 := q.(max := u.maxActive, maxQueued := u.maxQueued);
      AdmissionQueue.StepKeepsInv(q, op);
      AdmissionQueue.PromoteIsWatermark(q1);
      var q2 := AdmissionQueue.Promote(q1);
      assert AdmissionQueue.Line(q2)[..|q.active|] == q.active;
      assert q2.active[..|q.active|] == q.active;
    }
  }

  lemma LoadedQueueInv(before: map<string, AdmissionQueue.State>, us: seq<UpstreamConfig>, n: string)
    requires Ascending(us) && (forall k :: k in before ==> AdmissionQueue.Inv(before[k])) && n in Wanted(before, us)
    ensures AdmissionQueue.Inv(Wanted(before, us)[n])
  {
    WantedNames(before, us, n);
    var i :| 0 <= i < |us| && us[i].name == n;
    WantedAt(before, us, i);
    RequeueInv(before, us[i]);
  }

  lemma ListedTarget(c: Config, d: map<string, seq<string>>, us: seq<UpstreamConfig>, i: nat)
    requires Lists(c, d, us) && i < |us|
    ensures us[i].target.upstream == us[i].name
  {
  }

  lemma LoadedTarget(c: Config, d: map<string, seq<string>>, us: seq<UpstreamConfig>, m: string, t: Target)
    requires Lists(c, d, us) && t in TargetsOf(us, m)
    ensures Named(us, t.upstream)
  {
    TargetsMembers(us, m, t);
    var u :| u in us && m in u.modules && u.target == t;
    var i :| 0 <= i < |us| && us[i] == u;
    ListedTarget(c, d, us, i);
  }

  lemma LoadKeepsInv(c: Config, openLog: bool, io: Io, s: Srv, s': Srv)
    requires SrvInv(s) && Loaded(c, openLog, io, s, s')
    ensures SrvInv(s')
  {
    var us := s'.upstreams;
    forall n ensures n in s'.queues <==> Named(us, n) {
      WantedNames(s.queues, us, n);
    }
    forall n | n in s'.queues ensures AdmissionQueue.Inv(s'.queues[n]) {
      LoadedQueueInv(s.queues, us, n);
    }
    forall m, t | m in s'.modules && t in s'.modules[m] ensures t.upstream in s'.queues {
      assert Lookup(s'.modules, m) == TargetsOf(us, m);
      LoadedTarget(c, Discovered(openLog, io), us, m, t);
    }
  }

  lemma NextKeepsInv(s: Srv, e: Event, s': Srv)
    requires SrvInv(s) && Next(s, e, s')
    ensures SrvInv(s')
  {
    match e
    case Load(c, openLog, io, started, tlsOn) =>
      if Acceptable(c, openLog, io, started, tlsOn) { LoadKeepsInv(c, openLog, io, s, s'); }
    case Use(name, op) =>
      if name in s.queues { AdmissionQueue.StepKeepsInv(s.queues[name], op); }
  }

  /** In every state of every run from an empty server, the invariant holds. */
  lemma {:induction false} ReloadSafety(states: seq<Srv>, events: seq<Event>, k: nat)
    requires IsRun(states, events) && k < |states|
    requires states[0].queues == map[] && states[0].modules == map[] && states[0].upstreams == []
    ensures SrvInv(states[k])
  {
    if k == 0 {
    } else {
      ReloadSafety(states, events, k - 1);
      NextKeepsInv(states[k - 1], events[k - 1], states[k]);
    }
  }

  /** An upstream that stays configured keeps its live handles, in order, and nobody who was
      admitted is put back. */
  lemma LoadKeepsHandles(c: Config, openLog: bool, io: Io, s: Srv, s': Srv, n: string)
    requires SrvInv(s) && Loaded(c, openLog, io, s, s') && n in s.queues && n in s'.queues
    ensures AdmissionQueue.Line(s'.queues[n]) == AdmissionQueue.Line(s.queues[n])
    ensures s.queues[n].active <= s'.queues[n].active
  {
    var us := s'.upstreams;
    WantedNames(s.queues, us, n);
    var i :| 0 <= i < |us| && us[i].name == n;
    WantedAt(s.queues, us, i);
    RequeueInv(s.queues, us[i]);
  }

  /** What an event means for the queue of one upstream. */
  ghost function OpsOf(s': Srv, e: Event, n: string): seq<AdmissionQueue.Op>
    requires n in s'.queues
  {
    match e
    case Use(name, op) => if name == n then [op] else []
    case Load(c, openLog, io, started, tlsOn) =>
      if Acceptable(c, openLog, io, started, tlsOn) then [AdmissionQueue.SetMax(s'.queues[n].max, s'.queues[n].maxQueued)]
      else []
  }

  ghost function History(states: seq<Srv>, events: seq<Event>, n: string): seq<AdmissionQueue.Op>
    requires |states| == |events| + 1 && forall k :: 0 <= k < |states| ==> n in states[k].queues
  {
    if events == [] then []
    else OpsOf(states[1], events[0], n) + History(states[1..], events[1..], n)
  }

  lemma OneOp(q: AdmissionQueue.State, op: AdmissionQueue.Op, rest: seq<AdmissionQueue.Op>)
    ensures AdmissionQueue.Run(q, [op] + rest) == AdmissionQueue.Run(AdmissionQueue.Step(q, op), rest)
  {
    assert ([op] + rest)[1..] == rest;
  }

  lemma ResizeIsStep(s: Srv, s': Srv, c: Config, openLog: bool, io: Io, n: string)
    requires SrvInv(s) && Loaded(c, openLog, io, s, s') && n in s.queues && n in s'.queues
    ensures s'.queues[n] == AdmissionQueue.Step(s.queues[n], AdmissionQueue.SetMax(s'.queues[n].max, s'.queues[n].maxQueued))
  {
    var us := s'.upstreams;
    WantedNames(s.queues, us, n);
    var i :| 0 <= i < |us| && us[i].name == n;
    WantedAt(s.queues, us, i);
    AdmissionQueue.PromoteIsWatermark(s.queues[n].(max := us[i].maxActive, maxQueued := us[i].maxQueued));
  }

  /** Across any number of reloads, the queue of an upstream that stays configured goes
      through one run of queue operations: its own, with a resize for every load. Everything
      proved of queue runs therefore holds across reloads. */
  lemma {:induction false} QueueSurvivesReloads(states: seq<Srv>, events: seq<Event>, n: string)
    requires IsRun(states, events) && SrvInv(states[0])
    requires forall k :: 0 <= k < |states| ==> n in states[k].queues
    ensures states[|events|].queues[n] == AdmissionQueue.Run(states[0].queues[n], History(states, events, n))
    decreases |events|
  {
    if events == [] {
    } else {
      var s, e, s' := states[0], events[0], states[1];
      assert Next(s, e, s');
      NextKeepsInv(s, e, s');
      assert IsRun(states[1..], events[1..]) by {
        forall k | 0 <= k < |events[1..]| ensures Next(states[1..][k], events[1..][k], states[1..][k + 1]) {
          assert Next(states[k + 1], events[k + 1], states[k + 2]);
        }
      }
      QueueSurvivesReloads(states[1..], events[1..], n);
      var rest := History(states[1..], events[1..], n);
      var ops := OpsOf(s', e, n);
      if ops == [] {
        assert ops + rest == rest;
        assert s'.queues[n] == s.queues[n];
      } else {
        OneOp(s.queues[n], ops[0], rest);
        assert ops == [ops[0]];
        if e.Load? { ResizeIsStep(s, s', e.c, e.openLog, e.io, n); }
      }
    }
  }

  // ---------------------------------------------------------------- a configuration determines what is served

  lemma NamedBy(us: seq<UpstreamConfig>, n: string) returns (k: nat)
    requires Named(us, n)
    ensures k < |us| && us[k].name == n
  {
    k :| k < |us| && us[k].name == n;
  }

  lemma EntryIsDetermined(c: Config, d: map<string, seq<string>>, us: seq<UpstreamConfig>, vs: seq<UpstreamConfig>, i: nat)
    requires Lists(c, d, us) && Lists(c, d, vs) && i < |us|
    ensures us[i] in vs
  {
    var k := NamedBy(vs, us[i].name);
    assert vs[k] == us[i];
  }

  lemma Inhabited(us: seq<UpstreamConfig>, vs: seq<UpstreamConfig>)
    requires forall u :: u in us ==> u in vs
    ensures us != [] ==> vs != []
  {
    if us != [] { assert us[0] in vs; }
  }

  lemma TailShared(us: seq<UpstreamConfig>, vs: seq<UpstreamConfig>, u: UpstreamConfig)
    requires Ascending(us) && us != [] && vs != [] && us[0] == vs[0]
    requires u in us[1..] && u in vs
    ensures u in vs[1..]
  {
    var k: nat :| k < |us| - 1 && us[1..][k] == u;
    assert us[k + 1] == u && StringLess(us[0].name, u.name);
    StringLessIrreflexive(u.name);
    assert vs == [vs[0]] + vs[1..];
  }

  /** Two lists in strict name order with the same entries agree entry by entry. */
  lemma {:induction false} SameOrder(us: seq<UpstreamConfig>, vs: seq<UpstreamConfig>)
    requires Ascending(us) && Ascending(vs)
    requires forall u :: u in us <==> u in vs
    ensures us == vs
  {
    Inhabited(us, vs);
    Inhabited(vs, us);
    if us == [] {
    } else {
      assert us[0] in vs;
      assert vs[0] in us;
      var i: nat :| i < |vs| && vs[i] == us[0];
      var j: nat :| j < |us| && us[j] == vs[0];
      StringLessIrreflexive(us[0].name);
      if i > 0 && j > 0 { StringLessTransitive(us[0].name, vs[0].name, us[0].name); }
      assert us[0] == vs[0];
      forall u ensures u in us[1..] <==> u in vs[1..] {
        if u in us[1..] { TailShared(us, vs, u); }
        if u in vs[1..] { TailShared(vs, us, u); }
      }
      SameOrder(us[1..], vs[1..]);
      assert us == [us[0]] + us[1..] && vs == [vs[0]] + vs[1..];
    }
  }

  lemma ListIsUnique(c: Config, d: map<string, seq<string>>, us: seq<UpstreamConfig>, vs: seq<UpstreamConfig>)
    requires Lists(c, d, us) && Lists(c, d, vs)
    ensures us == vs
  {
    forall u ensures u in us <==> u in vs {
      if u in us {
        var i: nat :| i < |us| && us[i] == u;
        EntryIsDetermined(c, d, us, vs, i);
      }
      if u in vs {
        var i: nat :| i < |vs| && vs[i] == u;
        EntryIsDetermined(c, d, vs, us, i);
      }
    }
    SameOrder(us, vs);
  }

  // ---------------------------------------------------------------- loading the same configuration again

  /** The queue of `u` has the limits configured for it. */
  ghost predicate Sized(queues: map<string, AdmissionQueue.State>, u: UpstreamConfig) {
    u.name in queues && queues[u.name].max == u.maxActive && queues[u.name].maxQueued == u.maxQueued
  }

  /** The server serves `c`. */
  ghost predicate Serving(c: Config, openLog: bool, io: Io, s: Srv) {
    && SrvInv(s)
    && Lists(c, Discovered(openLog, io), s.upstreams) && Indexes(s.modules, s.upstreams)
    && s.timings == TimingsOf(c.proxy) && s.cert == (if c.proxy.listenTls == "" then None else io.cert)
    && forall i :: 0 <= i < |s.upstreams| ==> Sized(s.queues, s.upstreams[i])
  }

  lemma RequeueSizes(before: map<string, AdmissionQueue.State>, u: UpstreamConfig)
    ensures Requeue(before, u).max == u.maxActive && Requeue(before, u).maxQueued == u.maxQueued
  {
    if u.name in before {
      AdmissionQueue.PromoteIsWatermark(before[u.name].(max := u.maxActive, maxQueued := u.maxQueued));
    }
  }

  lemma NamedOnce(us: seq<UpstreamConfig>, j: nat, k: nat)
    requires Ascending(us) && j < |us| && k < |us| && us[j].name == us[k].name
    ensures j == k
  {
    StringLessIrreflexive(us[j].name);
  }

  /** What a listed upstream is, written out: its name, address, flag and limits as configured,
      the per-IP cap its own or else the proxy's, and the modules configured or discovered. */
  ghost predicate AsConfigured(c: Config, openLog: bool, io: Io, n: string, u: UpstreamConfig)
    requires n in c.upstreams
  {
    var v := c.upstreams[n];
    && u.name == n && u.target.upstream == n && u.target.addr == v.address
    && u.target.useProxyProtocol == v.useProxyProtocol
    && u.maxActive == v.maxActive && u.maxQueued == v.maxQueued
    && (v.perIp != 0 ==> u.perIp == v.perIp) && (v.perIp == 0 ==> u.perIp == c.proxy.perIp)
    && (!v.discover ==> u.modules == v.modules)
    && (v.discover && !openLog ==> u.modules == [])
    && (v.discover && openLog && io.discovered.Some? ==>
          u.modules == if n in io.discovered.value then io.discovered.value[n] else [])
  }

  lemma ListedAsConfigured(c: Config, openLog: bool, io: Io, n: string)
    requires n in c.upstreams
    ensures AsConfigured(c, openLog, io, n, Resolved(Configured(c, n), Discovered(openLog, io)))
  {
  }

  /** After a load every configured upstream is listed as configured, and its queue has the
      limits configured for it. */
  lemma LoadedUpstream(c: Config, openLog: bool, io: Io, s: Srv, s': Srv, n: string)
    requires Loaded(c, openLog, io, s, s') && n in c.upstreams
    ensures exists k :: 0 <= k < |s'.upstreams| && AsConfigured(c, openLog, io, n, s'.upstreams[k])
    ensures n in s'.queues && s'.queues[n].max == c.upstreams[n].maxActive && s'.queues[n].maxQueued == c.upstreams[n].maxQueued
  {
    var us := s'.upstreams;
    var k := NamedBy(us, n);
    WantedAt(s.queues, us, k);
    RequeueSizes(s.queues, us[k]);
    ListedAsConfigured(c, openLog, io, n);
  }

  /** A number of seconds whose nanoseconds fit. */
  predicate Fits(secs: int) { 0 <= secs * SECOND < TWO_63 }

  predicate AllFit(p: Proxy) {
    && Fits(p.idleSecs) && Fits(p.maxDurationSecs) && Fits(p.keepAliveSecs)
    && Fits(p.dialSecs) && Fits(p.windowSecs) && Fits(p.graceSecs)
  }

  lemma FitsExactly(secs: int)
    requires Fits(secs)
    ensures Seconds(secs) == secs * SECOND
  {
    SecondsExact(secs);
  }

  /** After a load the timings are the configured seconds, with a minute for a missing window
      and the window for a missing grace. */
  lemma LoadedTimings(c: Config, openLog: bool, io: Io, s: Srv, s': Srv)
    requires Loaded(c, openLog, io, s, s') && AllFit(c.proxy)
    ensures var p, t := c.proxy, s'.timings;
      && t.idle == p.idleSecs * 1_000_000_000 && t.maxDuration == p.maxDurationSecs * 1_000_000_000
      && t.keepAlive == p.keepAliveSecs * 1_000_000_000 && t.dialTimeout == p.dialSecs * 1_000_000_000 && t.minBytes == p.minBytes
      && t.window == (if p.windowSecs != 0 then p.windowSecs * 1_000_000_000 else 60 * 1_000_000_000)
      && t.grace == (if p.graceSecs != 0 then p.graceSecs * 1_000_000_000 else t.window)
  {
    var p := c.proxy;
    FitsExactly(p.idleSecs);
    FitsExactly(p.maxDurationSecs);
    FitsExactly(p.keepAliveSecs);
    FitsExactly(p.dialSecs);
    FitsExactly(p.windowSecs);
    FitsExactly(p.graceSecs);
    FitsExactly(60);
  }

  /** After a load the server serves what was loaded, and goes on doing so while connections
      come and go. */
  lemma LoadServes(c: Config, openLog: bool, io: Io, s: Srv, s': Srv)
    requires SrvInv(s) && Loaded(c, openLog, io, s, s')
    ensures Serving(c, openLog, io, s')
  {
    LoadKeepsInv(c, openLog, io, s, s');
    forall i | 0 <= i < |s'.upstreams| ensures Sized(s'.queues, s'.upstreams[i]) {
      WantedAt(s.queues, s'.upstreams, i);
      RequeueSizes(s.queues, s'.upstreams[i]);
    }
  }

  lemma StepKeepsSize(queues: map<string, AdmissionQueue.State>, name: string, op: AdmissionQueue.Op, u: UpstreamConfig)
    requires Sized(queues, u) && name in queues && !op.SetMax?
    ensures Sized(queues[name := AdmissionQueue.Step(queues[name], op)], u)
  {
    AdmissionQueue.StepKeepsLimits(queues[name], op);
  }

  lemma UseServes(c: Config, openLog: bool, io: Io, s: Srv, name: string, op: AdmissionQueue.Op, s': Srv)
    requires Serving(c, openLog, io, s) && Next(s, Use(name, op), s') && !op.SetMax?
    ensures Serving(c, openLog, io, s')
  {
    NextKeepsInv(s, Use(name, op), s');
    if name in s.queues {
      forall i | 0 <= i < |s.upstreams| ensures Sized(s'.queues, s.upstreams[i]) {
        StepKeepsSize(s.queues, name, op, s.upstreams[i]);
      }
    }
  }

  lemma RequeueAgain(before: map<string, AdmissionQueue.State>, u: UpstreamConfig)
    requires Sized(before, u) && AdmissionQueue.Inv(before[u.name])
    ensures Requeue(before, u) == before[u.name]
  {
    var q := before[u.name];
    assert q.(max := u.maxActive, maxQueued := u.maxQueued) == q;
  }

  lemma WantedAgain(before: map<string, AdmissionQueue.State>, us: seq<UpstreamConfig>)
    requires Ascending(us) && (forall n :: n in before ==> AdmissionQueue.Inv(before[n]))
    requires forall n :: n in before <==> Named(us, n)
    requires forall i :: 0 <= i < |us| ==> Sized(before, us[i])
    ensures Wanted(before, us) == before
  {
    var after := Wanted(before, us);
    forall n ensures n in after <==> n in before {
      WantedNames(before, us, n);
    }
    forall n | n in before ensures after[n] == before[n] {
      var i := NamedBy(us, n);
      WantedAt(before, us, i);
      RequeueAgain(before, us[i]);
    }
  }

  /** Loading the configuration a server already serves changes nothing: not the tables, and
      not a single place in any queue. */
  lemma ReloadIsIdempotent(c: Config, openLog: bool, io: Io, s: Srv, s': Srv)
    requires Serving(c, openLog, io, s) && Loaded(c, openLog, io, s, s')
    ensures s' == s
  {
    ListIsUnique(c, Discovered(openLog, io), s.upstreams, s'.upstreams);
    IndexIsUnique(s.modules, s'.modules, s.upstreams);
    WantedAgain(s.queues, s.upstreams);
  }

  /** Connections come and go; nothing is loaded or resized. */
  ghost predicate OnlyUses(events: seq<Event>) {
    forall k :: 0 <= k < |events| ==> events[k].Use? && !events[k].op.SetMax?
  }

  lemma {:induction false} UsesServe(c: Config, openLog: bool, io: Io, states: seq<Srv>, events: seq<Event>)
    requires IsRun(states, events) && OnlyUses(events) && Serving(c, openLog, io, states[0])
    ensures Serving(c, openLog, io, states[|events|])
  {
    if events == [] {
    } else {
      var n := |events| - 1;
      assert IsRun(states[..n + 1], events[..n]);
      UsesServe(c, openLog, io, states[..n + 1], events[..n]);
      assert Next(states[n], events[n], states[n + 1]);
      UseServes(c, openLog, io, states[n], events[n].name, events[n].op, states[n + 1]);
    }
  }

  /** A load, any number of queue operations, and the same load again: the second load changes
      nothing. */
  lemma SameLoadAgain(load: Event, uses: seq<Event>, states: seq<Srv>, s': Srv)
    requires load.Load? && Acceptable(load.c, load.openLog, load.io, load.started, load.tlsOn) && OnlyUses(uses)
    requires IsRun(states, [load] + uses) && SrvInv(states[0]) && Next(states[|uses| + 1], load, s')
    ensures s' == states[|uses| + 1]
  {
    assert Next(states[0], ([load] + uses)[0], states[1]);
    LoadServes(load.c, load.openLog, load.io, states[0], states[1]);
    assert IsRun(states[1..], uses) by {
      forall k | 0 <= k < |uses| ensures Next(states[1..][k], uses[k], states[1..][k + 1]) {
        assert Next(states[k + 1], ([load] + uses)[k + 1], states[k + 2]);
      }
    }
    UsesServe(load.c, load.openLog, load.io, states[1..], uses);
    ReloadIsIdempotent(load.c, load.openLog, load.io, states[|uses| + 1], s');
  }
}

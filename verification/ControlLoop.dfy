/**
 A whole reconcile: rebuild, apply to the data plane, write the statuses back; and what a
 second one over the unchanged cluster does.
 */
module ControlLoop {
  import opened Ordering
  import opened GatewayApi
  import opened Claims
  import opened Backends
  import opened Conflicts
  import opened ServerConfig
  import opened Translate
  import opened Rebuild
  import opened Statuses
  import opened StatusPass
  import opened EndToEnd
  import SR = ServerReload
  import DP = DataPlane

  // ---------------------------------------------------------------- one reconcile

  /** What the status pass is told of a round that reached `applied` of `n` servers. */
  function ApplyError(applied: nat, n: nat, failure: string): Option<string> {
    if applied == n then None else Some(failure)
  }

  /** An error is reported exactly when a server was not reached. */
  lemma ApplyErrorIff(applied: nat, n: nat, failure: string)
    ensures ApplyError(applied, n, failure).None? <==> applied == n
  {
  }

  /** The status pass of a reconcile; no server notices. */
  method Report(p: Pass, snap: Snapshot, ghost servers: seq<SR.Server>, now: int) returns (snap': Snapshot, writes: nat)
    ensures Written(p, snap, snap', now) && (writes == 0 <==> Quiet(p, snap, now))
    ensures unchanged(servers, DP.Queues(servers))
  {
    snap', writes := WriteStatuses(p, snap, now);
  }

  /** A reconcile applies the table server by server and then writes every status, whether all
      servers took the table or not. */
  method ReconcileOnce(env: Env, snap: Snapshot, servers: seq<SR.Server>, ios: seq<SR.Io>,
      ports: seq<int>, failure: string, now: int)
    returns (c: Config, applied: nat, snap': Snapshot, writes: nat)
    requires |ios| == |servers| && DP.Isolated(servers)
    modifies servers, DP.Queues(servers)
    ensures DP.Isolated(servers) && Built(env, snap, c)
    ensures Round(c, ios, DP.FlagsOf(servers), old(DP.ViewsOf(servers)), DP.ViewsOf(servers), applied)
    ensures var p := PassOf(env, snap, ports, ApplyError(applied, |servers|, failure));
      Written(p, snap, snap', now) && (writes == 0 <==> Quiet(p, snap, now))
  {
    var claims, results;
    claims, results, c, applied := Reconcile(env, snap, servers, ios);
    ghost var after, flags := DP.ViewsOf(servers), DP.FlagsOf(servers);
    snap', writes := Report(Pass(claims, results, ports, ApplyError(applied, |servers|, failure)), snap, servers, now);
    assert DP.ViewsOf(servers) == after && DP.FlagsOf(servers) == flags;
  }

  // ---------------------------------------------------------------- what a failed apply is reported as

  /** A round reaches every server exactly when every server can take the table. */
  lemma FullRoundIff(c: Config, ios: seq<SR.Io>, flags: seq<(bool, bool)>, before: seq<SR.Srv>, after: seq<SR.Srv>, applied: nat)
    requires Round(c, ios, flags, before, after, applied)
    ensures applied == |ios| <==> forall j :: 0 <= j < |ios| ==> Takes(c, ios, flags, j)
  {
  }

  /** A managed Gateway is reported programmed after every reconcile. That is false news exactly
      when some server could not take the table, and then the configurations in use are reported
      not accepted. */
  lemma FalseNewsIff(env: Env, snap: Snapshot, snap': Snapshot, ports: seq<int>, failure: string, now: int, g: Key, name: string,
      c: Config, ios: seq<SR.Io>, flags: seq<(bool, bool)>, before: seq<SR.Srv>, after: seq<SR.Srv>, applied: nat)
    requires Round(c, ios, flags, before, after, applied)
    requires Written(PassOf(env, snap, ports, ApplyError(applied, |ios|, failure)), snap, snap', now)
    requires g in ManagedGateways(env, snap) && name in snap.configs && Referenced(ClaimsOf(env, snap), name)
    ensures Says(snap'.gateways[g].conditions, "Programmed", True)
    ensures Says(snap'.configs[name].conditions, "Accepted", True) <==> forall j :: 0 <= j < |ios| ==> Takes(c, ios, flags, j)
  {
    var p := PassOf(env, snap, ports, ApplyError(applied, |ios|, failure));
    ProgrammedRegardless(p, g, snap.gateways[g], now);
    ConfigSaysIff(p, name, snap.configs[name], now);
    FullRoundIff(c, ios, flags, before, after, applied);
    ApplyErrorIff(applied, |ios|, failure);
  }

  /** Such a round: an address that does not resolve. */
  lemma UnresolvedIsNotTaken()
    ensures var c := Config(NO_SETTINGS, map["u" := Upstream("db.svc:873", ["m"], false, false, 0, 0, 0)]);
      !Takes(c, [SR.Io(None, _ => false, None, true, true)], [(true, false)], 0)
  {
    var c := Config(NO_SETTINGS, map["u" := Upstream("db.svc:873", ["m"], false, false, 0, 0, 0)]);
    assert "u" in c.upstreams;
  }

  // ---------------------------------------------------------------- the second reconcile

  lemma {:induction false} UsableIgnoresStatus(snap: Snapshot, snap': Snapshot, r: Key, refs: seq<BackendRef>)
    requires snap'.services == snap.services && snap'.grants == snap.grants
    ensures UsableBackends(snap', r, refs) == UsableBackends(snap, r, refs)
  {
    if refs == [] {
    } else {
      UsableIgnoresStatus(snap, snap', r, refs[..|refs| - 1]);
      var ref := refs[|refs| - 1];
      assert Granted(snap', r.ns, TargetOf(r, ref).ns, ref.name) == Granted(snap, r.ns, TargetOf(r, ref).ns, ref.name);
    }
  }

  /** The snapshots differ in statuses only, and claims and bindings are the same. */
  ghost predicate SameButStatus(env: Env, snap: Snapshot, snap': Snapshot) {
    && ClaimsOf(env, snap') == ClaimsOf(env, snap) && Bindings(env, snap') == Bindings(env, snap)
    && snap'.services == snap.services && snap'.grants == snap.grants
    && SameGateways(snap, snap') && snap.routes.Keys == snap'.routes.Keys
    && forall r :: r in snap.routes ==> SameRoute(snap.routes[r], snap'.routes[r])
  }

  lemma WrittenIsSameButStatus(env: Env, snap: Snapshot, snap': Snapshot, ports: seq<int>, applyErr: Option<string>, now: int)
    requires Written(PassOf(env, snap, ports, applyErr), snap, snap', now)
    ensures SameButStatus(env, snap, snap')
  {
    PassIgnoresStatus(env, snap, snap', ports, applyErr, now);
    WrittenRoutes(PassOf(env, snap, ports, applyErr), snap, snap', now);
  }

  lemma ManagedIgnoresStatus(env: Env, snap: Snapshot, snap': Snapshot)
    requires SameButStatus(env, snap, snap')
    ensures ManagedGateways(env, snap') == ManagedGateways(env, snap)
  {
    forall g | g in snap.gateways
      ensures Managed(ClaimsOf(env, snap'), snap'.gateways[g]) <==> Managed(ClaimsOf(env, snap), snap.gateways[g])
    {
      assert SameGateway(snap.gateways[g], snap'.gateways[g]);
    }
  }

  lemma ConfigIgnoresStatus(env: Env, snap: Snapshot, snap': Snapshot, gs: set<Key>)
    requires SameButStatus(env, snap, snap') && gs <= ManagedGateways(env, snap) == ManagedGateways(env, snap')
    ensures ConfigAmong(env, snap', gs) == ConfigAmong(env, snap, gs)
  {
    if gs != {} {
      var g := LeastOf(gs);
      assert SameGateway(snap.gateways[g], snap'.gateways[g]);
    }
  }

  lemma InputIgnoresStatus(env: Env, snap: Snapshot, snap': Snapshot, r: Key)
    requires SameButStatus(env, snap, snap') && r in snap.routes && r in snap'.routes
    ensures InputFor(env, snap', r) == InputFor(env, snap, r)
  {
    HomesAreManaged(env, snap, r);
    ManagedIgnoresStatus(env, snap, snap');
    ConfigIgnoresStatus(env, snap, snap', HomesOf(env, snap, r));
    UsableIgnoresStatus(snap, snap', r, snap.routes[r].backendRefs);
    assert SameRoute(snap.routes[r], snap'.routes[r]);
  }

  lemma ServedIgnoresStatus(env: Env, snap: Snapshot, snap': Snapshot, r: Key)
    requires SameButStatus(env, snap, snap')
    ensures r in ServedInputs(env, snap') <==> r in ServedInputs(env, snap)
    ensures r in ServedInputs(env, snap) ==> ServedInputs(env, snap')[r] == ServedInputs(env, snap)[r]
  {
    if r in snap.routes { InputIgnoresStatus(env, snap, snap', r); }
  }

  lemma SameInputs(a: map<Key, RouteInput>, b: map<Key, RouteInput>)
    requires (forall r :: r in a <==> r in b) && forall r :: r in a && r in b ==> a[r] == b[r]
    ensures a == b
  {
  }

  lemma InputsIgnoreStatus(env: Env, snap: Snapshot, snap': Snapshot, ins: map<Key, RouteInput>, ins': map<Key, RouteInput>)
    requires SameButStatus(env, snap, snap') && ins == ServedInputs(env, snap) && ins' == ServedInputs(env, snap')
    ensures ins' == ins
  {
    forall r ensures (r in ins' <==> r in ins) && (r in ins ==> ins'[r] == ins[r]) { ServedIgnoresStatus(env, snap, snap', r); }
    SameInputs(ins, ins');
  }

  lemma PrimaryIgnoresStatus(env: Env, snap: Snapshot, snap': Snapshot)
    requires SameButStatus(env, snap, snap')
    ensures PrimaryConfig(env, snap') == PrimaryConfig(env, snap)
  {
    ManagedIgnoresStatus(env, snap, snap');
    ConfigIgnoresStatus(env, snap, snap', ManagedGateways(env, snap));
  }

  /** What a server serves of a built table does not depend on the world's answers. */
  lemma ServingIgnoresIo(env: Env, snap: Snapshot, c: Config, io: SR.Io, io': SR.Io, s: SR.Srv)
    requires Built(env, snap, c) && SR.Serving(c, false, io, s)
    ensures SR.Serving(c, false, io', s)
  {
    PrimaryIsSound(env, snap);
  }

  /** After a full round every server serves the table. */
  lemma FullRoundServes(c: Config, ios: seq<SR.Io>, flags: seq<(bool, bool)>, before: seq<SR.Srv>, after: seq<SR.Srv>)
    requires Round(c, ios, flags, before, after, |ios|) && forall j :: 0 <= j < |before| ==> SR.SrvInv(before[j])
    ensures forall j :: 0 <= j < |ios| ==> SR.Serving(c, false, ios[j], after[j])
  {
    forall j | 0 <= j < |ios| ensures SR.Serving(c, false, ios[j], after[j]) {
      SR.LoadServes(c, false, ios[j], before[j], after[j]);
    }
  }

  /** Another round of the table that is served, whatever the world answers this time and
      however far it gets, changes no server. */
  lemma SecondRound(env: Env, snap: Snapshot, c: Config, ios: seq<SR.Io>, ios': seq<SR.Io>, flags: seq<(bool, bool)>,
      s: seq<SR.Srv>, s': seq<SR.Srv>, n: nat)
    requires Built(env, snap, c) && |ios| == |s| && forall j :: 0 <= j < |s| ==> SR.Serving(c, false, ios[j], s[j])
    requires Round(c, ios', flags, s, s', n)
    ensures s' == s
  {
    forall j | 0 <= j < n ensures SR.Serving(c, false, ios'[j], s[j]) {
      ServingIgnoresIo(env, snap, c, ios[j], ios'[j], s[j]);
    }
    DP.NothingChangedIff(c, ios', s, s', n);
  }

  /** A second reconcile of a cluster nobody else has touched. Every server serves the table,
      connections having come and gone since; the world may answer differently this time. The
      table is the same, every server stays exactly as it is, and nothing is written exactly
      when the statuses could settle and the apply ended as before, as far as that is reported. */
  lemma SecondReconcile(env: Env, snap: Snapshot, snap': Snapshot, ports: seq<int>, failure: string,
      applyErr: Option<string>, now: int, now': int, c: Config, c': Config, ios: seq<SR.Io>, ios': seq<SR.Io>,
      flags: seq<(bool, bool)>, s: seq<SR.Srv>, s': seq<SR.Srv>, n: nat)
    requires Built(env, snap, c) && Written(PassOf(env, snap, ports, applyErr), snap, snap', now)
    requires Built(env, snap', c') && RoutesAgree(ServedInputs(env, snap))
    requires |ios| == |s| && forall j :: 0 <= j < |s| ==> SR.Serving(c, false, ios[j], s[j])
    requires Round(c', ios', flags, s, s', n)
    ensures c' == c && s' == s
    ensures var p, err' := PassOf(env, snap, ports, applyErr), ApplyError(n, |ios'|, failure);
      Quiet(PassOf(env, snap', ports, err'), snap', now') <==>
        CanSettle(p, snap) && (err' == applyErr || !OutcomeIsReported(p, snap))
  {
    WrittenIsSameButStatus(env, snap, snap', ports, applyErr, now);
    InputsIgnoreStatus(env, snap, snap', ServedInputs(env, snap), ServedInputs(env, snap'));
    PrimaryIgnoresStatus(env, snap, snap');
    BuiltIsUnique(env, snap, c, c');
    SecondRound(env, snap, c, ios, ios', flags, s, s', n);
    SecondRebuildIsQuiet(env, snap, snap', ports, applyErr, ApplyError(n, |ios'|, failure), now, now');
  }
}

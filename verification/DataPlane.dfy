/**
 The embedded data plane: one server per bind address. A table is applied to the servers in
 turn, and the first refusal ends the round.
 */
module DataPlane {
  import opened ServerConfig
  import opened AdmissionQueueImpl
  import opened ServerReload

  ghost predicate Apart(a: Server, b: Server)
    reads a, b
  {
    a != b && a.queues.Values !! b.queues.Values
  }

  /** Different servers, none sharing a queue with another. */
  ghost predicate Isolated(servers: seq<Server>)
    reads servers
  {
    && (forall j :: 0 <= j < |servers| ==> servers[j].Valid())
    && (forall j, k :: 0 <= j < k < |servers| ==> Apart(servers[j], servers[k]))
  }

  ghost function Queues(servers: seq<Server>): set<Queue>
    reads servers
  {
    set j, n | 0 <= j < |servers| && n in servers[j].queues :: servers[j].queues[n]
  }

  ghost function ViewsOf(servers: seq<Server>): (views: seq<Srv>)
    reads servers, Queues(servers)
    ensures |views| == |servers| && forall j :: 0 <= j < |servers| ==> views[j] == servers[j].View()
  {
    seq(|servers|, j requires 0 <= j < |servers| reads servers, Queues(servers) => servers[j].View())
  }

  /** How the servers were started: whether listening, and whether with TLS. */
  ghost function FlagsOf(servers: seq<Server>): (flags: seq<(bool, bool)>)
    reads servers
    ensures |flags| == |servers| && forall j :: 0 <= j < |servers| ==> flags[j] == (servers[j].started, servers[j].tlsOn)
  {
    seq(|servers|, j requires 0 <= j < |servers| reads servers => (servers[j].started, servers[j].tlsOn))
  }

  /** Server `j` takes the configuration. */
  ghost predicate Accepts(c: Config, ios: seq<Io>, flags: seq<(bool, bool)>, j: nat)
    requires j < |ios| == |flags|
  {
    Acceptable(c, false, ios[j], flags[j].0, flags[j].1)
  }

  /** The first `n` servers have loaded the configuration; the others are as they were. */
  ghost predicate AppliedTo(c: Config, ios: seq<Io>, before: seq<Srv>, after: seq<Srv>, n: nat) {
    && n <= |ios| == |before| == |after|
    && (forall j :: 0 <= j < n ==> Loaded(c, false, ios[j], before[j], after[j]))
    && (forall j :: n <= j < |before| ==> after[j] == before[j])
  }

  // ---------------------------------------------------------------- the program

  /** One server's turn; the others do not notice. */
  method LoadAt(servers: seq<Server>, k: nat, c: Config, io: Io) returns (ok: bool)
    requires k < |servers| && Isolated(servers)
    modifies servers[k], servers[k].queues.Values
    ensures servers[k].Valid() && servers[k].started == old(servers[k].started) && servers[k].tlsOn == old(servers[k].tlsOn)
    ensures ok <==> Acceptable(c, false, io, servers[k].started, servers[k].tlsOn)
    ensures if ok then Loaded(c, false, io, old(servers[k].View()), servers[k].View()) else servers[k].View() == old(servers[k].View())
    ensures forall q :: q in servers[k].queues.Values ==> q in old(servers[k].queues.Values) || fresh(q)
    ensures forall j :: 0 <= j < |servers| && j != k ==> unchanged(servers[j]) && servers[j].View() == old(servers[j].View())
  {
    ok := servers[k].LoadConfig(c, false, io);
    forall j | 0 <= j < |servers| && j != k ensures servers[j].View() == old(servers[j].View()) {
      assert Apart(servers[if j < k then j else k], servers[if j < k then k else j]);
    }
  }

  /** The same, of all servers at once. */
  method ApplyOne(servers: seq<Server>, k: nat, c: Config, io: Io) returns (ok: bool)
    requires k < |servers| && Isolated(servers)
    modifies servers[k], servers[k].queues.Values
    ensures Isolated(servers) && FlagsOf(servers) == old(FlagsOf(servers))
    ensures ok <==> Acceptable(c, false, io, servers[k].started, servers[k].tlsOn)
    ensures ViewsOf(servers) == old(ViewsOf(servers))[k := servers[k].View()]
    ensures if ok then Loaded(c, false, io, old(servers[k].View()), servers[k].View()) else servers[k].View() == old(servers[k].View())
  {
    ok := LoadAt(servers, k, c, io);
    forall i, j | 0 <= i < j < |servers| ensures Apart(servers[i], servers[j]) {
      assert old(Apart(servers[i], servers[j]));
    }
    forall j | 0 <= j < |servers| && j != k ensures servers[j] != servers[k] {
      assert old(Apart(servers[if j < k then j else k], servers[if j < k then k else j]));
    }
  }

  /** Apply to each server in turn: the servers before the first refusal have loaded the
      configuration, that server and the rest are as they were. */
  method Apply(servers: seq<Server>, ios: seq<Io>, c: Config) returns (applied: nat)
    requires |ios| == |servers| && Isolated(servers)
    modifies servers, Queues(servers)
    ensures Isolated(servers) && FlagsOf(servers) == old(FlagsOf(servers))
    ensures AppliedTo(c, ios, old(ViewsOf(servers)), ViewsOf(servers), applied)
    ensures forall j :: 0 <= j < applied ==> Accepts(c, ios, FlagsOf(servers), j)
    ensures applied < |servers| ==> !Accepts(c, ios, FlagsOf(servers), applied)
  {
    applied := 0;
    while applied < |servers|
      invariant Isolated(servers) && FlagsOf(servers) == old(FlagsOf(servers))
      invariant AppliedTo(c, ios, old(ViewsOf(servers)), ViewsOf(servers), applied)
      invariant forall j :: 0 <= j < applied ==> Accepts(c, ios, FlagsOf(servers), j)
      invariant forall j :: applied <= j < |servers| ==> servers[j].queues == old(servers[j].queues)
    {
      var ok := ApplyOne(servers, applied, c, ios[applied]);
      if !ok { return; }
      applied := applied + 1;
    }
  }

  // ---------------------------------------------------------------- what a round changes

  lemma SameIffServing(c: Config, io: Io, s: Srv, s': Srv)
    requires SrvInv(s) && Loaded(c, false, io, s, s')
    ensures s' == s <==> Serving(c, false, io, s)
  {
    LoadServes(c, false, io, s, s');
    if Serving(c, false, io, s) { ReloadIsIdempotent(c, false, io, s, s'); }
  }

  /** A round leaves every server as it was exactly when the ones that accepted were serving
      the configuration already; a refusal later in the round does not undo them. */
  lemma NothingChangedIff(c: Config, ios: seq<Io>, before: seq<Srv>, after: seq<Srv>, n: nat)
    requires AppliedTo(c, ios, before, after, n) && forall j :: 0 <= j < n ==> SrvInv(before[j])
    ensures after == before <==> forall j :: 0 <= j < n ==> Serving(c, false, ios[j], before[j])
  {
    forall j | 0 <= j < n ensures after[j] == before[j] <==> Serving(c, false, ios[j], before[j]) {
      SameIffServing(c, ios[j], before[j], after[j]);
    }
    if forall j :: 0 <= j < n ==> Serving(c, false, ios[j], before[j]) {
      assert forall j :: 0 <= j < |before| ==> after[j] == before[j];
    }
  }
}

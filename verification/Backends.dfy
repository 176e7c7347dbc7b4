/** Resolving a route's backend references to usable Services. */
module Backends {
  import opened Ordering
  import opened GatewayApi

  datatype Backend = Backend(service: Key, port: Int32)

  datatype BackendStatus = BackendStatus(resolved: bool, reason: string, message: string)

  const RESOLVED := BackendStatus(true, "ResolvedRefs", "")

  function Or(o: Option<string>, d: string): string {
    if o.Some? then o.value else d
  }

  function Namespace(own: Label, ref: Option<Label>): Label {
    if ref.Some? && ref.value != "" then ref.value else own
  }

  /** A grant in the backend's namespace lets RsyncRoutes of `from` name the Service. */
  ghost predicate GrantCovers(g: Grant, from: string, service: string) {
    && (exists f :: f in g.from && f == GrantFrom(RSYNC_GROUP, ROUTE_KIND, from))
    && (exists t :: t in g.to && t.group == CORE_GROUP && t.kind == "Service"
                    && (t.name.None? || t.name.value == "" || t.name.value == service))
  }

  ghost predicate Granted(snap: Snapshot, from: string, ns: string, service: string) {
    ns in snap.grants && exists g :: g in snap.grants[ns] && GrantCovers(g, from, service)
  }

  /** The nested search finds a covering grant exactly when there is one. */
  method ReferenceGrantPermits(snap: Snapshot, from: string, ns: string, service: string) returns (ok: bool)
    ensures ok <==> Granted(snap, from, ns, service)
  {
    if ns !in snap.grants { return false; }
    var grants := snap.grants[ns];
    for i := 0 to |grants|
      invariant forall k :: 0 <= k < i ==> !GrantCovers(grants[k], from, service)
    {
      var g := grants[i];
      for j := 0 to |g.from|
        invariant forall k :: 0 <= k < j && g.from[k] == GrantFrom(RSYNC_GROUP, ROUTE_KIND, from) ==>
          !GrantCovers(g, from, service)
      {
        var f := g.from[j];
        if f.group != RSYNC_GROUP || f.kind != ROUTE_KIND || f.ns != from { continue; }
        for k := 0 to |g.to|
          invariant forall x :: 0 <= x < k ==>
            !(g.to[x].group == CORE_GROUP && g.to[x].kind == "Service"
              && (g.to[x].name.None? || g.to[x].name.value == "" || g.to[x].name.value == service))
        {
          var t := g.to[k];
          if t.group != CORE_GROUP || t.kind != "Service" { continue; }
          if t.name.None? || t.name.value == "" || t.name.value == service {
            assert g.from[j] in g.from && g.to[k] in g.to && grants[i] in grants;
            return true;
          }
        }
      }
    }
    return false;
  }

  // ---------------------------------------------------------------- one reference

  function ServiceKey(route: Key, ref: BackendRef): Key {
    Key(Namespace(route.ns, ref.ns), ref.name)
  }

  /** What is wrong with a reference, in the order the program checks; `granted` says
      whether a ReferenceGrant covers it. */
  function ProblemWith(snap: Snapshot, route: Key, ref: BackendRef, granted: bool): Option<BackendStatus> {
    var group, kind := Or(ref.group, CORE_GROUP), Or(ref.kind, "Service");
    var svc := ServiceKey(route, ref);
    if group != CORE_GROUP || kind != "Service" then
      Some(BackendStatus(false, "InvalidKind", "unsupported backend group/kind " + group + "/" + kind))
    else if ref.port.None? then
      Some(BackendStatus(false, "BackendNotFound", "backendRef " + Quote(ref.name) + " has no port"))
    else if svc !in snap.services then
      Some(BackendStatus(false, "BackendNotFound", "Service " + KeyString(svc) + " not found"))
    else if svc.ns != route.ns && !granted then
      Some(BackendStatus(false, "RefNotPermitted",
        "cross-namespace reference from " + KeyString(route) + " to Service " + KeyString(svc)))
    else None
  }

  ghost function Problem(snap: Snapshot, route: Key, ref: BackendRef): Option<BackendStatus> {
    ProblemWith(snap, route, ref, Granted(snap, route.ns, ServiceKey(route, ref).ns, ref.name))
  }

  // ---------------------------------------------------------------- what a reference must be, written out

  /** The Service a reference names: in its own namespace if it gives one, else the route's. */
  function TargetOf(route: Key, ref: BackendRef): Key {
    match ref.ns
    case None => Key(route.ns, ref.name)
    case Some(ns) => Key(if |ns| == 0 then route.ns else ns, ref.name)
  }

  predicate NamesService(ref: BackendRef) {
    && (ref.group == None || ref.group == Some(""))
    && (ref.kind == None || ref.kind == Some("Service"))
  }

  /** A core Service that exists, with a port, in the route's namespace or by a grant. */
  ghost predicate Resolves(snap: Snapshot, route: Key, ref: BackendRef) {
    && NamesService(ref) && ref.port.Some? && TargetOf(route, ref) in snap.services
    && (TargetOf(route, ref).ns == route.ns || Granted(snap, route.ns, TargetOf(route, ref).ns, ref.name))
  }

  /** A reference has no problem exactly when it resolves, and each reason has its condition. */
  lemma ProblemIff(snap: Snapshot, route: Key, ref: BackendRef)
    ensures ServiceKey(route, ref) == TargetOf(route, ref)
    ensures var p := Problem(snap, route, ref);
      && (p.None? <==> Resolves(snap, route, ref))
      && (p.Some? ==>
            && !p.value.resolved
            && p.value.reason ==
                 if !NamesService(ref) then "InvalidKind"
                 else if ref.port.None? || TargetOf(route, ref) !in snap.services then "BackendNotFound"
                 else "RefNotPermitted")
  {
  }

  /** Resolves and is given a non-zero weight. */
  ghost predicate Usable(snap: Snapshot, route: Key, ref: BackendRef) {
    Resolves(snap, route, ref) && ref.weight != Some(0)
  }

  /** The usable backends, in spec order. */
  ghost function UsableBackends(snap: Snapshot, route: Key, refs: seq<BackendRef>): seq<Backend> {
    if refs == [] then []
    else
      var front, ref := UsableBackends(snap, route, refs[..|refs| - 1]), refs[|refs| - 1];
      if Usable(snap, route, ref) then front + [Backend(TargetOf(route, ref), ref.port.value)] else front
  }

  /** The first problem, if any. */
  ghost function BackendsStatus(snap: Snapshot, route: Key, refs: seq<BackendRef>): BackendStatus {
    if refs == [] then RESOLVED
    else
      var front := BackendsStatus(snap, route, refs[..|refs| - 1]);
      var p := Problem(snap, route, refs[|refs| - 1]);
      if front.resolved && p.Some? then p.value else front
  }

  method ResolveBackends(snap: Snapshot, route: Key, refs: seq<BackendRef>)
    returns (usable: seq<Backend>, status: BackendStatus)
    ensures usable == UsableBackends(snap, route, refs)
    ensures status == BackendsStatus(snap, route, refs)
  {
    usable, status := [], RESOLVED;
    for i := 0 to |refs|
      invariant usable == UsableBackends(snap, route, refs[..i])
      invariant status == BackendsStatus(snap, route, refs[..i])
    {
      assert refs[..i + 1][..i] == refs[..i];
      var ref := refs[i];
      var excluded := ref.weight.Some? && ref.weight.value == 0;
      var svc := ServiceKey(route, ref);
      var granted := ReferenceGrantPermits(snap, route.ns, svc.ns, ref.name);
      var problem := ProblemWith(snap, route, ref, granted);
      ProblemIff(snap, route, ref);
      if problem.Some? {
        if status.resolved { status := problem.value; }
      } else if !excluded {
        usable := usable + [Backend(svc, ref.port.value)];
      }
    }
    assert refs[..|refs|] == refs;
  }

  /** Nothing is usable that was not referenced and sound, and nothing sound is dropped. */
  lemma {:induction false} UsableMembers(snap: Snapshot, route: Key, refs: seq<BackendRef>, b: Backend)
    ensures b in UsableBackends(snap, route, refs) <==>
      exists ref :: ref in refs && Usable(snap, route, ref)
                    && b == Backend(TargetOf(route, ref), ref.port.value)
  {
    if refs == [] {
    } else {
      var front, last := refs[..|refs| - 1], refs[|refs| - 1];
      assert refs == front + [last];
      UsableMembers(snap, route, front, b);
      assert forall ref :: ref in refs <==> ref in front || ref == last;
    }
  }

  /** References resolve exactly when each of them does. */
  lemma {:induction false} StatusIsExact(snap: Snapshot, route: Key, refs: seq<BackendRef>)
    ensures BackendsStatus(snap, route, refs).resolved <==> forall ref :: ref in refs ==> Resolves(snap, route, ref)
  {
    if refs == [] {
    } else {
      var front, last := refs[..|refs| - 1], refs[|refs| - 1];
      assert refs == front + [last];
      StatusIsExact(snap, route, front);
      ProblemIff(snap, route, last);
      assert forall ref :: ref in refs <==> ref in front || ref == last;
    }
  }

  /** Otherwise the first reference that does not is reported. */
  lemma {:induction false} StatusIsFirst(snap: Snapshot, route: Key, refs: seq<BackendRef>) returns (i: nat)
    requires !BackendsStatus(snap, route, refs).resolved
    ensures i < |refs| && Problem(snap, route, refs[i]) == Some(BackendsStatus(snap, route, refs))
    ensures forall j :: 0 <= j < i ==> Resolves(snap, route, refs[j])
  {
    var front, last := refs[..|refs| - 1], refs[|refs| - 1];
    StatusIsExact(snap, route, front);
    if BackendsStatus(snap, route, front).resolved {
      i := |refs| - 1;
      forall j | 0 <= j < i ensures Resolves(snap, route, refs[j]) { assert front[j] in front; }
    } else {
      i := StatusIsFirst(snap, route, front);
    }
  }
}

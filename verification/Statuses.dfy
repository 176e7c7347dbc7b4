/** The statuses of Gateways and RsyncRoutes, and when rewriting them comes to rest. */
module Statuses {
  import opened Ordering
  import opened GatewayApi
  import opened Backends
  import opened Binding
  import opened Conditions

  // ---------------------------------------------------------------- listeners

  const SUPPORTED := [RouteGroupKind(Some(RSYNC_GROUP), ROUTE_KIND)]

  /** Whether the first listener of that name is an rsync one. */
  function IsManaged(ls: seq<Listener>, name: string): bool {
    if ls == [] then false
    else if ls[0].name == name then ls[0].protocol == PROTOCOL
    else IsManaged(ls[1..], name)
  }

  function AllowedRoutesError(l: Listener): string {
    if l.allowed.None? || l.allowed.value.namespaces.None? || l.allowed.value.namespaces.value.from.None? then ""
    else
      match l.allowed.value.namespaces.value.from.value
      case All => ""
      case Same => ""
      case Selector =>
        if l.allowed.value.namespaces.value.selector.None? then
          "allowedRoutes.namespaces.from=Selector requires a selector"
        else ""
      case Unknown(text) => "allowedRoutes.namespaces.from=" + Quote(text) + " is not supported"
  }

  function ListenerAccepted(generation: int, l: Listener): Condition {
    if l.tls then
      Condition("Accepted", False, "TLSNotSupported",
        "rsync-gateway v0 does not terminate TLS on rsync listeners", generation, 0)
    else if AllowedRoutesError(l) != "" then
      Condition("Accepted", False, "UnsupportedValue", AllowedRoutesError(l), generation, 0)
    else Condition("Accepted", True, "Accepted", "listener is accepted", generation, 0)
  }

  function ListenerProgrammed(generation: int, l: Listener, ports: seq<int>): Condition {
    if l.port in ports then
      Condition("Programmed", True, "Programmed", "listener port is served by the data plane", generation, 0)
    else
      Condition("Programmed", False, "RestartRequired", "listener port is not in the static bind set", generation, 0)
  }

  /** The conditions of the first status entry of that name. */
  function ConditionsFor(ss: seq<ListenerStatus>, name: string): seq<Condition> {
    if ss == [] then [] else if ss[0].name == name then ss[0].conditions else ConditionsFor(ss[1..], name)
  }

  /** Times are carried over from the first entry of the listener's name, if there is one. */
  lemma {:induction false} ConditionsForIs(ss: seq<ListenerStatus>, name: string, i: nat)
    requires i <= |ss| && (forall j :: 0 <= j < i ==> ss[j].name != name) && (i < |ss| ==> ss[i].name == name)
    ensures ConditionsFor(ss, name) == if i < |ss| then ss[i].conditions else []
  {
    if i == 0 {
    } else {
      assert forall j :: 0 <= j < i - 1 ==> ss[1..][j] == ss[j + 1];
      ConditionsForIs(ss[1..], name, i - 1);
    }
  }

  function ListenerEntry(generation: int, ss: seq<ListenerStatus>, l: Listener, ports: seq<int>, now: int): ListenerStatus {
    var existing := ConditionsFor(ss, l.name);
    ListenerStatus(l.name, 0, SUPPORTED,
      [StableCondition(existing, ListenerAccepted(generation, l), now),
       StableCondition(existing, ListenerProgrammed(generation, l, ports), now)])
  }

  /** An entry for every rsync listener, in order. */
  function Entries(generation: int, ss: seq<ListenerStatus>, ls: seq<Listener>, ports: seq<int>, now: int): seq<ListenerStatus> {
    if ls == [] then []
    else
      var front, l := Entries(generation, ss, ls[..|ls| - 1], ports, now), ls[|ls| - 1];
      if l.protocol == PROTOCOL then front + [ListenerEntry(generation, ss, l, ports, now)] else front
  }

  /** The entries of listeners that are not ours. */
  function Unmanaged(ls: seq<Listener>, ss: seq<ListenerStatus>): seq<ListenerStatus> {
    if ss == [] then []
    else
      var front, s := Unmanaged(ls, ss[..|ss| - 1]), ss[|ss| - 1];
      if IsManaged(ls, s.name) then front else front + [s]
  }

  // ---------------------------------------------------------------- the Gateway status

  function GatewayConditions(key: Key, gw: Gateway): seq<Condition> {
    [Condition("Accepted", True, "Accepted",
       "GatewayClass " + Quote(gw.className) + " is claimed and accepted", gw.generation, 0),
     Condition("Programmed", True, "Programmed",
       "routes bound to " + KeyString(key) + " are programmed into the data plane", gw.generation, 0)]
  }

  /** Each wanted condition with its time carried over. */
  function Stabilized(cur: seq<Condition>, want: seq<Condition>, now: int): seq<Condition> {
    seq(|want|, i requires 0 <= i < |want| => StableCondition(cur, want[i], now))
  }

  function WantedConditions(key: Key, gw: Gateway, now: int): seq<Condition> {
    Merged(gw.conditions, Stabilized(gw.conditions, GatewayConditions(key, gw), now))
  }

  function WantedListeners(gw: Gateway, ports: seq<int>, now: int): seq<ListenerStatus> {
    Unmanaged(gw.listeners, gw.listenerStatus) + Entries(gw.generation, gw.listenerStatus, gw.listeners, ports, now)
  }

  method ListenerStatuses(gw: Gateway, ports: seq<int>, now: int) returns (out: seq<ListenerStatus>)
    ensures out == Entries(gw.generation, gw.listenerStatus, gw.listeners, ports, now)
  {
    out := [];
    for i := 0 to |gw.listeners|
      invariant out == Entries(gw.generation, gw.listenerStatus, gw.listeners[..i], ports, now)
    {
      assert gw.listeners[..i + 1][..i] == gw.listeners[..i];
      var l := gw.listeners[i];
      if l.protocol != PROTOCOL { continue; }
      var existing: seq<Condition> := [];
      var j := 0;
      while j < |gw.listenerStatus|
        invariant j <= |gw.listenerStatus|
        invariant existing == [] && ConditionsFor(gw.listenerStatus[j..], l.name) == ConditionsFor(gw.listenerStatus, l.name)
      {
        if gw.listenerStatus[j].name == l.name {
          existing := gw.listenerStatus[j].conditions;
          break;
        }
        j := j + 1;
      }
      assert existing == ConditionsFor(gw.listenerStatus, l.name);
      var conds := [ListenerAccepted(gw.generation, l), ListenerProgrammed(gw.generation, l, ports)];
      conds := [StableCondition(existing, conds[0], now), StableCondition(existing, conds[1], now)];
      out := out + [ListenerStatus(l.name, 0, SUPPORTED, conds)];
    }
    assert gw.listeners[..|gw.listeners|] == gw.listeners;
  }

  method BuildGatewayStatus(key: Key, gw: Gateway, ports: seq<int>, now: int)
    returns (conditions: seq<Condition>, listeners: seq<ListenerStatus>)
    ensures conditions == WantedConditions(key, gw, now)
    ensures listeners == WantedListeners(gw, ports, now)
  {
    listeners := [];
    for i := 0 to |gw.listenerStatus|
      invariant listeners == Unmanaged(gw.listeners, gw.listenerStatus[..i])
    {
      assert gw.listenerStatus[..i + 1][..i] == gw.listenerStatus[..i];
      if !IsManaged(gw.listeners, gw.listenerStatus[i].name) {
        listeners := listeners + [gw.listenerStatus[i]];
      }
    }
    assert gw.listenerStatus[..|gw.listenerStatus|] == gw.listenerStatus;
    var ours := ListenerStatuses(gw, ports, now);
    listeners := listeners + ours;
    var want := GatewayConditions(key, gw);
    for i := 0 to |want|
      invariant |want| == 2
      invariant forall j :: 0 <= j < i ==> want[j] == StableCondition(gw.conditions, GatewayConditions(key, gw)[j], now)
      invariant forall j :: i <= j < |want| ==> want[j] == GatewayConditions(key, gw)[j]
    {
      want := want[i := StableCondition(gw.conditions, want[i], now)];
    }
    assert want == Stabilized(gw.conditions, GatewayConditions(key, gw), now);
    conditions := MergeConditions(gw.conditions, want);
  }

  predicate KindsEqual(cur: seq<RouteGroupKind>, want: seq<RouteGroupKind>) {
    |cur| == |want| && forall i :: 0 <= i < |want| ==>
      Or(cur[i].group, "") == Or(want[i].group, "") && cur[i].kind == want[i].kind
  }

  predicate ListenerStatusEqual(a: ListenerStatus, b: ListenerStatus) {
    && a.name == b.name && a.attachedRoutes == b.attachedRoutes
    && KindsEqual(a.supportedKinds, b.supportedKinds) && ConditionsEqual(a.conditions, b.conditions)
  }

  predicate ListenerStatusesEqual(cur: seq<ListenerStatus>, want: seq<ListenerStatus>) {
    |cur| == |want| && forall i :: 0 <= i < |want| ==> ListenerStatusEqual(cur[i], want[i])
  }

  /** The status already says what is wanted, so nothing is written. */
  predicate GatewayQuiet(key: Key, gw: Gateway, ports: seq<int>, now: int) {
    && ConditionsEqual(gw.conditions, WantedConditions(key, gw, now))
    && ListenerStatusesEqual(gw.listenerStatus, WantedListeners(gw, ports, now))
  }

  /** The Gateway after one pass. */
  function GatewayAfter(key: Key, gw: Gateway, ports: seq<int>, now: int): Gateway {
    if GatewayQuiet(key, gw, ports, now) then gw
    else gw.(conditions := WantedConditions(key, gw, now), listenerStatus := WantedListeners(gw, ports, now))
  }

  // ---------------------------------------------------------------- Gateway conditions settle

  lemma WantedAreFirst(cur: seq<Condition>, key: Key, gw: Gateway, now: int)
    ensures var want := Stabilized(cur, GatewayConditions(key, gw), now);
      |want| == 2 && forall i :: 0 <= i < 2 ==> Find(want, want[i].kind) == Some(want[i])
  {
    var want := Stabilized(cur, GatewayConditions(key, gw), now);
    assert want[0].kind == "Accepted" && want[1].kind == "Programmed";
    assert |"Accepted"| != |"Programmed"|;
    assert want[1..][0] == want[1];
  }

  /** Conditions that were merged once are wanted exactly as they are. */
  lemma ConditionsSettle(key: Key, gw: Gateway, gw': Gateway, now: int, now': int)
    requires gw' == gw.(conditions := WantedConditions(key, gw, now), listenerStatus := gw'.listenerStatus)
    ensures WantedConditions(key, gw', now') == gw'.conditions
  {
    var want, want' := Stabilized(gw.conditions, GatewayConditions(key, gw), now),
                       Stabilized(gw'.conditions, GatewayConditions(key, gw'), now');
    WantedAreFirst(gw.conditions, key, gw, now);
    forall i | 0 <= i < 2 ensures Carries(gw'.conditions, want[i]) && want'[i] == want[i] {
      MergedCarries(gw.conditions, want, want[i]);
      StableKeeps(gw'.conditions, want[i], GatewayConditions(key, gw)[i], now');
    }
    assert want' == want;
    MergedStays(gw'.conditions, want);
  }

  // ---------------------------------------------------------------- Gateway listeners settle

  /** No rsync name among the first `n` is shadowed. */
  predicate NoShadowUpTo(ls: seq<Listener>, n: nat)
    requires n <= |ls|
  {
    forall i :: 0 <= i < n && ls[i].protocol == PROTOCOL ==> IsManaged(ls, ls[i].name)
  }

  /** Every rsync listener's name is first borne by an rsync listener. */
  predicate NoShadow(ls: seq<Listener>) {
    NoShadowUpTo(ls, |ls|)
  }

  predicate UniqueNames(ls: seq<Listener>) {
    forall i, j :: 0 <= i < j < |ls| ==> ls[i].name != ls[j].name
  }

  lemma {:induction false} FirstOfItsName(ls: seq<Listener>, i: nat)
    requires i < |ls| && forall j :: 0 <= j < i ==> ls[j].name != ls[i].name
    ensures IsManaged(ls, ls[i].name) == (ls[i].protocol == PROTOCOL)
  {
    if i == 0 {
    } else {
      assert ls[1..][i - 1] == ls[i];
      FirstOfItsName(ls[1..], i - 1);
    }
  }

  lemma {:induction false} NobodysName(ls: seq<Listener>, name: string)
    requires forall i :: 0 <= i < |ls| ==> ls[i].name != name
    ensures !IsManaged(ls, name)
  {
    if ls == [] {
    } else {
      NobodysName(ls[1..], name);
    }
  }

  /** A name is ours exactly when the first listener that bears it is an rsync one. */
  lemma {:induction false} IsManagedIff(ls: seq<Listener>, name: string)
    ensures IsManaged(ls, name) <==>
      exists i :: 0 <= i < |ls| && ls[i].name == name && ls[i].protocol == PROTOCOL && forall j :: 0 <= j < i ==> ls[j].name != name
  {
    if exists i :: 0 <= i < |ls| && ls[i].name == name {
      var i: nat := 0;
      while ls[i].name != name
        invariant i < |ls| && forall j :: 0 <= j < i ==> ls[j].name != name
        invariant exists k :: i <= k < |ls| && ls[k].name == name
        decreases |ls| - i
      {
        i := i + 1;
      }
      FirstOfItsName(ls, i);
    } else {
      NobodysName(ls, name);
    }
  }

  /** Unique listener names rule out shadowing. */
  lemma UniqueNamesSuffice(ls: seq<Listener>)
    requires UniqueNames(ls)
    ensures NoShadow(ls)
  {
    forall i | 0 <= i < |ls| && ls[i].protocol == PROTOCOL ensures IsManaged(ls, ls[i].name) {
      FirstOfItsName(ls, i);
    }
  }

  lemma {:induction false} UnmanagedAppend(ls: seq<Listener>, a: seq<ListenerStatus>, b: seq<ListenerStatus>)
    ensures Unmanaged(ls, a + b) == Unmanaged(ls, a) + Unmanaged(ls, b)
  {
    if b == [] {
      assert a + b == a;
    } else {
      UnmanagedAppend(ls, a, b[..|b| - 1]);
      assert (a + b)[..|a + b| - 1] == a + b[..|b| - 1];
    }
  }

  lemma {:induction false} UnmanagedTwice(ls: seq<Listener>, ss: seq<ListenerStatus>)
    ensures Unmanaged(ls, Unmanaged(ls, ss)) == Unmanaged(ls, ss)
  {
    if ss == [] {
    } else {
      var front, s := ss[..|ss| - 1], ss[|ss| - 1];
      UnmanagedTwice(ls, front);
      UnmanagedAppend(ls, Unmanaged(ls, front), [s]);
      assert Unmanaged(ls, [s]) == if IsManaged(ls, s.name) then [] else [s] by {
        assert [s][..0] == [];
      }
    }
  }

  /** How many entries are not ours depends on names only. */
  lemma {:induction false} UnmanagedCount(ls: seq<Listener>, a: seq<ListenerStatus>, b: seq<ListenerStatus>)
    requires |a| == |b| && forall i :: 0 <= i < |a| ==> a[i].name == b[i].name
    ensures |Unmanaged(ls, a)| == |Unmanaged(ls, b)|
  {
    if a == [] {
    } else {
      UnmanagedCount(ls, a[..|a| - 1], b[..|b| - 1]);
    }
  }

  lemma ManagedNext(ls: seq<Listener>, n: nat, front: seq<ListenerStatus>, s: ListenerStatus, all: seq<ListenerStatus>)
    requires n < |ls| && s.name == ls[n].name && all == if ls[n].protocol == PROTOCOL then front + [s] else front
    requires Unmanaged(ls, front) == [] <==> NoShadowUpTo(ls, n)
    ensures Unmanaged(ls, all) == [] <==> NoShadowUpTo(ls, n + 1)
  {
    assert (front + [s])[..|front|] == front;
  }

  /** Our entries are all recognised as ours exactly when no name among `ls[..n]` is shadowed. */
  lemma {:induction false} EntriesAreManaged(ls: seq<Listener>, n: nat, generation: int, ss: seq<ListenerStatus>, ports: seq<int>, now: int)
    requires n <= |ls|
    ensures Unmanaged(ls, Entries(generation, ss, ls[..n], ports, now)) == [] <==> NoShadowUpTo(ls, n)
  {
    if n == 0 {
    } else {
      EntriesAreManaged(ls, n - 1, generation, ss, ports, now);
      assert ls[..n][..n - 1] == ls[..n - 1];
      ManagedNext(ls, n - 1, Entries(generation, ss, ls[..n - 1], ports, now),
                  ListenerEntry(generation, ss, ls[n - 1], ports, now), Entries(generation, ss, ls[..n], ports, now));
    }
  }

  lemma EntryContent(generation: int, l: Listener, ports: seq<int>, a: seq<ListenerStatus>, now: int, b: seq<ListenerStatus>, now': int)
    ensures ListenerStatusEqual(ListenerEntry(generation, a, l, ports, now), ListenerEntry(generation, b, l, ports, now'))
  {
  }

  lemma EqualAppendOne(a: seq<ListenerStatus>, b: seq<ListenerStatus>, x: ListenerStatus, y: ListenerStatus)
    requires ListenerStatusesEqual(a, b) && ListenerStatusEqual(x, y)
    ensures ListenerStatusesEqual(a + [x], b + [y])
  {
  }

  /** What our entries say depends on neither the clock nor the previous status. */
  lemma {:induction false} EntriesContent(generation: int, ls: seq<Listener>, ports: seq<int>,
      a: seq<ListenerStatus>, now: int, b: seq<ListenerStatus>, now': int)
    ensures ListenerStatusesEqual(Entries(generation, a, ls, ports, now), Entries(generation, b, ls, ports, now'))
  {
    if ls == [] {
    } else {
      var front, l := ls[..|ls| - 1], ls[|ls| - 1];
      EntriesContent(generation, front, ports, a, now, b, now');
      EntryContent(generation, l, ports, a, now, b, now');
      EqualAppendOne(Entries(generation, a, front, ports, now), Entries(generation, b, front, ports, now'),
                     ListenerEntry(generation, a, l, ports, now), ListenerEntry(generation, b, l, ports, now'));
    }
  }

  lemma EqualAppend(a: seq<ListenerStatus>, b: seq<ListenerStatus>, c: seq<ListenerStatus>)
    requires ListenerStatusesEqual(b, c)
    ensures ListenerStatusesEqual(a + b, a + c)
  {
  }

  /** The listener part of a rewritten status is at rest exactly when no name is shadowed. */
  lemma ListenersSettle(gw: Gateway, gw': Gateway, ports: seq<int>, now: int, now': int)
    requires gw' == gw.(conditions := gw'.conditions, listenerStatus := WantedListeners(gw, ports, now))
    ensures ListenerStatusesEqual(gw'.listenerStatus, WantedListeners(gw', ports, now')) <==> NoShadow(gw.listeners)
  {
    var ls, ss, ss' := gw.listeners, gw.listenerStatus, gw'.listenerStatus;
    var foreign, ours := Unmanaged(ls, ss), Entries(gw.generation, ss, ls, ports, now);
    var ours' := Entries(gw.generation, ss', ls, ports, now');
    UnmanagedAppend(ls, foreign, ours);
    UnmanagedTwice(ls, ss);
    assert ls[..|ls|] == ls;
    EntriesAreManaged(ls, |ls|, gw.generation, ss, ports, now);
    EntriesContent(gw.generation, ls, ports, ss, now, ss', now');
    if NoShadow(ls) {
      assert Unmanaged(ls, ss') == foreign;
      EqualAppend(foreign, ours, ours');
    }
  }

  lemma ListenersIgnoreClock(gw: Gateway, ports: seq<int>, now: int, now': int)
    requires ListenerStatusesEqual(gw.listenerStatus, WantedListeners(gw, ports, now))
    ensures ListenerStatusesEqual(gw.listenerStatus, WantedListeners(gw, ports, now'))
  {
    var ss := gw.listenerStatus;
    EntriesContent(gw.generation, gw.listeners, ports, ss, now, ss, now');
    EqualAppend(Unmanaged(gw.listeners, ss), Entries(gw.generation, ss, gw.listeners, ports, now),
                Entries(gw.generation, ss, gw.listeners, ports, now'));
  }

  lemma {:induction false} FindIgnoresClock(a: seq<Condition>, b: seq<Condition>, kind: string)
    requires ConditionsEqual(a, b)
    ensures Find(a, kind).Some? <==> Find(b, kind).Some?
    ensures Find(a, kind).Some? ==> SameContent(Find(a, kind).value, Find(b, kind).value)
  {
    if a == [] {
    } else {
      FindIgnoresClock(a[1..], b[1..], kind);
    }
  }

  lemma {:induction false} MergeIgnoresClock(out: seq<Condition>, out': seq<Condition>, want: seq<Condition>, want': seq<Condition>)
    requires ConditionsEqual(out, out') && ConditionsEqual(want, want')
    ensures ConditionsEqual(WithMissing(out, want), WithMissing(out', want'))
  {
    if want == [] {
    } else {
      MergeIgnoresClock(out, out', want[..|want| - 1], want'[..|want'| - 1]);
      FindIgnoresClock(WithMissing(out, want[..|want| - 1]), WithMissing(out', want'[..|want'| - 1]), want[|want| - 1].kind);
    }
  }

  lemma ConditionsIgnoreClock(key: Key, gw: Gateway, now: int, now': int)
    requires ConditionsEqual(gw.conditions, WantedConditions(key, gw, now))
    ensures ConditionsEqual(gw.conditions, WantedConditions(key, gw, now'))
  {
    var want, want' := Stabilized(gw.conditions, GatewayConditions(key, gw), now),
                       Stabilized(gw.conditions, GatewayConditions(key, gw), now');
    forall i | 0 <= i < |gw.conditions|
      ensures SameContent(Replacement(want, gw.conditions[i]), Replacement(want', gw.conditions[i]))
    {
      FindIgnoresClock(want, want', gw.conditions[i].kind);
    }
    MergeIgnoresClock(Replaced(gw.conditions, want), Replaced(gw.conditions, want'), want, want');
  }

  /** A quiet Gateway has no shadowed name, and stays quiet whatever the clock says. */
  lemma QuietStays(key: Key, gw: Gateway, ports: seq<int>, now: int, now': int)
    requires GatewayQuiet(key, gw, ports, now)
    ensures NoShadow(gw.listeners) && GatewayQuiet(key, gw, ports, now')
  {
    var ls, ss := gw.listeners, gw.listenerStatus;
    var ours := Entries(gw.generation, ss, ls, ports, now);
    UnmanagedCount(ls, ss, WantedListeners(gw, ports, now));
    UnmanagedAppend(ls, Unmanaged(ls, ss), ours);
    UnmanagedTwice(ls, ss);
    assert ls[..|ls|] == ls;
    EntriesAreManaged(ls, |ls|, gw.generation, ss, ports, now);
    ListenersIgnoreClock(gw, ports, now, now');
    ConditionsIgnoreClock(key, gw, now, now');
  }

  /** After one pass over a Gateway, the next writes nothing exactly when no rsync listener's
      name is shadowed by an earlier listener of another protocol. */
  lemma GatewaySettles(key: Key, gw: Gateway, ports: seq<int>, now: int, now': int)
    ensures GatewayQuiet(key, GatewayAfter(key, gw, ports, now), ports, now') <==> NoShadow(gw.listeners)
  {
    var gw' := GatewayAfter(key, gw, ports, now);
    if GatewayQuiet(key, gw, ports, now) {
      QuietStays(key, gw, ports, now, now');
    } else {
      ConditionsSettle(key, gw, gw', now, now');
      ListenersSettle(gw, gw', ports, now, now');
    }
  }

  lemma ForeignEntriesSurvive(key: Key, gw: Gateway, ports: seq<int>, now: int)
    ensures var ls, ss, ss' := gw.listeners, gw.listenerStatus, GatewayAfter(key, gw, ports, now).listenerStatus;
      Unmanaged(ls, ss) <= Unmanaged(ls, ss') && (NoShadow(ls) ==> Unmanaged(ls, ss') == Unmanaged(ls, ss))
  {
    var ls, ss := gw.listeners, gw.listenerStatus;
    UnmanagedAppend(ls, Unmanaged(ls, ss), Entries(gw.generation, ss, ls, ports, now));
    UnmanagedTwice(ls, ss);
    assert ls[..|ls|] == ls;
    EntriesAreManaged(ls, |ls|, gw.generation, ss, ports, now);
  }

  /** Conditions of other types survive in order. So do the entries of listeners that are not
      ours; only where a name is shadowed are there more of them afterwards. */
  lemma ForeignGatewayStatusSurvives(key: Key, gw: Gateway, ports: seq<int>, now: int)
    ensures var gw' := GatewayAfter(key, gw, ports, now);
      && Others(gw'.conditions, ["Accepted", "Programmed"]) == Others(gw.conditions, ["Accepted", "Programmed"])
      && Unmanaged(gw.listeners, gw.listenerStatus) <= Unmanaged(gw.listeners, gw'.listenerStatus)
      && (NoShadow(gw.listeners) ==>
            Unmanaged(gw.listeners, gw'.listenerStatus) == Unmanaged(gw.listeners, gw.listenerStatus))
  {
    var want := Stabilized(gw.conditions, GatewayConditions(key, gw), now);
    assert Kinds(want) == ["Accepted", "Programmed"];
    MergedKeepsOthers(gw.conditions, want);
    ForeignEntriesSurvive(key, gw, ports, now);
  }

  /** A shadowed name makes the status grow on every pass. */
  lemma ShadowedStatusGrows(key: Key, gw: Gateway, ports: seq<int>, now: int)
    requires !NoShadow(gw.listeners)
    ensures |Unmanaged(gw.listeners, GatewayAfter(key, gw, ports, now).listenerStatus)| > |Unmanaged(gw.listeners, gw.listenerStatus)|
  {
    var ls, ss := gw.listeners, gw.listenerStatus;
    if GatewayQuiet(key, gw, ports, now) {
      QuietStays(key, gw, ports, now, now);
    } else {
      UnmanagedAppend(ls, Unmanaged(ls, ss), Entries(gw.generation, ss, ls, ports, now));
      UnmanagedTwice(ls, ss);
      assert ls[..|ls|] == ls;
      EntriesAreManaged(ls, |ls|, gw.generation, ss, ports, now);
    }
  }

  // ---------------------------------------------------------------- what the Gateway status says

  /** The conditions have one of the given type and status. */
  predicate Says(cs: seq<Condition>, kind: string, status: Truth) {
    exists c :: c in cs && c.kind == kind && c.status == status
  }

  lemma {:induction false} EntryFor(generation: int, ss: seq<ListenerStatus>, ls: seq<Listener>, ports: seq<int>, now: int, i: nat)
    requires i < |ls| && ls[i].protocol == PROTOCOL
    ensures ListenerEntry(generation, ss, ls[i], ports, now) in Entries(generation, ss, ls, ports, now)
  {
    if i < |ls| - 1 { EntryFor(generation, ss, ls[..|ls| - 1], ports, now, i); }
  }

  /** The reason a listener's Accepted condition gives. */
  function AcceptedReason(l: Listener): string {
    if l.tls then "TLSNotSupported" else if AllowedRoutesError(l) != "" then "UnsupportedValue" else "Accepted"
  }

  /** The entry supports RsyncRoutes and has two current conditions: Accepted without TLS and
      with well-formed allowed routes, and Programmed when the port is served. */
  ghost predicate Tells(s: ListenerStatus, l: Listener, ports: seq<int>, generation: int) {
    && s.name == l.name && s.attachedRoutes == 0 && |s.conditions| == 2
    && |s.supportedKinds| == 1 && s.supportedKinds[0].kind == "RsyncRoute"
    && Or(s.supportedKinds[0].group, "") == "gateway.rsync.zjusct.io"
    && s.conditions[0].kind == "Accepted" && s.conditions[1].kind == "Programmed"
    && s.conditions[0].generation == generation == s.conditions[1].generation
    && s.conditions[0].status == (if !l.tls && AllowedRoutesError(l) == "" then True else False)
    && s.conditions[0].reason == AcceptedReason(l)
    && s.conditions[1].status == (if l.port in ports then True else False)
    && s.conditions[1].reason == (if l.port in ports then "Programmed" else "RestartRequired")
  }

  lemma EntryTells(generation: int, ss: seq<ListenerStatus>, l: Listener, ports: seq<int>, now: int, s: ListenerStatus)
    requires ListenerStatusEqual(s, ListenerEntry(generation, ss, l, ports, now))
    ensures Tells(s, l, ports, generation)
  {
    var want := ListenerEntry(generation, ss, l, ports, now).conditions;
    assert SameContent(s.conditions[0], want[0]) && SameContent(s.conditions[1], want[1]);
    assert SameContent(want[0], ListenerAccepted(generation, l)) && SameContent(want[1], ListenerProgrammed(generation, l, ports));
  }

  lemma GatewayConditionsSay(key: Key, gw: Gateway, now: int, cs: seq<Condition>)
    requires ConditionsEqual(cs, WantedConditions(key, gw, now))
    ensures Reports(cs, "Accepted", True, "Accepted", "GatewayClass " + Quote(gw.className) + " is claimed and accepted", gw.generation)
    ensures Reports(cs, "Programmed", True, "Programmed", "routes bound to " + KeyString(key) + " are programmed into the data plane", gw.generation)
    ensures Says(cs, "Accepted", True) && Says(cs, "Programmed", True)
  {
    var given := GatewayConditions(key, gw);
    var want, merged := Stabilized(gw.conditions, given, now), WantedConditions(key, gw, now);
    WantedAreFirst(gw.conditions, key, gw, now);
    forall i | 0 <= i < 2
      ensures Reports(cs, given[i].kind, given[i].status, given[i].reason, given[i].message, given[i].generation)
      ensures Says(cs, given[i].kind, True)
    {
      MergedCarries(gw.conditions, want, want[i]);
      var j :| 0 <= j < |merged| && merged[j] == want[i];
      assert SameContent(cs[j], want[i]) && cs[j] in cs && SameContent(want[i], given[i]);
      assert Reads(cs[j], given[i].kind, given[i].status, given[i].reason, given[i].message, given[i].generation);
    }
    assert given[0].kind == "Accepted" && given[1].kind == "Programmed";
  }

  /** After a pass every rsync listener has an entry that says just that, and the Gateway is
      reported accepted and programmed. */
  lemma GatewayStatusSays(key: Key, gw: Gateway, ports: seq<int>, now: int, i: nat)
    requires i < |gw.listeners| && gw.listeners[i].protocol == PROTOCOL
    ensures var gw' := GatewayAfter(key, gw, ports, now);
      && (exists s :: s in gw'.listenerStatus && Tells(s, gw.listeners[i], ports, gw.generation))
      && Says(gw'.conditions, "Accepted", True) && Says(gw'.conditions, "Programmed", True)
  {
    var gw', l := GatewayAfter(key, gw, ports, now), gw.listeners[i];
    var wanted := WantedListeners(gw, ports, now);
    var e := ListenerEntry(gw.generation, gw.listenerStatus, l, ports, now);
    EntryFor(gw.generation, gw.listenerStatus, gw.listeners, ports, now, i);
    assert e in wanted;
    var j :| 0 <= j < |wanted| && wanted[j] == e;
    assert ListenerStatusEqual(gw'.listenerStatus[j], wanted[j]);
    EntryTells(gw.generation, gw.listenerStatus, l, ports, now, gw'.listenerStatus[j]);
    assert gw'.listenerStatus[j] in gw'.listenerStatus;
    GatewayConditionsSay(key, gw, now, gw'.conditions);
  }

  // ---------------------------------------------------------------- what a listener's report is worth

  /** The listener has a selector, and it does not parse. */
  predicate BadSelector(env: Env, l: Listener) {
    && l.allowed.Some? && l.allowed.value.namespaces.Some?
    && var ns := l.allowed.value.namespaces.value;
       ns.from == Some(Selector) && ns.selector.Some? && env.selectorError(ns.selector.value).Some?
  }

  /** The allowed routes cannot be made sense of. */
  predicate Malformed(env: Env, l: Listener) {
    && l.allowed.Some? && l.allowed.value.namespaces.Some? && l.allowed.value.namespaces.value.from.Some?
    && var ns := l.allowed.value.namespaces.value;
       ns.from.value.Unknown? || (ns.from.value.Selector? && ns.selector.None?) || BadSelector(env, l)
  }

  /** Malformed allowed routes admit no route at all. */
  lemma MalformedAdmitsNobody(env: Env, l: Listener, gatewayNs: string, key: Key, route: Route)
    requires Malformed(env, l)
    ensures ListenerRefusal(env, l, gatewayNs, key, route) != ""
  {
    assert KindsAllow(l) ==> NamespaceRefusal(env, l, gatewayNs, key, route) != "";
  }

  /** They are meant to surface on the listener, and do, except for a selector that does not
      parse. */
  lemma SurfacesIff(env: Env, l: Listener)
    ensures AllowedRoutesError(l) != "" <==> Malformed(env, l) && !BadSelector(env, l)
  {
  }

  /** Such a listener: a selector that does not parse admits nobody and is reported accepted. */
  lemma BadSelectorIsSilent(env: Env, selector: string, gatewayNs: string, key: Key, route: Route)
    requires env.selectorError(selector).Some?
    ensures var l := Listener("rsync", PROTOCOL, 873, false,
                              Some(AllowedRoutes([], Some(RouteNamespaces(Some(Selector), Some(selector))))));
      && Malformed(env, l) && ListenerAccepted(1, l).status == True
      && ListenerRefusal(env, l, gatewayNs, key, route) != ""
  {
  }

  /** A listener reported not accepted admits a route exactly when it has TLS and its allowed
      routes admit the route. */
  lemma NotAcceptedAdmitsIff(env: Env, l: Listener, generation: int, gatewayNs: string, key: Key, route: Route)
    ensures ListenerAccepted(generation, l).status == False && ListenerRefusal(env, l, gatewayNs, key, route) == ""
      <==> l.tls && ListenerRefusal(env, l, gatewayNs, key, route) == ""
  {
    SurfacesIff(env, l);
    if Malformed(env, l) { MalformedAdmitsNobody(env, l, gatewayNs, key, route); }
  }

  /** Such a listener: with TLS and nothing said of allowed routes it admits every route of its
      own namespace. */
  lemma TlsListenerAdmits(env: Env, key: Key, route: Route)
    ensures var l := Listener("rsync", PROTOCOL, 873, true, None);
      ListenerAccepted(1, l).status == False && ListenerRefusal(env, l, key.ns, key, route) == ""
  {
  }

  /** So the listener of a bound parent is reported accepted exactly when it has no TLS. */
  lemma BoundListenerReport(env: Env, snap: Snapshot, claims: map<string, Claim>, key: Key, route: Route, ref: ParentRef, generation: int)
    requires BindParent(env, snap, claims, key, route, ref).accepted
    ensures var l := BindParent(env, snap, claims, key, route, ref).listener;
      l.Some? && (ListenerAccepted(generation, l.value).status == True <==> !l.value.tls)
  {
    BindParentIsExact(env, snap, claims, key, route, ref);
    NotAcceptedAdmitsIff(env, BindParent(env, snap, claims, key, route, ref).listener.value, generation,
                         GatewayKey(key, ref).ns, key, route);
  }

  // ---------------------------------------------------------------- the route status

  function ParentRefString(ref: ParentRef): string {
    var prefix := Or(ref.kind, "Gateway") + "." + Or(ref.group, GATEWAY_GROUP) + "/";
    if ref.ns.Some? && ref.ns.value != "" then prefix + ref.ns.value + "/" + ref.name else prefix + ref.name
  }

  /** The namespace a reference gives, if it gives one. */
  function NamespaceGiven(ref: ParentRef): string {
    if ref.ns.Some? then ref.ns.value else ""
  }

  predicate RefersToGateway(ref: ParentRef) {
    (ref.group == None || ref.group == Some("gateway.networking.k8s.io")) && (ref.kind == None || ref.kind == Some("Gateway"))
  }

  function RefTail(ref: ParentRef): string {
    if NamespaceGiven(ref) == "" then ref.name else NamespaceGiven(ref) + "/" + ref.name
  }

  lemma SameTail(a: ParentRef, b: ParentRef)
    requires RefTail(a) == RefTail(b)
    ensures NamespaceGiven(a) == NamespaceGiven(b) && a.name == b.name
  {
    var x, y := NamespaceGiven(a), NamespaceGiven(b);
    if x != "" { assert RefTail(a)[|x|] == '/' && '/' in RefTail(a); }
    if y != "" { assert RefTail(b)[|y|] == '/' && '/' in RefTail(b); }
    if x != "" && y != "" {
      KeyStringInjective(Key(a.ns.value, a.name), Key(b.ns.value, b.name));
    }
  }

  lemma RefText(ref: ParentRef)
    requires RefersToGateway(ref)
    ensures ParentRefString(ref) == "Gateway" + "." + GATEWAY_GROUP + "/" + RefTail(ref)
  {
    var prefix := "Gateway" + "." + GATEWAY_GROUP + "/";
    assert Or(ref.kind, "Gateway") == "Gateway" && Or(ref.group, GATEWAY_GROUP) == GATEWAY_GROUP;
    if NamespaceGiven(ref) != "" {
      assert prefix + ref.ns.value + "/" + ref.name == prefix + (ref.ns.value + "/" + ref.name);
    }
  }

  lemma SamePrefix(prefix: string, s: string, t: string)
    ensures prefix + s == prefix + t <==> s == t
  {
    assert (prefix + s)[|prefix|..] == s && (prefix + t)[|prefix|..] == t;
  }

  /** References to Gateways count as the same exactly when they give the same namespace and
      name; defaults written out make no difference, and neither do sections. */
  lemma RefStringIff(a: ParentRef, b: ParentRef)
    requires RefersToGateway(a) && RefersToGateway(b)
    ensures ParentRefString(a) == ParentRefString(b) <==> NamespaceGiven(a) == NamespaceGiven(b) && a.name == b.name
  {
    RefText(a);
    RefText(b);
    SamePrefix("Gateway" + "." + GATEWAY_GROUP + "/", RefTail(a), RefTail(b));
    if RefTail(a) == RefTail(b) { SameTail(a, b); }
  }

  /** The conditions of our first entry for that parent; the section is not looked at. */
  function ExistingFor(ps: seq<ParentStatus>, ref: ParentRef): seq<Condition> {
    if ps == [] then []
    else if ps[0].controllerName == CONTROLLER && ParentRefString(ps[0].parentRef) == ParentRefString(ref) then ps[0].conditions
    else ExistingFor(ps[1..], ref)
  }

  predicate IsOurs(p: ParentStatus, ref: ParentRef) {
    p.controllerName == CONTROLLER && ParentRefString(p.parentRef) == ParentRefString(ref)
  }

  /** Times are carried over from our first entry for the parent, if there is one. */
  lemma {:induction false} ExistingForIs(ps: seq<ParentStatus>, ref: ParentRef, i: nat)
    requires i <= |ps| && (forall j :: 0 <= j < i ==> !IsOurs(ps[j], ref)) && (i < |ps| ==> IsOurs(ps[i], ref))
    ensures ExistingFor(ps, ref) == if i < |ps| then ps[i].conditions else []
  {
    if i == 0 {
    } else {
      assert !IsOurs(ps[0], ref);
      assert forall j :: 0 <= j < i - 1 ==> ps[1..][j] == ps[j + 1];
      ExistingForIs(ps[1..], ref, i - 1);
    }
  }

  function TruthOf(b: bool): Truth { if b then True else False }

  function RouteConditions(generation: int, res: ParentResult, backends: BackendStatus, existing: seq<Condition>, now: int): seq<Condition> {
    [StableCondition(existing, Condition("Accepted", TruthOf(res.accepted), res.reason, res.message, generation, 0), now)]
    + if res.accepted then
        [StableCondition(existing,
           Condition("ResolvedRefs", TruthOf(backends.resolved), backends.reason, backends.message, generation, 0), now)]
      else []
  }

  function ParentEntry(generation: int, ps: seq<ParentStatus>, res: ParentResult, backends: BackendStatus, now: int): ParentStatus {
    ParentStatus(res.parentRef, CONTROLLER,
      RouteConditions(generation, res, backends, ExistingFor(ps, res.parentRef), now))
  }

  function ParentEntries(generation: int, ps: seq<ParentStatus>, results: seq<ParentResult>, backends: BackendStatus, now: int): seq<ParentStatus> {
    seq(|results|, i requires 0 <= i < |results| => ParentEntry(generation, ps, results[i], backends, now))
  }

  /** The entries of other controllers. */
  function Foreign(ps: seq<ParentStatus>): seq<ParentStatus> {
    if ps == [] then []
    else
      var front, p := Foreign(ps[..|ps| - 1]), ps[|ps| - 1];
      if p.controllerName != CONTROLLER then front + [p] else front
  }

  function WantedParents(route: Route, results: seq<ParentResult>, backends: BackendStatus, now: int): seq<ParentStatus> {
    Foreign(route.parents) + ParentEntries(route.generation, route.parents, results, backends, now)
  }

  /** One parent's entry: its Accepted condition and, when accepted, the one on backends. */
  method BuildParentEntry(route: Route, res: ParentResult, backends: BackendStatus, now: int) returns (entry: ParentStatus)
    ensures entry == ParentEntry(route.generation, route.parents, res, backends, now)
  {
    var existing := ExistingFor(route.parents, res.parentRef);
    var conds := [StableCondition(existing,
      Condition("Accepted", TruthOf(res.accepted), res.reason, res.message, route.generation, 0), now)];
    if res.accepted {
      conds := conds + [StableCondition(existing,
        Condition("ResolvedRefs", TruthOf(backends.resolved), backends.reason, backends.message, route.generation, 0), now)];
    }
    entry := ParentStatus(res.parentRef, CONTROLLER, conds);
  }

  /** The first loop of the route status: entries of other controllers are kept. */
  method KeepForeign(ps: seq<ParentStatus>) returns (parents: seq<ParentStatus>)
    ensures parents == Foreign(ps)
  {
    parents := [];
    for i := 0 to |ps|
      invariant parents == Foreign(ps[..i])
    {
      assert ps[..i + 1][..i] == ps[..i];
      if ps[i].controllerName != CONTROLLER { parents := parents + [ps[i]]; }
    }
    assert ps[..|ps|] == ps;
  }

  lemma PrefixGrows(a: seq<ParentStatus>, b: seq<ParentStatus>, i: nat)
    requires i < |b|
    ensures (a + b[..i]) + [b[i]] == a + b[..i + 1]
  {
  }

  method BuildRouteStatus(route: Route, results: seq<ParentResult>, backends: BackendStatus, now: int)
    returns (parents: seq<ParentStatus>)
    ensures parents == WantedParents(route, results, backends, now)
  {
    parents := KeepForeign(route.parents);
    ghost var foreign, ours := parents, ParentEntries(route.generation, route.parents, results, backends, now);
    for i := 0 to |results|
      invariant parents == foreign + ours[..i]
    {
      var entry := BuildParentEntry(route, results[i], backends, now);
      parents := parents + [entry];
      PrefixGrows(foreign, ours, i);
    }
    assert ours[..|results|] == ours;
  }

  predicate ParentStatusEqual(a: ParentStatus, b: ParentStatus) {
    && a.controllerName == b.controllerName && ParentRefString(a.parentRef) == ParentRefString(b.parentRef)
    && ConditionsEqual(a.conditions, b.conditions)
  }

  predicate ParentStatusesEqual(cur: seq<ParentStatus>, want: seq<ParentStatus>) {
    |cur| == |want| && forall i :: 0 <= i < |want| ==> ParentStatusEqual(cur[i], want[i])
  }

  predicate RouteQuiet(route: Route, results: seq<ParentResult>, backends: BackendStatus, now: int) {
    ParentStatusesEqual(route.parents, WantedParents(route, results, backends, now))
  }

  function RouteAfter(route: Route, results: seq<ParentResult>, backends: BackendStatus, now: int): Route {
    if RouteQuiet(route, results, backends, now) then route
    else route.(parents := WantedParents(route, results, backends, now))
  }

  lemma {:induction false} ForeignAppend(a: seq<ParentStatus>, b: seq<ParentStatus>)
    ensures Foreign(a + b) == Foreign(a) + Foreign(b)
  {
    if b == [] {
      assert a + b == a;
    } else {
      ForeignAppend(a, b[..|b| - 1]);
      assert (a + b)[..|a + b| - 1] == a + b[..|b| - 1];
    }
  }

  lemma {:induction false} ForeignTwice(ps: seq<ParentStatus>)
    ensures Foreign(Foreign(ps)) == Foreign(ps)
  {
    if ps == [] {
    } else {
      var front, p := ps[..|ps| - 1], ps[|ps| - 1];
      ForeignTwice(front);
      ForeignAppend(Foreign(front), [p]);
      assert [p][..0] == [];
    }
  }

  lemma {:induction false} OursAreNotForeign(ps: seq<ParentStatus>)
    requires forall i :: 0 <= i < |ps| ==> ps[i].controllerName == CONTROLLER
    ensures Foreign(ps) == []
  {
    if ps == [] {
    } else {
      OursAreNotForeign(ps[..|ps| - 1]);
    }
  }

  /** Entries of other controllers survive in order. */
  lemma ForeignParentsSurvive(route: Route, results: seq<ParentResult>, backends: BackendStatus, now: int)
    ensures Foreign(RouteAfter(route, results, backends, now).parents) == Foreign(route.parents)
  {
    var ours := ParentEntries(route.generation, route.parents, results, backends, now);
    ForeignAppend(Foreign(route.parents), ours);
    ForeignTwice(route.parents);
    OursAreNotForeign(ours);
  }

  lemma ParentEntryContent(generation: int, res: ParentResult, backends: BackendStatus,
      ps: seq<ParentStatus>, now: int, ps': seq<ParentStatus>, now': int)
    ensures ParentStatusEqual(ParentEntry(generation, ps, res, backends, now), ParentEntry(generation, ps', res, backends, now'))
  {
  }

  lemma ParentEntriesContent(generation: int, results: seq<ParentResult>, backends: BackendStatus,
      ps: seq<ParentStatus>, now: int, ps': seq<ParentStatus>, now': int)
    ensures ParentStatusesEqual(ParentEntries(generation, ps, results, backends, now), ParentEntries(generation, ps', results, backends, now'))
  {
    forall i | 0 <= i < |results|
      ensures ParentStatusEqual(ParentEntry(generation, ps, results[i], backends, now), ParentEntry(generation, ps', results[i], backends, now'))
    {
      ParentEntryContent(generation, results[i], backends, ps, now, ps', now');
    }
  }

  lemma ParentsAppend(a: seq<ParentStatus>, b: seq<ParentStatus>, c: seq<ParentStatus>)
    requires ParentStatusesEqual(b, c)
    ensures ParentStatusesEqual(a + b, a + c)
  {
  }

  lemma ParentsTransitive(a: seq<ParentStatus>, b: seq<ParentStatus>, c: seq<ParentStatus>)
    requires ParentStatusesEqual(a, b) && ParentStatusesEqual(b, c)
    ensures ParentStatusesEqual(a, c)
  {
    forall i | 0 <= i < |a| ensures ParentStatusEqual(a[i], c[i]) {
      assert ParentStatusEqual(a[i], b[i]) && ParentStatusEqual(b[i], c[i]);
    }
  }

  /** After one pass over a route, the next writes nothing. */
  lemma RouteSettles(route: Route, results: seq<ParentResult>, backends: BackendStatus, now: int, now': int)
    ensures RouteQuiet(RouteAfter(route, results, backends, now), results, backends, now')
  {
    var route' := RouteAfter(route, results, backends, now);
    var foreign := Foreign(route.parents);
    var ours := ParentEntries(route.generation, route.parents, results, backends, now);
    var ours' := ParentEntries(route.generation, route'.parents, results, backends, now');
    ForeignParentsSurvive(route, results, backends, now);
    ParentEntriesContent(route.generation, results, backends, route.parents, now, route'.parents, now');
    ParentsAppend(foreign, ours, ours');
    if RouteQuiet(route, results, backends, now) {
      ParentsTransitive(route.parents, foreign + ours, foreign + ours');
    }
  }
}

/**
 Module conflicts. The program resolves them greedily, Gateway by Gateway and in age order,
 rewriting the binding results in place while it iterates maps in any order. It is proved to
 compute the one age-ordered solution.
 */
module Conflicts {
  import opened Ordering
  import opened GatewayApi
  import opened Binding

  // ---------------------------------------------------------------- age

  /** A route key with the time its route was created. */
  datatype Aged = Aged(created: int, key: Key)

  predicate AgedLess(a: Aged, b: Aged) {
    a.created < b.created || (a.created == b.created && KeyLess(a.key, b.key))
  }

  lemma AgedLessIsStrictTotal()
    ensures StrictTotal(AgedLess)
  {
    KeyLessIsStrictTotal();
    forall a, b | a != b ensures AgedLess(a, b) || AgedLess(b, a) {
      assert a.key != b.key || a.created != b.created;
      assert KeyLess(a.key, b.key) || KeyLess(b.key, a.key) || a.key == b.key;
    }
    forall a, b, c | AgedLess(a, b) && AgedLess(b, c) ensures AgedLess(a, c) {
      assert KeyLess(a.key, b.key) && KeyLess(b.key, c.key) ==> KeyLess(a.key, c.key);
    }
    forall a ensures !AgedLess(a, a) {
      assert !KeyLess(a.key, a.key);
    }
  }

  type Routes = map<Key, Route>

  function Tag(routes: Routes, k: Key): Aged
    requires k in routes
  {
    Aged(routes[k].created, k)
  }

  predicate Older(routes: Routes, a: Key, b: Key)
    requires a in routes && b in routes
  {
    AgedLess(Tag(routes, a), Tag(routes, b))
  }

  /** The routes older than `r`. */
  ghost function Elders(routes: Routes, r: Key): set<Key>
    requires r in routes
  {
    set q | q in routes && Older(routes, q, r)
  }

  lemma EldersShrink(routes: Routes, q: Key, r: Key)
    requires r in routes && q in Elders(routes, r)
    ensures Elders(routes, q) < Elders(routes, r)
  {
    AgedLessIsStrictTotal();
    forall x | x in Elders(routes, q) ensures x in Elders(routes, r) {
      assert AgedLess(Tag(routes, x), Tag(routes, q)) && AgedLess(Tag(routes, q), Tag(routes, r));
    }
    assert q !in Elders(routes, q);
  }

  // ---------------------------------------------------------------- the age-ordered solution

  function Modules(routes: Routes, r: Key): seq<string>
    requires r in routes
  {
    EffectiveModules(r, routes[r])
  }

  ghost predicate Share(routes: Routes, a: Key, b: Key)
    requires a in routes && b in routes
  {
    exists m :: m in Modules(routes, a) && m in Modules(routes, b)
  }

  predicate AcceptedSomewhere(rs: seq<ParentResult>) {
    exists i :: 0 <= i < |rs| && rs[i].accepted
  }

  /** The route was accepted at the Gateway before conflicts were looked at. */
  ghost predicate Bound(pre: Results, g: Key, r: Key) {
    r in pre && exists i :: 0 <= i < |pre[r]| && pre[r][i].accepted && pre[r][i].gateway == g
  }

  /** Bound, and no older surviving route at the Gateway shares a module. */
  ghost predicate Survives(routes: Routes, pre: Results, g: Key, r: Key)
    requires r in routes
    decreases Elders(routes, r)
  {
    && Bound(pre, g, r)
    && forall q | q in Elders(routes, r) ::
         (EldersShrink(routes, q, r); Survives(routes, pre, g, q)) ==> !Share(routes, q, r)
  }

  /** `q` is an older survivor serving module `m`. */
  ghost predicate Owns(routes: Routes, pre: Results, g: Key, r: Key, m: string, q: Key)
    requires r in routes
  {
    q in Elders(routes, r) && Survives(routes, pre, g, q) && m in Modules(routes, q)
  }

  ghost predicate Taken(routes: Routes, pre: Results, g: Key, r: Key, m: string)
    requires r in routes
  {
    exists q :: Owns(routes, pre, g, r, m, q)
  }

  lemma SurvivorsDisjoint(routes: Routes, pre: Results, g: Key, a: Key, b: Key)
    requires a in routes && b in routes && a != b
    requires Survives(routes, pre, g, a) && Survives(routes, pre, g, b)
    ensures !Share(routes, a, b)
  {
    AgedLessIsStrictTotal();
    assert AgedLess(Tag(routes, a), Tag(routes, b)) || AgedLess(Tag(routes, b), Tag(routes, a));
    if Older(routes, a, b) {
      assert a in Elders(routes, b);
    } else {
      assert b in Elders(routes, a);
    }
  }

  lemma OwnerIsUnique(routes: Routes, pre: Results, g: Key, r: Key, m: string, a: Key, b: Key)
    requires r in routes && Owns(routes, pre, g, r, m, a) && Owns(routes, pre, g, r, m, b)
    ensures a == b
  {
    if a != b { SurvivorsDisjoint(routes, pre, g, a, b); }
  }

  /** A loser is blamed on the first of its modules that is taken, and on its owner. */
  ghost predicate Blame(routes: Routes, pre: Results, g: Key, r: Key, k: nat, q: Key)
    requires r in routes
  {
    && k < |Modules(routes, r)|
    && Owns(routes, pre, g, r, Modules(routes, r)[k], q)
    && forall j :: 0 <= j < k ==> !Taken(routes, pre, g, r, Modules(routes, r)[j])
  }

  lemma BlameIsUnique(routes: Routes, pre: Results, g: Key, r: Key, k: nat, q: Key, k': nat, q': Key)
    requires r in routes && Blame(routes, pre, g, r, k, q) && Blame(routes, pre, g, r, k', q')
    ensures k == k' && q == q'
  {
    assert Taken(routes, pre, g, r, Modules(routes, r)[k]) && Taken(routes, pre, g, r, Modules(routes, r)[k']);
    OwnerIsUnique(routes, pre, g, r, Modules(routes, r)[k], q, q');
  }

  function Conflicted(res: ParentResult, m: string, winner: Key): ParentResult {
    res.(accepted := false, reason := "ModuleConflicted",
         message := "module " + Quote(m) + " is already claimed by route " + Quote(KeyString(winner))
                    + " on Gateway " + KeyString(res.gateway))
  }

  /** What the solution makes of one binding result of route `r`. */
  ghost predicate Settled(routes: Routes, pre: Results, r: Key, before: ParentResult, after: ParentResult)
    requires r in routes
  {
    if before.accepted && !Survives(routes, pre, before.gateway, r) then
      exists k: nat, q :: Blame(routes, pre, before.gateway, r, k, q)
                          && after == Conflicted(before, Modules(routes, r)[k], q)
    else after == before
  }

  ghost predicate SameShape(pre: Results, results: Results) {
    pre.Keys == results.Keys && forall r :: r in pre ==> |pre[r]| == |results[r]|
  }

  /** `results` is the age-ordered solution of `pre`. */
  ghost predicate Solution(routes: Routes, pre: Results, results: Results)
    requires pre.Keys <= routes.Keys
  {
    && SameShape(pre, results)
    && forall r, i :: r in pre && 0 <= i < |pre[r]| ==> Settled(routes, pre, r, pre[r][i], results[r][i])
  }

  lemma SettledIsUnique(routes: Routes, pre: Results, r: Key, before: ParentResult, a: ParentResult, b: ParentResult)
    requires r in routes && Settled(routes, pre, r, before, a) && Settled(routes, pre, r, before, b)
    ensures a == b
  {
    var g := before.gateway;
    if before.accepted && !Survives(routes, pre, g, r) {
      var k: nat, q :| Blame(routes, pre, g, r, k, q) && a == Conflicted(before, Modules(routes, r)[k], q);
      var k': nat, q' :| Blame(routes, pre, g, r, k', q') && b == Conflicted(before, Modules(routes, r)[k'], q');
      BlameIsUnique(routes, pre, g, r, k, q, k', q');
    }
  }

  /** There is only one solution, messages included. */
  lemma SolutionIsUnique(routes: Routes, pre: Results, a: Results, b: Results)
    requires pre.Keys <= routes.Keys && Solution(routes, pre, a) && Solution(routes, pre, b)
    ensures a == b
  {
    forall r | r in pre ensures a[r] == b[r] {
      forall i | 0 <= i < |pre[r]| ensures a[r][i] == b[r][i] {
        SettledIsUnique(routes, pre, r, pre[r][i], a[r][i], b[r][i]);
      }
    }
  }

  /** A bound route survives exactly when none of its modules is taken. */
  lemma SurvivesIffUntaken(routes: Routes, pre: Results, g: Key, r: Key)
    requires r in routes && Bound(pre, g, r)
    ensures Survives(routes, pre, g, r) <==> forall m :: m in Modules(routes, r) ==> !Taken(routes, pre, g, r, m)
  {
    if !Survives(routes, pre, g, r) {
      var q :| q in Elders(routes, r) && Survives(routes, pre, g, q) && Share(routes, q, r);
      var m :| m in Modules(routes, q) && m in Modules(routes, r);
      assert Owns(routes, pre, g, r, m, q);
    }
  }

  /** Every loser can be blamed on an older winner. */
  lemma LoserHasOlderWinner(routes: Routes, pre: Results, g: Key, r: Key)
    requires r in routes && Bound(pre, g, r) && !Survives(routes, pre, g, r)
    ensures exists k: nat, q :: Blame(routes, pre, g, r, k, q)
  {
    SurvivesIffUntaken(routes, pre, g, r);
    var modules := Modules(routes, r);
    var k: nat := 0;
    while k < |modules| && !Taken(routes, pre, g, r, modules[k])
      invariant k <= |modules|
      invariant forall j :: 0 <= j < k ==> !Taken(routes, pre, g, r, modules[j])
    {
      k := k + 1;
    }
    var q :| Owns(routes, pre, g, r, modules[k], q);
    assert Blame(routes, pre, g, r, k, q);
  }

  /** The solution for one binding result. */
  ghost function SettledForm(routes: Routes, pre: Results, r: Key, before: ParentResult): (after: ParentResult)
    requires r in routes && (before.accepted ==> Bound(pre, before.gateway, r))
    ensures Settled(routes, pre, r, before, after)
  {
    if before.accepted && !Survives(routes, pre, before.gateway, r) then
      LoserHasOlderWinner(routes, pre, before.gateway, r);
      var k: nat, q :| Blame(routes, pre, before.gateway, r, k, q);
      Conflicted(before, Modules(routes, r)[k], q)
    else before
  }

  ghost function SolutionOf(routes: Routes, pre: Results): (results: Results)
    requires pre.Keys <= routes.Keys
    ensures Solution(routes, pre, results)
  {
    map r | r in pre ::
      seq(|pre[r]|, i requires 0 <= i < |pre[r]| =>
        assert pre[r][i].accepted ==> Bound(pre, pre[r][i].gateway, r);
        SettledForm(routes, pre, r, pre[r][i]))
  }

  /** Any set of routes that obeys "in the set iff bound and no older member shares a module"
      is the set of survivors. */
  lemma {:induction false} SurvivorsAreTheFixpoint(routes: Routes, pre: Results, g: Key, w: set<Key>, r: Key)
    requires r in routes && w <= routes.Keys
    requires forall x :: x in routes ==>
      (x in w <==> Bound(pre, g, x) && forall q :: q in Elders(routes, x) && q in w ==> !Share(routes, q, x))
    ensures r in w <==> Survives(routes, pre, g, r)
    decreases Elders(routes, r)
  {
    forall q | q in Elders(routes, r) ensures q in w <==> Survives(routes, pre, g, q) {
      EldersShrink(routes, q, r);
      SurvivorsAreTheFixpoint(routes, pre, g, w, q);
    }
  }

  // ---------------------------------------------------------------- the program

  function Listed(bound: map<Key, seq<Key>>, g: Key): seq<Key> {
    if g in bound then bound[g] else []
  }

  ghost predicate BoundList(pre: Results, done: set<Key>, g: Key, list: seq<Key>) {
    Distinct(list) && forall r :: r in list <==> r in done && Bound(pre, g, r)
  }

  /** For each Gateway, the routes of `done` bound to it, in no particular order. */
  ghost predicate BoundLists(pre: Results, done: set<Key>, bound: map<Key, seq<Key>>) {
    forall g :: BoundList(pre, done, g, Listed(bound, g))
  }

  ghost predicate BoundUpTo(pre: Results, r: Key, n: nat, g: Key)
    requires r in pre && n <= |pre[r]|
  {
    exists i :: 0 <= i < n && pre[r][i].accepted && pre[r][i].gateway == g
  }

  /** The Gateways among the first `n` accepted entries of a route. */
  ghost predicate SeenUpTo(pre: Results, r: Key, n: nat, seen: set<Key>)
    requires r in pre && n <= |pre[r]|
  {
    forall g :: g in seen <==> BoundUpTo(pre, r, n, g)
  }

  lemma SeenNext(pre: Results, r: Key, n: nat, seen: set<Key>)
    requires r in pre && n < |pre[r]| && SeenUpTo(pre, r, n, seen)
    ensures SeenUpTo(pre, r, n + 1, if pre[r][n].accepted then seen + {pre[r][n].gateway} else seen)
  {
  }

  /** The route was put at the end of the lists of the Gateways `gs`. */
  ghost predicate Appended(bound: map<Key, seq<Key>>, bound': map<Key, seq<Key>>, r: Key, gs: set<Key>) {
    forall g :: Listed(bound', g) == Listed(bound, g) + if g in gs then [r] else []
  }

  lemma AppendedNext(bound: map<Key, seq<Key>>, bound': map<Key, seq<Key>>, r: Key, gs: set<Key>, g: Key)
    requires Appended(bound, bound', r, gs) && g !in gs
    ensures Appended(bound, bound'[g := Listed(bound', g) + [r]], r, gs + {g})
  {
    var after := bound'[g := Listed(bound', g) + [r]];
    forall x ensures Listed(after, x) == Listed(bound, x) + if x in gs + {g} then [r] else [] {
      assert Listed(bound', x) == Listed(bound, x) + if x in gs then [r] else [];
    }
  }

  /** The route is listed at a Gateway unless it is already. */
  method ListOnce(ghost bound: map<Key, seq<Key>>, bound': map<Key, seq<Key>>, r: Key, seen: set<Key>, g: Key)
    returns (bound'': map<Key, seq<Key>>, seen': set<Key>)
    requires Appended(bound, bound', r, seen)
    ensures Appended(bound, bound'', r, seen') && seen' == seen + {g}
  {
    bound'', seen' := bound', seen;
    if g !in seen {
      AppendedNext(bound, bound', r, seen, g);
      bound'', seen' := bound'[g := Listed(bound', g) + [r]], seen + {g};
    }
  }

  lemma AllSeen(pre: Results, r: Key, bound: map<Key, seq<Key>>, bound': map<Key, seq<Key>>, seen: set<Key>)
    requires r in pre && SeenUpTo(pre, r, |pre[r]|, seen) && Appended(bound, bound', r, seen)
    ensures forall g :: Listed(bound', g) == Listed(bound, g) + if Bound(pre, g, r) then [r] else []
  {
    forall g ensures Listed(bound', g) == Listed(bound, g) + if Bound(pre, g, r) then [r] else [] {
      assert g in seen <==> BoundUpTo(pre, r, |pre[r]|, g);
    }
  }

  /** One route's turn in the collecting loop. */
  method CollectRoute(pre: Results, r: Key, bound: map<Key, seq<Key>>) returns (bound': map<Key, seq<Key>>)
    requires r in pre
    ensures forall g :: Listed(bound', g) == Listed(bound, g) + if Bound(pre, g, r) then [r] else []
  {
    bound' := bound;
    var seen: set<Key> := {};
    for i := 0 to |pre[r]|
      invariant SeenUpTo(pre, r, i, seen) && Appended(bound, bound', r, seen)
    {
      SeenNext(pre, r, i, seen);
      if pre[r][i].accepted {
        bound', seen := ListOnce(bound, bound', r, seen, pre[r][i].gateway);
      }
    }
    AllSeen(pre, r, bound, bound', seen);
  }

  lemma BoundListsGrow(pre: Results, done: set<Key>, r: Key, bound: map<Key, seq<Key>>, bound': map<Key, seq<Key>>)
    requires BoundLists(pre, done, bound) && r !in done
    requires forall g :: Listed(bound', g) == Listed(bound, g) + if Bound(pre, g, r) then [r] else []
    ensures BoundLists(pre, done + {r}, bound')
  {
    forall g ensures BoundList(pre, done + {r}, g, Listed(bound', g)) {
      assert BoundList(pre, done, g, Listed(bound, g));
    }
  }

  method CollectBound(pre: Results) returns (bound: map<Key, seq<Key>>)
    ensures BoundLists(pre, pre.Keys, bound)
  {
    bound := map[];
    var todo := pre.Keys;
    while todo != {}
      invariant todo <= pre.Keys && BoundLists(pre, pre.Keys - todo, bound)
      decreases todo
    {
      var r :| r in todo;
      var bound' := CollectRoute(pre, r, bound);
      BoundListsGrow(pre, pre.Keys - todo, r, bound, bound');
      assert pre.Keys - (todo - {r}) == pre.Keys - todo + {r};
      bound, todo := bound', todo - {r};
    }
    assert pre.Keys - todo == pre.Keys;
  }

  // ---------------------------------------------------------------- one Gateway

  /** `sorted` lists exactly the routes bound at `g`, oldest first. */
  ghost predicate InAgeOrder(routes: Routes, pre: Results, g: Key, sorted: seq<Key>) {
    && (forall r :: r in sorted <==> Bound(pre, g, r))
    && (forall i :: 0 <= i < |sorted| ==> sorted[i] in routes)
    && (forall i, j :: 0 <= i < j < |sorted| ==> Older(routes, sorted[i], sorted[j]))
  }

  function Untag(s: seq<Aged>): seq<Key> {
    seq(|s|, i requires 0 <= i < |s| => s[i].key)
  }

  function SortByAge(routes: Routes, keys: seq<Key>): seq<Key>
    requires forall i :: 0 <= i < |keys| ==> keys[i] in routes
  {
    Untag(Sort(seq(|keys|, i requires 0 <= i < |keys| => Tag(routes, keys[i])), AgedLess))
  }

  lemma SortByAgeOk(routes: Routes, pre: Results, g: Key, keys: seq<Key>)
    requires forall i :: 0 <= i < |keys| ==> keys[i] in routes
    requires Distinct(keys) && forall r :: r in keys <==> Bound(pre, g, r)
    ensures InAgeOrder(routes, pre, g, SortByAge(routes, keys))
  {
    var tags := seq(|keys|, i requires 0 <= i < |keys| => Tag(routes, keys[i]));
    var s := Sort(tags, AgedLess);
    AgedLessIsStrictTotal();
    SortMembers(tags, AgedLess);
    SortStrict(tags, AgedLess);
    forall i | 0 <= i < |s| ensures s[i].key in keys && s[i] == Tag(routes, s[i].key) {
      assert s[i] in tags;
    }
    forall r | r in keys ensures r in Untag(s) {
      var i :| 0 <= i < |keys| && keys[i] == r;
      assert tags[i] in s;
      var j :| 0 <= j < |s| && s[j] == tags[i];
      assert Untag(s)[j] == r;
    }
  }

  /** `owner` records the modules of the survivors among the first `n` routes. */
  ghost predicate OwnerOk(routes: Routes, pre: Results, g: Key, sorted: seq<Key>, n: nat, owner: map<string, Key>)
    requires n <= |sorted| && forall i :: 0 <= i < |sorted| ==> sorted[i] in routes
  {
    && (forall m :: m in owner ==>
          owner[m] in sorted[..n] && Survives(routes, pre, g, owner[m]) && m in Modules(routes, owner[m]))
    && (forall i, m :: 0 <= i < n && Survives(routes, pre, g, sorted[i]) && m in Modules(routes, sorted[i]) ==> m in owner)
  }

  /** At the n-th route the owner map answers exactly what is taken, and by whom. */
  lemma OwnerAnswers(routes: Routes, pre: Results, g: Key, sorted: seq<Key>, n: nat, owner: map<string, Key>, m: string)
    requires InAgeOrder(routes, pre, g, sorted) && n < |sorted| && OwnerOk(routes, pre, g, sorted, n, owner)
    ensures m in owner <==> Taken(routes, pre, g, sorted[n], m)
    ensures m in owner ==> Owns(routes, pre, g, sorted[n], m, owner[m])
  {
    var r := sorted[n];
    if m in owner {
      var i :| 0 <= i < n && sorted[i] == owner[m];
      assert Older(routes, sorted[i], r);
      assert Owns(routes, pre, g, r, m, owner[m]);
    }
    if Taken(routes, pre, g, r, m) {
      var q :| Owns(routes, pre, g, r, m, q);
      assert q in sorted;
      var i :| 0 <= i < |sorted| && sorted[i] == q;
      AgedLessIsStrictTotal();
      assert AgedLess(Tag(routes, q), Tag(routes, r)) && !AgedLess(Tag(routes, r), Tag(routes, q));
      assert i < n;
    }
  }

  /** The first taken module of a route, or the number of its modules. */
  method FindTaken(modules: seq<string>, owner: map<string, Key>) returns (k: nat)
    ensures k <= |modules|
    ensures k < |modules| ==> modules[k] in owner
    ensures forall j :: 0 <= j < k ==> modules[j] !in owner
  {
    k := 0;
    while k < |modules| && modules[k] !in owner
      invariant k <= |modules| && forall j :: 0 <= j < k ==> modules[j] !in owner
    {
      k := k + 1;
    }
  }

  /** The rewriting loop: every accepted result at `g` flips, nothing else changes. */
  method FlipAll(perParent: seq<ParentResult>, g: Key, m: string, winner: Key) returns (out: seq<ParentResult>)
    ensures |out| == |perParent|
    ensures forall i :: 0 <= i < |out| ==>
      out[i] == if perParent[i].accepted && perParent[i].gateway == g then Conflicted(perParent[i], m, winner)
                else perParent[i]
  {
    out := perParent;
    for i := 0 to |perParent|
      invariant |out| == |perParent|
      invariant forall j :: i <= j < |out| ==> out[j] == perParent[j]
      invariant forall j :: 0 <= j < i ==>
        out[j] == if perParent[j].accepted && perParent[j].gateway == g then Conflicted(perParent[j], m, winner)
                  else perParent[j]
    {
      if out[i].accepted && out[i].gateway == g {
        out := out[i := Conflicted(out[i], m, winner)];
      }
    }
  }

  /** Results at `g` of the routes in `done` are settled, those of other routes untouched. */
  ghost predicate Progress(routes: Routes, pre: Results, g: Key, done: set<Key>, start: Results, now: Results)
    requires pre.Keys <= routes.Keys
  {
    && SameShape(pre, start) && SameShape(pre, now)
    && forall r, i :: r in pre && 0 <= i < |pre[r]| ==>
         if r in done && start[r][i].gateway == g then Settled(routes, pre, r, start[r][i], now[r][i])
         else now[r][i] == start[r][i]
  }

  lemma ProgressGrows(routes: Routes, pre: Results, g: Key, done: set<Key>, r: Key, start: Results, now: Results, now': Results)
    requires pre.Keys <= routes.Keys && Progress(routes, pre, g, done, start, now)
    requires r in pre && r !in done && SameShape(pre, now')
    requires forall x :: x in pre && x != r ==> now'[x] == now[x]
    requires forall i :: 0 <= i < |pre[r]| ==>
      if start[r][i].gateway == g then Settled(routes, pre, r, now[r][i], now'[r][i]) else now'[r][i] == now[r][i]
    ensures Progress(routes, pre, g, done + {r}, start, now')
  {
    forall x, i | x in pre && 0 <= i < |pre[x]|
      ensures if x in done + {r} && start[x][i].gateway == g then Settled(routes, pre, x, start[x][i], now'[x][i])
              else now'[x][i] == start[x][i]
    {
      assert x == r ==> now[x][i] == start[x][i];
    }
  }

  /** The results at `g` of a survivor, left alone, are settled. */
  lemma SurvivorSettled(routes: Routes, pre: Results, g: Key, r: Key, rs: seq<ParentResult>)
    requires r in routes && Survives(routes, pre, g, r)
    ensures forall i :: 0 <= i < |rs| && rs[i].gateway == g ==> Settled(routes, pre, r, rs[i], rs[i])
  {
  }

  /** The results at `g` of a loser are settled once flipped. */
  lemma LoserSettled(routes: Routes, pre: Results, g: Key, r: Key, k: nat, q: Key, rs: seq<ParentResult>, out: seq<ParentResult>)
    requires r in routes && !Survives(routes, pre, g, r) && Blame(routes, pre, g, r, k, q) && |out| == |rs|
    requires forall i :: 0 <= i < |out| ==>
      out[i] == if rs[i].accepted && rs[i].gateway == g then Conflicted(rs[i], Modules(routes, r)[k], q) else rs[i]
    ensures forall i :: 0 <= i < |rs| ==>
      if rs[i].gateway == g then Settled(routes, pre, r, rs[i], out[i]) else out[i] == rs[i]
  {
    forall i | 0 <= i < |rs| && rs[i].gateway == g ensures Settled(routes, pre, r, rs[i], out[i]) {
      if rs[i].accepted {
        assert Blame(routes, pre, rs[i].gateway, r, k, q) && out[i] == Conflicted(rs[i], Modules(routes, r)[k], q);
      }
    }
  }

  ghost function Elems(s: seq<Key>): set<Key> {
    set r | r in s
  }

  lemma Prefix(sorted: seq<Key>, n: nat)
    requires n < |sorted|
    ensures Elems(sorted[..n + 1]) == Elems(sorted[..n]) + {sorted[n]}
  {
    assert sorted[..n + 1] == sorted[..n] + [sorted[n]];
  }

  /** What the search of the owner map means for the n-th route. */
  lemma Verdict(routes: Routes, pre: Results, g: Key, sorted: seq<Key>, n: nat, owner: map<string, Key>, k: nat)
    requires InAgeOrder(routes, pre, g, sorted) && n < |sorted| && OwnerOk(routes, pre, g, sorted, n, owner)
    requires k <= |Modules(routes, sorted[n])|
    requires k < |Modules(routes, sorted[n])| ==> Modules(routes, sorted[n])[k] in owner
    requires forall j :: 0 <= j < k ==> Modules(routes, sorted[n])[j] !in owner
    ensures Survives(routes, pre, g, sorted[n]) <==> k == |Modules(routes, sorted[n])|
    ensures k < |Modules(routes, sorted[n])| ==>
      Blame(routes, pre, g, sorted[n], k, owner[Modules(routes, sorted[n])[k]])
  {
    var r := sorted[n];
    var modules := Modules(routes, r);
    assert r in sorted;
    SurvivesIffUntaken(routes, pre, g, r);
    forall j | 0 <= j < |modules|
      ensures modules[j] in owner <==> Taken(routes, pre, g, r, modules[j])
    {
      OwnerAnswers(routes, pre, g, sorted, n, owner, modules[j]);
    }
    if k < |modules| {
      OwnerAnswers(routes, pre, g, sorted, n, owner, modules[k]);
      assert modules[k] in modules;
    }
  }

  lemma LoserOwnsNothing(routes: Routes, pre: Results, g: Key, sorted: seq<Key>, n: nat, owner: map<string, Key>)
    requires n < |sorted| && forall i :: 0 <= i < |sorted| ==> sorted[i] in routes
    requires OwnerOk(routes, pre, g, sorted, n, owner) && !Survives(routes, pre, g, sorted[n])
    ensures OwnerOk(routes, pre, g, sorted, n + 1, owner)
  {
    assert sorted[..n + 1] == sorted[..n] + [sorted[n]];
  }

  lemma NotYetSeen(routes: Routes, pre: Results, g: Key, sorted: seq<Key>, n: nat)
    requires InAgeOrder(routes, pre, g, sorted) && n < |sorted|
    ensures sorted[n] !in sorted[..n]
  {
    AgedLessIsStrictTotal();
    forall i | 0 <= i < n ensures sorted[i] != sorted[n] {
      assert Older(routes, sorted[i], sorted[n]);
    }
  }

  method ClaimAll(owner: map<string, Key>, modules: seq<string>, r: Key) returns (owner': map<string, Key>)
    ensures forall m :: m in owner' <==> m in owner || m in modules
    ensures forall m :: m in owner' ==> owner'[m] == if m in modules then r else owner[m]
  {
    owner' := owner;
    for i := 0 to |modules|
      invariant forall m :: m in owner' <==> m in owner || m in modules[..i]
      invariant forall m :: m in owner' ==> owner'[m] == if m in modules[..i] then r else owner[m]
    {
      owner' := owner'[modules[i] := r];
    }
    assert modules[..|modules|] == modules;
  }

  lemma OwnerGrows(routes: Routes, pre: Results, g: Key, sorted: seq<Key>, n: nat, owner: map<string, Key>, owner': map<string, Key>)
    requires InAgeOrder(routes, pre, g, sorted) && n < |sorted| && OwnerOk(routes, pre, g, sorted, n, owner)
    requires Survives(routes, pre, g, sorted[n])
    requires forall m :: m in owner' <==> m in owner || m in Modules(routes, sorted[n])
    requires forall m :: m in owner' ==> owner'[m] == if m in Modules(routes, sorted[n]) then sorted[n] else owner[m]
    ensures OwnerOk(routes, pre, g, sorted, n + 1, owner')
  {
    assert sorted[..n + 1] == sorted[..n] + [sorted[n]];
  }

  /** The entries `rs` of route `r` are settled at the Gateway as `out`, the others untouched. */
  ghost predicate SettledAt(routes: Routes, pre: Results, g: Key, r: Key, rs: seq<ParentResult>, out: seq<ParentResult>)
    requires r in routes
  {
    |out| == |rs| && forall i :: 0 <= i < |rs| ==>
      if rs[i].gateway == g then Settled(routes, pre, r, rs[i], out[i]) else out[i] == rs[i]
  }

  /** One route's turn: it loses everything at the Gateway, or claims its modules. */
  method SettleRoute(routes: Routes, ghost pre: Results, g: Key, ghost sorted: seq<Key>, ghost n: nat,
      owner: map<string, Key>, r: Key, rs: seq<ParentResult>)
    returns (out: seq<ParentResult>, owner': map<string, Key>)
    requires InAgeOrder(routes, pre, g, sorted) && n < |sorted| && r == sorted[n] && r in routes
    requires OwnerOk(routes, pre, g, sorted, n, owner)
    ensures OwnerOk(routes, pre, g, sorted, n + 1, owner')
    ensures SettledAt(routes, pre, g, r, rs, out)
  {
    var modules := Modules(routes, r);
    var k := FindTaken(modules, owner);
    Verdict(routes, pre, g, sorted, n, owner, k);
    if k < |modules| {
      out := FlipAll(rs, g, modules[k], owner[modules[k]]);
      LoserSettled(routes, pre, g, r, k, owner[modules[k]], rs, out);
      LoserOwnsNothing(routes, pre, g, sorted, n, owner);
      owner' := owner;
    } else {
      owner' := ClaimAll(owner, modules, r);
      OwnerGrows(routes, pre, g, sorted, n, owner, owner');
      SurvivorSettled(routes, pre, g, r, rs);
      out := rs;
    }
  }

  /** The same, with the results rewritten in place. */
  method ResolveRoute(routes: Routes, ghost pre: Results, ghost start: Results, now: Results, g: Key,
      ghost sorted: seq<Key>, ghost n: nat, owner: map<string, Key>, r: Key)
    returns (now': Results, owner': map<string, Key>)
    requires pre.Keys <= routes.Keys && InAgeOrder(routes, pre, g, sorted) && n < |sorted| && r == sorted[n]
    requires OwnerOk(routes, pre, g, sorted, n, owner)
    requires Progress(routes, pre, g, Elems(sorted[..n]), start, now)
    ensures OwnerOk(routes, pre, g, sorted, n + 1, owner')
    ensures Progress(routes, pre, g, Elems(sorted[..n + 1]), start, now')
  {
    assert r in sorted;
    NotYetSeen(routes, pre, g, sorted, n);
    Prefix(sorted, n);
    var out;
    out, owner' := SettleRoute(routes, pre, g, sorted, n, owner, r, now[r]);
    now' := now[r := out];
    ProgressGrows(routes, pre, g, Elems(sorted[..n]), r, start, now, now');
  }

  method ResolveOn(routes: Routes, ghost pre: Results, start: Results, g: Key, sorted: seq<Key>) returns (results: Results)
    requires pre.Keys <= routes.Keys && SameShape(pre, start) && InAgeOrder(routes, pre, g, sorted)
    ensures Progress(routes, pre, g, Elems(sorted), start, results)
  {
    results := start;
    var owner: map<string, Key> := map[];
    for n := 0 to |sorted|
      invariant OwnerOk(routes, pre, g, sorted, n, owner)
      invariant Progress(routes, pre, g, Elems(sorted[..n]), start, results)
    {
      results, owner := ResolveRoute(routes, pre, start, results, g, sorted, n, owner, sorted[n]);
    }
    assert sorted[..|sorted|] == sorted;
  }

  // ---------------------------------------------------------------- every Gateway

  /** Results at the Gateways in `done` are settled, all others are as they were. */
  ghost predicate DoneAt(routes: Routes, pre: Results, done: set<Key>, now: Results)
    requires pre.Keys <= routes.Keys
  {
    && SameShape(pre, now)
    && forall r, i :: r in pre && 0 <= i < |pre[r]| ==>
         if pre[r][i].gateway in done then Settled(routes, pre, r, pre[r][i], now[r][i])
         else now[r][i] == pre[r][i]
  }

  lemma GatewayDone(routes: Routes, pre: Results, done: set<Key>, g: Key, sorted: seq<Key>, now: Results, now': Results)
    requires pre.Keys <= routes.Keys && DoneAt(routes, pre, done, now) && g !in done
    requires InAgeOrder(routes, pre, g, sorted)
    requires Progress(routes, pre, g, Elems(sorted), now, now')
    ensures DoneAt(routes, pre, done + {g}, now')
  {
    forall r, i | r in pre && 0 <= i < |pre[r]|
      ensures if pre[r][i].gateway in done + {g} then Settled(routes, pre, r, pre[r][i], now'[r][i])
              else now'[r][i] == pre[r][i]
    {
      assert Settled(routes, pre, r, pre[r][i], now[r][i]) || now[r][i] == pre[r][i];
      assert now[r][i].gateway == pre[r][i].gateway;
      if pre[r][i].gateway == g && r !in sorted {
        assert !pre[r][i].accepted;
      }
    }
  }

  /** Conflicts nowhere else: an unlisted Gateway has no bound route. */
  lemma AllDone(routes: Routes, pre: Results, bound: map<Key, seq<Key>>, now: Results)
    requires pre.Keys <= routes.Keys && BoundLists(pre, pre.Keys, bound) && DoneAt(routes, pre, bound.Keys, now)
    ensures Solution(routes, pre, now)
  {
    forall r, i | r in pre && 0 <= i < |pre[r]| ensures Settled(routes, pre, r, pre[r][i], now[r][i]) {
      var g := pre[r][i].gateway;
      if g !in bound {
        assert BoundList(pre, pre.Keys, g, Listed(bound, g));
        assert r !in Listed(bound, g);
        assert !pre[r][i].accepted;
      }
    }
  }

  /** Whatever order routes and Gateways are visited in, the result is the solution. */
  method ResolveModuleConflicts(routes: Routes, pre: Results) returns (results: Results)
    requires pre.Keys <= routes.Keys
    ensures results == SolutionOf(routes, pre)
  {
    var bound := CollectBound(pre);
    results := pre;
    var todo := bound.Keys;
    while todo != {}
      invariant todo <= bound.Keys && DoneAt(routes, pre, bound.Keys - todo, results)
      decreases todo
    {
      var g :| g in todo;
      assert BoundList(pre, pre.Keys, g, Listed(bound, g));
      forall i | 0 <= i < |bound[g]| ensures bound[g][i] in routes {
        assert bound[g][i] in Listed(bound, g);
      }
      SortByAgeOk(routes, pre, g, bound[g]);
      var sorted := SortByAge(routes, bound[g]);
      var results' := ResolveOn(routes, pre, results, g, sorted);
      GatewayDone(routes, pre, bound.Keys - todo, g, sorted, results, results');
      assert bound.Keys - (todo - {g}) == bound.Keys - todo + {g};
      results, todo := results', todo - {g};
    }
    assert bound.Keys - todo == bound.Keys;
    AllDone(routes, pre, bound, results);
    SolutionIsUnique(routes, pre, results, SolutionOf(routes, pre));
  }

  // ---------------------------------------------------------------- binding every route

  ghost function PreOf(env: Env, snap: Snapshot, claims: map<string, Claim>): Results {
    map r | r in snap.routes :: BindParents(env, snap, claims, r, snap.routes[r])
  }

  ghost function ResultsOf(env: Env, snap: Snapshot, claims: map<string, Claim>): Results {
    SolutionOf(snap.routes, PreOf(env, snap, claims))
  }

  /** The binding results do not depend on the order in which anything is visited. */
  method BindRoutes(env: Env, snap: Snapshot, claims: map<string, Claim>) returns (results: Results)
    ensures results == ResultsOf(env, snap, claims)
  {
    var pre: Results := map[];
    var todo := snap.routes.Keys;
    while todo != {}
      invariant todo <= snap.routes.Keys && pre.Keys == snap.routes.Keys - todo
      invariant forall r :: r in pre ==> pre[r] == BindParents(env, snap, claims, r, snap.routes[r])
      decreases todo
    {
      var r :| r in todo;
      var perParent := [];
      var refs := snap.routes[r].parentRefs;
      for i := 0 to |refs|
        invariant |perParent| == i
        invariant forall j :: 0 <= j < i ==> perParent[j] == BindParent(env, snap, claims, r, snap.routes[r], refs[j])
      {
        perParent := perParent + [BindParent(env, snap, claims, r, snap.routes[r], refs[i])];
      }
      assert perParent == BindParents(env, snap, claims, r, snap.routes[r]);
      pre := pre[r := perParent];
      todo := todo - {r};
    }
    assert pre == PreOf(env, snap, claims);
    results := ResolveModuleConflicts(snap.routes, pre);
  }

  // ---------------------------------------------------------------- what the solution means

  /** A result is accepted afterwards exactly when it was before and its route survives at
      that Gateway; so all of a loser's entries there flip together, naming one older
      surviving route that serves the blamed module, and every other entry is untouched. */
  lemma SolutionMeaning(routes: Routes, pre: Results, r: Key, i: nat)
    requires pre.Keys <= routes.Keys && r in pre && i < |pre[r]|
    ensures var before, after := pre[r][i], SolutionOf(routes, pre)[r][i];
      var g := before.gateway;
      && (after.accepted <==> before.accepted && Survives(routes, pre, g, r))
      && (after != before ==>
            before.accepted && exists k: nat, q ::
              && Blame(routes, pre, g, r, k, q) && Older(routes, q, r)
              && Survives(routes, pre, g, q) && Modules(routes, r)[k] in Modules(routes, q)
              && after == Conflicted(before, Modules(routes, r)[k], q))
  {
    var before, after := pre[r][i], SolutionOf(routes, pre)[r][i];
    assert Settled(routes, pre, r, before, after);
    if before.accepted && !Survives(routes, pre, before.gateway, r) {
      var k: nat, q :| Blame(routes, pre, before.gateway, r, k, q) && after == Conflicted(before, Modules(routes, r)[k], q);
      assert Owns(routes, pre, before.gateway, r, Modules(routes, r)[k], q);
    }
  }

  // ---------------------------------------------------------------- who wins, written out

  /** Route `a` comes before `b`: created earlier, or at the same time with the lesser text. */
  predicate FirstCome(routes: Routes, a: Key, b: Key)
    requires a in routes && b in routes
  {
    || routes[a].created < routes[b].created
    || (routes[a].created == routes[b].created && StringLess(a.ns + "/" + a.name, b.ns + "/" + b.name))
  }

  predicate ServesModule(key: Key, route: Route, m: string) {
    if |route.moduleNames| == 0 then m == key.name else m in route.moduleNames
  }

  /** Both routes serve some module: one of its listed names or, with none listed, its own. */
  ghost predicate Clash(routes: Routes, a: Key, b: Key)
    requires a in routes && b in routes
  {
    exists m :: ServesModule(a, routes[a], m) && ServesModule(b, routes[b], m)
  }

  lemma ServesModuleIff(key: Key, route: Route, m: string)
    ensures ServesModule(key, route, m) <==> m in EffectiveModules(key, route)
  {
  }

  lemma ClashIsShare(routes: Routes, a: Key, b: Key)
    requires a in routes && b in routes
    ensures Clash(routes, a, b) <==> Share(routes, a, b)
  {
    forall m ensures ServesModule(a, routes[a], m) <==> m in Modules(routes, a) {}
    forall m ensures ServesModule(b, routes[b], m) <==> m in Modules(routes, b) {}
  }

  /** No route that came first and is accepted at the Gateway serves a module of `r`. */
  ghost predicate Unchallenged(routes: Routes, results: Results, g: Key, r: Key)
    requires r in routes
  {
    forall q :: q in routes && FirstCome(routes, q, r) && Bound(results, g, q) ==> !Clash(routes, q, r)
  }

  /** Accepted at a Gateway after resolution means surviving there. */
  lemma BoundAfterIff(routes: Routes, pre: Results, g: Key, q: Key)
    requires pre.Keys <= routes.Keys && q in routes
    ensures Bound(SolutionOf(routes, pre), g, q) <==> Survives(routes, pre, g, q)
  {
    var results: Results := SolutionOf(routes, pre);
    if Bound(results, g, q) {
      var i :| 0 <= i < |results[q]| && results[q][i].accepted && results[q][i].gateway == g;
      SolutionMeaning(routes, pre, q, i);
    }
    if Survives(routes, pre, g, q) {
      var i :| 0 <= i < |pre[q]| && pre[q][i].accepted && pre[q][i].gateway == g;
      SolutionMeaning(routes, pre, q, i);
      assert results[q][i].accepted && results[q][i].gateway == g;
    }
  }

  lemma NoElderSharesIff(routes: Routes, pre: Results, g: Key, r: Key)
    requires pre.Keys <= routes.Keys && r in routes && Bound(pre, g, r)
    ensures Survives(routes, pre, g, r) <==> Unchallenged(routes, SolutionOf(routes, pre), g, r)
  {
    forall q | q in routes
      ensures q in Elders(routes, r) <==> FirstCome(routes, q, r)
      ensures Bound(SolutionOf(routes, pre), g, q) <==> Survives(routes, pre, g, q)
      ensures Clash(routes, q, r) <==> Share(routes, q, r)
    {
      BoundAfterIff(routes, pre, g, q);
      ClashIsShare(routes, q, r);
    }
  }

  lemma ConflictedIs(res: ParentResult, m: string, winner: Key)
    ensures Conflicted(res, m, winner) ==
      res.(accepted := false, reason := "ModuleConflicted", message := Conflicted(res, m, winner).message)
    ensures Conflicted(res, m, winner).message == "module " + ("\"" + m + "\"") + " is already claimed by route "
      + ("\"" + (winner.ns + "/" + winner.name) + "\"") + " on Gateway " + (res.gateway.ns + "/" + res.gateway.name)
  {
  }

  /** After resolution an entry is accepted exactly when it was before and no route that came
      first and is still accepted at that Gateway serves a module of this one. Nothing else
      about an entry changes but the reason and message of a loser. */
  lemma WinnersIff(routes: Routes, pre: Results, r: Key, i: nat)
    requires pre.Keys <= routes.Keys && r in pre && i < |pre[r]|
    ensures var before, after := pre[r][i], SolutionOf(routes, pre)[r][i];
      && (after.accepted <==> before.accepted && Unchallenged(routes, SolutionOf(routes, pre), before.gateway, r))
      && (after.accepted == before.accepted ==> after == before)
      && (after.accepted != before.accepted ==> after == before.(accepted := false, reason := "ModuleConflicted", message := after.message))
  {
    SolutionMeaning(routes, pre, r, i);
    forall m, q { ConflictedIs(pre[r][i], m, q); }
    if pre[r][i].accepted {
      assert Bound(pre, pre[r][i].gateway, r);
      NoElderSharesIff(routes, pre, pre[r][i].gateway, r);
    }
  }

  /** The route that came first of all bound to a Gateway stays accepted there. */
  lemma FirstStays(routes: Routes, pre: Results, r: Key, i: nat)
    requires pre.Keys <= routes.Keys && r in pre && i < |pre[r]| && pre[r][i].accepted
    requires forall q :: q in routes && q != r && Bound(pre, pre[r][i].gateway, q) ==> FirstCome(routes, r, q)
    ensures SolutionOf(routes, pre)[r][i] == pre[r][i]
  {
    var g := pre[r][i].gateway;
    WinnersIff(routes, pre, r, i);
    AgedLessIsStrictTotal();
    forall q | q in routes && FirstCome(routes, q, r) ensures !Bound(SolutionOf(routes, pre), g, q) {
      BoundAfterIff(routes, pre, g, q);
      var x, y := Tag(routes, q), Tag(routes, r);
      assert AgedLess(x, y) && !AgedLess(y, y) && !AgedLess(y, x);
    }
  }

  /** Two different routes accepted at one Gateway serve disjoint modules. */
  lemma AcceptedAreDisjoint(routes: Routes, pre: Results, g: Key, a: Key, b: Key)
    requires pre.Keys <= routes.Keys && a != b
    requires Bound(SolutionOf(routes, pre), g, a) && Bound(SolutionOf(routes, pre), g, b)
    ensures !Share(routes, a, b)
  {
    var results: Results := SolutionOf(routes, pre);
    var i :| 0 <= i < |results[a]| && results[a][i].accepted && results[a][i].gateway == g;
    var j :| 0 <= j < |results[b]| && results[b][j].accepted && results[b][j].gateway == g;
    SolutionMeaning(routes, pre, a, i);
    SolutionMeaning(routes, pre, b, j);
    SurvivorsDisjoint(routes, pre, g, a, b);
  }

  // ---------------------------------------------------------------- no preemption

  /** What resolution looks at in a route. */
  predicate SameClaims(r: Key, a: Route, b: Route) {
    a.created == b.created && EffectiveModules(r, a) == EffectiveModules(r, b)
  }

  /** `routes'` keeps the routes of `routes` and their bindings; the others are younger. */
  ghost predicate AddsYounger(routes: Routes, routes': Routes, pre: Results, pre': Results) {
    && (forall r :: r in routes ==> r in routes' && SameClaims(r, routes[r], routes'[r]))
    && (forall r :: r in routes ==> (r in pre <==> r in pre') && (r in pre ==> pre'[r] == pre[r]))
    && (forall q, r :: q in routes' && q !in routes && r in routes ==> Older(routes', r, q))
  }

  lemma EldersFrame(routes: Routes, routes': Routes, pre: Results, pre': Results, r: Key)
    requires AddsYounger(routes, routes', pre, pre') && r in routes
    ensures Elders(routes', r) == Elders(routes, r)
  {
    AgedLessIsStrictTotal();
    forall q | q in routes' ensures q in Elders(routes', r) <==> q in Elders(routes, r) {
      if q in routes {
        assert Tag(routes', q) == Tag(routes, q) && Tag(routes', r) == Tag(routes, r);
      } else {
        var young, old_ := Tag(routes', q), Tag(routes', r);
        assert AgedLess(old_, young) && !AgedLess(old_, old_);
        assert !AgedLess(young, old_);
      }
    }
  }

  lemma {:induction false} SurvivesFrame(routes: Routes, routes': Routes, pre: Results, pre': Results, g: Key, r: Key)
    requires AddsYounger(routes, routes', pre, pre') && r in routes
    ensures Survives(routes', pre', g, r) <==> Survives(routes, pre, g, r)
    decreases Elders(routes, r)
  {
    EldersFrame(routes, routes', pre, pre', r);
    forall q | q in Elders(routes, r)
      ensures Survives(routes', pre', g, q) <==> Survives(routes, pre, g, q)
      ensures Share(routes', q, r) <==> Share(routes, q, r)
    {
      EldersShrink(routes, q, r);
      SurvivesFrame(routes, routes', pre, pre', g, q);
      assert Modules(routes', q) == Modules(routes, q) && Modules(routes', r) == Modules(routes, r);
    }
    assert Bound(pre', g, r) <==> Bound(pre, g, r);
  }

  lemma OwnsFrame(routes: Routes, routes': Routes, pre: Results, pre': Results, g: Key, r: Key, m: string)
    requires AddsYounger(routes, routes', pre, pre') && r in routes
    ensures forall q :: Owns(routes', pre', g, r, m, q) <==> Owns(routes, pre, g, r, m, q)
    ensures Taken(routes', pre', g, r, m) <==> Taken(routes, pre, g, r, m)
  {
    EldersFrame(routes, routes', pre, pre', r);
    forall q ensures Owns(routes', pre', g, r, m, q) <==> Owns(routes, pre, g, r, m, q) {
      if q in Elders(routes, r) {
        SurvivesFrame(routes, routes', pre, pre', g, q);
        assert Modules(routes', q) == Modules(routes, q);
      }
    }
  }

  lemma BlameFrame(routes: Routes, routes': Routes, pre: Results, pre': Results, g: Key, r: Key, k: nat, q: Key)
    requires AddsYounger(routes, routes', pre, pre') && r in routes
    requires Blame(routes, pre, g, r, k, q)
    ensures Blame(routes', pre', g, r, k, q)
  {
    assert Modules(routes', r) == Modules(routes, r);
    OwnsFrame(routes, routes', pre, pre', g, r, Modules(routes, r)[k]);
    forall j | 0 <= j < k ensures !Taken(routes', pre', g, r, Modules(routes', r)[j]) {
      OwnsFrame(routes, routes', pre, pre', g, r, Modules(routes, r)[j]);
    }
  }

  lemma SettledFrame(routes: Routes, routes': Routes, pre: Results, pre': Results, r: Key, before: ParentResult, after: ParentResult)
    requires AddsYounger(routes, routes', pre, pre') && r in routes
    requires Settled(routes, pre, r, before, after)
    ensures Settled(routes', pre', r, before, after)
  {
    var g := before.gateway;
    SurvivesFrame(routes, routes', pre, pre', g, r);
    if before.accepted && !Survives(routes, pre, g, r) {
      var k: nat, q :| Blame(routes, pre, g, r, k, q) && after == Conflicted(before, Modules(routes, r)[k], q);
      BlameFrame(routes, routes', pre, pre', g, r, k, q);
      assert Modules(routes', r) == Modules(routes, r);
    }
  }

  /** The solution for a route depends on nothing younger. */
  lemma SolutionFrame(routes: Routes, routes': Routes, pre: Results, pre': Results, r: Key)
    requires AddsYounger(routes, routes', pre, pre') && r in pre
    requires pre.Keys <= routes.Keys && pre'.Keys <= routes'.Keys
    ensures SolutionOf(routes', pre')[r] == SolutionOf(routes, pre)[r]
  {
    var a: Results, b: Results := SolutionOf(routes, pre), SolutionOf(routes', pre');
    forall i | 0 <= i < |a[r]| ensures b[r][i] == a[r][i] {
      SettledFrame(routes, routes', pre, pre', r, pre[r][i], a[r][i]);
      SettledIsUnique(routes', pre', r, pre[r][i], a[r][i], b[r][i]);
    }
  }

  predicate SameRoute(a: Route, b: Route) {
    && a.created == b.created && a.labels == b.labels && a.generation == b.generation
    && a.parentRefs == b.parentRefs && a.moduleNames == b.moduleNames && a.backendRefs == b.backendRefs
  }

  /** What binding looks at in a Gateway and in a route. */
  predicate SameGateway(a: Gateway, b: Gateway) {
    a.className == b.className && a.listeners == b.listeners
  }

  ghost predicate SameGateways(snap: Snapshot, snap': Snapshot) {
    && snap.gateways.Keys == snap'.gateways.Keys
    && forall g :: g in snap.gateways ==> SameGateway(snap.gateways[g], snap'.gateways[g])
  }

  lemma {:induction false} SameAttach(env: Env, ls: seq<Listener>, gatewayNs: string, key: Key, a: Route, b: Route)
    requires SameRoute(a, b)
    ensures Attach(env, ls, gatewayNs, key, b) == Attach(env, ls, gatewayNs, key, a)
  {
    if ls == [] {
    } else {
      SameAttach(env, ls[1..], gatewayNs, key, a, b);
    }
  }

  /** Binding one reference looks at no other route, and at no status. */
  lemma SameBinding(env: Env, snap: Snapshot, snap': Snapshot, claims: map<string, Claim>, key: Key, a: Route, b: Route, ref: ParentRef)
    requires SameGateways(snap, snap') && SameRoute(a, b)
    ensures BindParent(env, snap', claims, key, b, ref) == BindParent(env, snap, claims, key, a, ref)
  {
    var gk := GatewayKey(key, ref);
    if gk in snap.gateways {
      assert SameGateway(snap.gateways[gk], snap'.gateways[gk]);
      SameAttach(env, Candidates(snap.gateways[gk], ref), gk.ns, key, a, b);
    }
  }

  lemma SameBindings(env: Env, snap: Snapshot, snap': Snapshot, claims: map<string, Claim>, r: Key)
    requires SameGateways(snap, snap') && r in snap.routes && r in snap'.routes && SameRoute(snap.routes[r], snap'.routes[r])
    ensures PreOf(env, snap', claims)[r] == PreOf(env, snap, claims)[r]
  {
    var refs := snap.routes[r].parentRefs;
    forall i | 0 <= i < |refs| ensures PreOf(env, snap', claims)[r][i] == PreOf(env, snap, claims)[r][i] {
      SameBinding(env, snap, snap', claims, r, snap.routes[r], snap'.routes[r], refs[i]);
    }
  }

  lemma AddedAreYounger(env: Env, snap: Snapshot, claims: map<string, Claim>, added: Routes)
    requires snap.routes.Keys !! added.Keys
    requires forall x, n :: x in snap.routes && n in added ==> FirstCome(snap.routes + added, x, n)
    ensures var snap' := snap.(routes := snap.routes + added);
      AddsYounger(snap.routes, snap'.routes, PreOf(env, snap, claims), PreOf(env, snap', claims))
  {
    var snap' := snap.(routes := snap.routes + added);
    forall x | x in snap.routes ensures PreOf(env, snap', claims)[x] == PreOf(env, snap, claims)[x] {
      SameBindings(env, snap, snap', claims, x);
    }
    forall q, r | q in snap'.routes && q !in snap.routes && r in snap.routes ensures Older(snap'.routes, r, q) {
      assert q in added && FirstCome(snap.routes + added, r, q);
    }
  }

  /** Adding routes younger than all others, ties broken by name, changes no binding result
      of any existing route on any Gateway. */
  lemma NoPreemption(env: Env, snap: Snapshot, claims: map<string, Claim>, added: Routes, r: Key)
    requires snap.routes.Keys !! added.Keys && r in snap.routes
    requires forall x, n :: x in snap.routes && n in added ==> FirstCome(snap.routes + added, x, n)
    ensures ResultsOf(env, snap.(routes := snap.routes + added), claims)[r] == ResultsOf(env, snap, claims)[r]
  {
    var snap' := snap.(routes := snap.routes + added);
    AddedAreYounger(env, snap, claims, added);
    SolutionFrame(snap.routes, snap'.routes, PreOf(env, snap, claims), PreOf(env, snap', claims), r);
  }

  /** Binding results depend on no status. */
  lemma BindingIgnoresStatus(env: Env, snap: Snapshot, snap': Snapshot, claims: map<string, Claim>)
    requires SameGateways(snap, snap') && snap.routes.Keys == snap'.routes.Keys
    requires forall r :: r in snap.routes ==> SameRoute(snap.routes[r], snap'.routes[r])
    ensures ResultsOf(env, snap', claims) == ResultsOf(env, snap, claims)
  {
    var pre: Results, pre': Results := PreOf(env, snap, claims), PreOf(env, snap', claims);
    forall r | r in snap.routes ensures pre'[r] == pre[r] {
      SameBindings(env, snap, snap', claims, r);
    }
    forall r | r in snap.routes ensures SolutionOf(snap'.routes, pre')[r] == SolutionOf(snap.routes, pre)[r] {
      SolutionFrame(snap.routes, snap'.routes, pre, pre', r);
    }
  }
}

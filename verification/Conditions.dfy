/** Status conditions: carrying timestamps over, merging by type, comparing content. */
module Conditions {
  import opened Ordering
  import opened GatewayApi

  // ---------------------------------------------------------------- comparison

  /** Equal up to LastTransitionTime. */
  predicate SameContent(a: Condition, b: Condition) {
    a.(time := b.time) == b
  }

  predicate ConditionsEqual(cur: seq<Condition>, want: seq<Condition>) {
    |cur| == |want| && forall i :: 0 <= i < |want| ==> SameContent(cur[i], want[i])
  }

  /** A condition reads so, whatever its time. */
  predicate Reads(c: Condition, kind: string, status: Truth, reason: string, message: string, generation: int) {
    c.kind == kind && c.status == status && c.reason == reason && c.message == message && c.generation == generation
  }

  ghost predicate Reports(cs: seq<Condition>, kind: string, status: Truth, reason: string, message: string, generation: int) {
    exists i :: 0 <= i < |cs| && Reads(cs[i], kind, status, reason, message, generation)
  }

  /** Lists compare equal exactly when they read the same, condition by condition. */
  lemma ConditionsEqualIff(a: seq<Condition>, b: seq<Condition>)
    ensures ConditionsEqual(a, b) <==>
      |a| == |b| && forall i :: 0 <= i < |a| ==> Reads(a[i], b[i].kind, b[i].status, b[i].reason, b[i].message, b[i].generation)
  {
  }

  // ---------------------------------------------------------------- timestamps

  /** `c` with the time of the first existing condition of its type and status, or `now`. */
  function StableCondition(existing: seq<Condition>, c: Condition, now: int): (r: Condition)
    ensures SameContent(r, c)
  {
    if existing == [] then c.(time := now)
    else if existing[0].kind == c.kind && existing[0].status == c.status then c.(time := existing[0].time)
    else StableCondition(existing[1..], c, now)
  }

  predicate SameVerdict(a: Condition, b: Condition) {
    a.kind == b.kind && a.status == b.status
  }

  /** The time is kept while type and status stay: it is that of the first existing condition of
      the same type and status, and the present one when there is none. */
  lemma {:induction false} StableTime(existing: seq<Condition>, c: Condition, now: int, i: nat)
    requires i <= |existing| && (forall j :: 0 <= j < i ==> !SameVerdict(existing[j], c))
    requires i < |existing| ==> SameVerdict(existing[i], c)
    ensures StableCondition(existing, c, now).time == if i < |existing| then existing[i].time else now
  {
    if i == 0 {
    } else {
      assert !SameVerdict(existing[0], c);
      assert forall j :: 0 <= j < i - 1 ==> existing[1..][j] == existing[j + 1];
      StableTime(existing[1..], c, now, i - 1);
    }
  }

  // ---------------------------------------------------------------- merging

  function Find(cs: seq<Condition>, kind: string): Option<Condition> {
    if cs == [] then None else if cs[0].kind == kind then Some(cs[0]) else Find(cs[1..], kind)
  }

  function Replacement(want: seq<Condition>, c: Condition): Condition {
    var w := Find(want, c.kind);
    if w.Some? then w.value else c
  }

  /** Existing entries, each replaced by the wanted one of its type. */
  function Replaced(cur: seq<Condition>, want: seq<Condition>): (r: seq<Condition>) {
    seq(|cur|, i requires 0 <= i < |cur| => Replacement(want, cur[i]))
  }

  function WithMissing(out: seq<Condition>, want: seq<Condition>): seq<Condition> {
    if want == [] then out
    else
      var front, w := WithMissing(out, want[..|want| - 1]), want[|want| - 1];
      if Find(front, w.kind).Some? then front else front + [w]
  }

  function Merged(cur: seq<Condition>, want: seq<Condition>): seq<Condition> {
    WithMissing(Replaced(cur, want), want)
  }

  method FindCondition(cs: seq<Condition>, kind: string) returns (c: Option<Condition>)
    ensures c == Find(cs, kind)
  {
    for i := 0 to |cs|
      invariant Find(cs, kind) == Find(cs[i..], kind)
    {
      if cs[i].kind == kind { return Some(cs[i]); }
    }
    return None;
  }

  method MergeConditions(cur: seq<Condition>, want: seq<Condition>) returns (out: seq<Condition>)
    ensures out == Merged(cur, want)
  {
    out := [];
    for i := 0 to |cur|
      invariant |out| == i && forall j :: 0 <= j < i ==> out[j] == Replacement(want, cur[j])
    {
      var w := FindCondition(want, cur[i].kind);
      out := out + [if w.Some? then w.value else cur[i]];
    }
    assert out == Replaced(cur, want);
    for i := 0 to |want|
      invariant out == WithMissing(Replaced(cur, want), want[..i])
    {
      assert want[..i + 1][..i] == want[..i];
      var c := FindCondition(out, want[i].kind);
      if c.None? { out := out + [want[i]]; }
    }
    assert want[..|want|] == want;
  }

  // ---------------------------------------------------------------- what a merge comes to

  lemma {:induction false} FindFinds(cs: seq<Condition>, kind: string)
    ensures Find(cs, kind).None? <==> forall c :: c in cs ==> c.kind != kind
    ensures Find(cs, kind).Some? ==> Find(cs, kind).value in cs && Find(cs, kind).value.kind == kind
  {
    if cs == [] {
    } else {
      FindFinds(cs[1..], kind);
      assert cs == [cs[0]] + cs[1..];
    }
  }

  /** `cs` has a condition of `w`'s type, and every one it has is `w`. */
  ghost predicate Carries(cs: seq<Condition>, w: Condition) {
    w in cs && forall c :: c in cs && c.kind == w.kind ==> c == w
  }

  /** A later condition of the same type comes after the one that is found. */
  lemma {:induction false} FirstIsBefore(cs: seq<Condition>, k: nat, w: Condition)
    requires k < |cs| && cs[k].kind == w.kind && cs[k] != w && Find(cs, w.kind) == Some(w)
    ensures w in cs[..k]
  {
    if cs[0].kind == w.kind {
      assert cs[..k][0] == w;
    } else {
      FirstIsBefore(cs[1..], k - 1, w);
      assert cs[..k] == [cs[0]] + cs[1..][..k - 1];
    }
  }

  /** Appending what is missing adds only wanted types, and leaves none out. */
  lemma {:induction false} WithMissingCarries(out: seq<Condition>, want: seq<Condition>, n: nat, w: Condition)
    requires n <= |want| && Find(want, w.kind) == Some(w)
    requires forall c :: c in out && c.kind == w.kind ==> c == w
    ensures var r := WithMissing(out, want[..n]);
      && (forall c :: c in r && c.kind == w.kind ==> c == w)
      && (w in want[..n] ==> w in r)
  {
    if n == 0 {
    } else {
      WithMissingCarries(out, want, n - 1, w);
      assert want[..n][..n - 1] == want[..n - 1];
      var front, x := WithMissing(out, want[..n - 1]), want[n - 1];
      FindFinds(front, x.kind);
      if x.kind == w.kind && x != w { FirstIsBefore(want, n - 1, w); }
    }
  }

  /** After a merge, the first wanted condition of each type is the only one of its type. */
  lemma MergedCarries(cur: seq<Condition>, want: seq<Condition>, w: Condition)
    requires Find(want, w.kind) == Some(w)
    ensures Carries(Merged(cur, want), w)
  {
    FindFinds(want, w.kind);
    forall c | c in Replaced(cur, want) && c.kind == w.kind ensures c == w {
      var i :| 0 <= i < |cur| && c == Replacement(want, cur[i]);
      FindFinds(want, cur[i].kind);
    }
    WithMissingCarries(Replaced(cur, want), want, |want|, w);
    assert want[..|want|] == want;
  }

  lemma {:induction false} NothingMissing(cs: seq<Condition>, want: seq<Condition>)
    requires forall w :: w in want ==> Carries(cs, w)
    ensures WithMissing(cs, want) == cs
  {
    if want == [] {
    } else {
      var w := want[|want| - 1];
      NothingMissing(cs, want[..|want| - 1]);
      FindFinds(cs, w.kind);
      assert w in want;
    }
  }

  /** A list that carries what is wanted is left alone. */
  lemma MergedStays(cs: seq<Condition>, want: seq<Condition>)
    requires forall w :: w in want ==> Carries(cs, w)
    ensures Merged(cs, want) == cs
  {
    forall i | 0 <= i < |cs| ensures Replacement(want, cs[i]) == cs[i] {
      FindFinds(want, cs[i].kind);
    }
    assert Replaced(cs, want) == cs;
    NothingMissing(cs, want);
  }

  /** The time of a carried condition is taken over. */
  lemma {:induction false} StableKeeps(cs: seq<Condition>, w: Condition, c: Condition, now: int)
    requires Carries(cs, w) && SameContent(w, c)
    ensures StableCondition(cs, c, now) == w
  {
    assert cs == [cs[0]] + cs[1..];
    if cs[0].kind != w.kind {
      StableKeeps(cs[1..], w, c, now);
    } else {
      assert cs[0] == w;
    }
  }

  /** The types of a list of conditions. */
  function Kinds(cs: seq<Condition>): seq<string> {
    seq(|cs|, i requires 0 <= i < |cs| => cs[i].kind)
  }

  lemma KindsFind(cs: seq<Condition>, kind: string)
    ensures kind in Kinds(cs) <==> Find(cs, kind).Some?
  {
    FindFinds(cs, kind);
    if kind in Kinds(cs) {
      var i :| 0 <= i < |cs| && Kinds(cs)[i] == kind;
      assert cs[i] in cs;
    }
    if Find(cs, kind).Some? {
      var i :| 0 <= i < |cs| && cs[i] == Find(cs, kind).value;
      assert Kinds(cs)[i] == kind;
    }
  }

  /** The conditions of other types. */
  function Others(cs: seq<Condition>, kinds: seq<string>): seq<Condition> {
    if cs == [] then []
    else
      var front, c := Others(cs[..|cs| - 1], kinds), cs[|cs| - 1];
      if c.kind in kinds then front else front + [c]
  }

  lemma {:induction false} ReplacedKeepsOthers(cur: seq<Condition>, want: seq<Condition>)
    ensures Others(Replaced(cur, want), Kinds(want)) == Others(cur, Kinds(want))
  {
    if cur == [] {
    } else {
      var front, c := cur[..|cur| - 1], cur[|cur| - 1];
      ReplacedKeepsOthers(front, want);
      assert Replaced(cur, want) == Replaced(front, want) + [Replacement(want, c)];
      FindFinds(want, c.kind);
      KindsFind(want, c.kind);
    }
  }

  lemma {:induction false} MissingKeepsOthers(out: seq<Condition>, want: seq<Condition>, n: nat)
    requires n <= |want|
    ensures Others(WithMissing(out, want[..n]), Kinds(want)) == Others(out, Kinds(want))
  {
    if n == 0 {
    } else {
      MissingKeepsOthers(out, want, n - 1);
      assert want[..n][..n - 1] == want[..n - 1];
      var front, w := WithMissing(out, want[..n - 1]), want[n - 1];
      assert Kinds(want)[n - 1] == w.kind;
      assert (front + [w])[..|front|] == front;
    }
  }

  /** A merge keeps the conditions of other types, in order. */
  lemma MergedKeepsOthers(cur: seq<Condition>, want: seq<Condition>)
    ensures Others(Merged(cur, want), Kinds(want)) == Others(cur, Kinds(want))
  {
    ReplacedKeepsOthers(cur, want);
    MissingKeepsOthers(Replaced(cur, want), want, |want|);
    assert want[..|want|] == want;
  }

  // ---------------------------------------------------------------- recording one condition

  /** The conditions of a class or a configuration after its Accepted condition is recorded:
      they are replaced unless that condition is all there is. */
  function Recorded(cur: seq<Condition>, c: Condition, now: int): seq<Condition> {
    if ConditionsEqual(cur, [c]) then cur else Merged(cur, [StableCondition(cur, c, now)])
  }

  /** At most one condition, of the given type. */
  predicate AtMost(cs: seq<Condition>, kind: string) {
    cs == [] || (|cs| == 1 && cs[0].kind == kind)
  }

  lemma RecordedShape(cur: seq<Condition>, c: Condition, now: int)
    ensures var w := StableCondition(cur, c, now);
      Merged(cur, [w]) == if Find(cur, c.kind).Some? then Replaced(cur, [w]) else cur + [w]
  {
    var w := StableCondition(cur, c, now);
    var out := Replaced(cur, [w]);
    FindFinds(cur, c.kind);
    FindFinds(out, c.kind);
    assert WithMissing(out, [w]) == if Find(out, w.kind).Some? then out else out + [w] by {
      assert [w][..0] == [];
    }
    if Find(cur, c.kind).Some? {
      var x :| x in cur && x.kind == c.kind;
      var i :| 0 <= i < |cur| && cur[i] == x;
      assert out[i] == w;
      assert w in out;
    } else {
      forall i | 0 <= i < |cur| ensures out[i] == cur[i] {
        FindFinds([w], cur[i].kind);
        assert cur[i] in cur;
      }
      assert out == cur;
    }
  }

  /** Once recorded, the condition needs no second write exactly when no other condition,
      and no duplicate, was there to begin with. */
  lemma RecordedSettles(cur: seq<Condition>, c: Condition, now: int)
    ensures ConditionsEqual(Recorded(cur, c, now), [c]) <==> AtMost(cur, c.kind)
  {
    var w := StableCondition(cur, c, now);
    RecordedShape(cur, c, now);
    FindFinds(cur, c.kind);
    if |cur| == 1 {
      assert cur[0] in cur;
      assert |Merged(cur, [w])| == 1 <==> cur[0].kind == c.kind;
    }
  }

  /** What was recorded is reported. */
  lemma RecordedReports(cur: seq<Condition>, c: Condition, now: int)
    ensures Reports(Recorded(cur, c, now), c.kind, c.status, c.reason, c.message, c.generation)
  {
    var cs, w := Recorded(cur, c, now), StableCondition(cur, c, now);
    if ConditionsEqual(cur, [c]) {
      assert SameContent(cs[0], c) && Reads(cs[0], c.kind, c.status, c.reason, c.message, c.generation);
    } else {
      MergedCarries(cur, [w], w);
      var i :| 0 <= i < |cs| && cs[i] == w;
      assert Reads(cs[i], c.kind, c.status, c.reason, c.message, c.generation);
    }
  }

  /** A condition of the same type but other content is not what was recorded. */
  lemma RecordedIsNot(cur: seq<Condition>, c: Condition, c': Condition, now: int)
    requires c.kind == c'.kind && !SameContent(c, c')
    ensures !ConditionsEqual(Recorded(cur, c, now), [c'])
  {
    var w := StableCondition(cur, c, now);
    if !ConditionsEqual(cur, [c]) { MergedCarries(cur, [w], w); }
  }

  /** Recording again changes nothing, even where it writes. */
  lemma RecordedTwice(cur: seq<Condition>, c: Condition, now: int, now': int)
    ensures Recorded(Recorded(cur, c, now), c, now') == Recorded(cur, c, now)
  {
    if !ConditionsEqual(cur, [c]) {
      var w := StableCondition(cur, c, now);
      var cs := Merged(cur, [w]);
      MergedCarries(cur, [w], w);
      StableKeeps(cs, w, c, now');
      MergedStays(cs, [w]);
    }
  }

  /** The conditions after passes at the given clock readings. */
  function RecordedOver(cur: seq<Condition>, c: Condition, clocks: seq<int>): seq<Condition> {
    if clocks == [] then cur else Recorded(RecordedOver(cur, c, clocks[..|clocks| - 1]), c, clocks[|clocks| - 1])
  }

  /** However many passes follow the first, the conditions are what the first made of them, and
      each later pass writes exactly when another condition or a duplicate was there: a foreign
      condition type is rewritten for ever. */
  lemma {:induction false} LaterPasses(cur: seq<Condition>, c: Condition, clocks: seq<int>)
    requires clocks != []
    ensures RecordedOver(cur, c, clocks) == Recorded(cur, c, clocks[0])
    ensures ConditionsEqual(RecordedOver(cur, c, clocks), [c]) <==> AtMost(cur, c.kind)
  {
    var front, now := clocks[..|clocks| - 1], clocks[|clocks| - 1];
    RecordedSettles(cur, c, clocks[0]);
    if front == [] {
      assert RecordedOver(cur, c, front) == cur;
    } else {
      LaterPasses(cur, c, front);
      RecordedTwice(cur, c, clocks[0], now);
    }
  }
}

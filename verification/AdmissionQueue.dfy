/**
 The per-upstream admission queue as a value: the active list, the waiting list, and the
 channel actions each operation performs while it holds the lock.

 A handle is identified with its status channel, and channels are numbered in the order in
 which `Acquire` makes them.
 */
module AdmissionQueue {
  import opened Ordering

  type Handle = nat

  datatype Status = Status(index: int, max: int, ok: bool, full: bool)

  const OK := Status(0, 0, true, false)
  const FULL := Status(0, 0, false, true)

  /** One primitive operation on a status channel: the non-blocking receive at the start of
      `trySend`, a send, or a close. */
  datatype Action = Drain(h: Handle) | Send(h: Handle, s: Status) | Close(h: Handle)

  /** `released` holds the handles whose `released` flag is set; `rejected` those that were
      turned away with Full. */
  datatype State = State(
    max: int, maxQueued: int,
    active: seq<Handle>, queued: seq<Handle>,
    next: nat, released: set<Handle>, rejected: set<Handle>)

  datatype Op = SetMax(max: int, maxQueued: int) | Acquire | Release(h: Handle)

  function New(max: int, maxQueued: int): State {
    State(max, maxQueued, [], [], 0, {}, {})
  }

  predicate HasSlot(q: State) {
    |q.active| < q.max || q.max == 0
  }

  /** The Index broadcast to the waiter at position `i` of the waiting list. */
  function Position(q: State, i: int): int {
    |q.active| - q.max + i
  }

  /** The Max broadcast to every waiter. */
  function Total(q: State): int {
    |q.active| - q.max + |q.queued|
  }

  function PopHead(q: State): State
    requires q.queued != []
  {
    q.(active := q.active + [q.queued[0]], queued := q.queued[1..])
  }

  function PopHeadActions(q: State): seq<Action>
    requires q.queued != []
  {
    [Drain(q.queued[0]), Send(q.queued[0], OK), Close(q.queued[0])]
  }

  function Promote(q: State): State
    decreases |q.queued|
  {
    if q.queued != [] && HasSlot(q) then Promote(PopHead(q)) else q
  }

  function PromoteActions(q: State): seq<Action>
    decreases |q.queued|
  {
    if q.queued != [] && HasSlot(q) then PopHeadActions(q) + PromoteActions(PopHead(q)) else []
  }

  /** The actions of `broadcastStatus` for the first `n` waiters. */
  function BroadcastActions(q: State, n: nat): seq<Action>
    requires n <= |q.queued|
  {
    if n == 0 then [] else
      BroadcastActions(q, n - 1)
      + [Drain(q.queued[n - 1]), Send(q.queued[n - 1], Status(Position(q, n - 1), Total(q), false, false))]
  }

  /** The list without the given handle. */
  function Without(s: seq<Handle>, h: Handle): seq<Handle> {
    if s == [] then [] else
      var front := Without(s[..|s| - 1], h);
      if s[|s| - 1] == h then front else front + [s[|s| - 1]]
  }

  /** The lists and the channel actions of `releaseFromHandle`. */
  function Remove(q: State, h: Handle): State {
    if |Without(q.queued, h)| != |q.queued| then
      q.(queued := Without(q.queued, h))
    else
      Promote(q.(active := Without(q.active, h)))
  }

  function RemoveActions(q: State, h: Handle): seq<Action> {
    if |Without(q.queued, h)| != |q.queued| then
      var q' := q.(queued := Without(q.queued, h));
      BroadcastActions(q', |q'.queued|)
    else
      var q' := q.(active := Without(q.active, h));
      PromoteActions(q') + BroadcastActions(Promote(q'), |Promote(q').queued|)
  }

  /** The state after one operation. Releasing a handle that was never handed out is not
      possible in the program and changes nothing here. */
  function Step(q: State, op: Op): State {
    match op
    case SetMax(max, maxQueued) => Promote(q.(max := max, maxQueued := maxQueued))
    case Acquire =>
      var q' := q.(next := q.next + 1);
      if HasSlot(q) then q'.(active := q.active + [q.next])
      else if q.maxQueued > 0 && |q.queued| >= q.maxQueued then q'.(rejected := q.rejected + {q.next})
      else q'.(queued := q.queued + [q.next])
    case Release(h) =>
      if h >= q.next || h in q.released then q
      else Remove(q.(released := q.released + {h}), h)
  }

  /** The channel actions of one operation, in program order. */
  function Actions(q: State, op: Op): seq<Action> {
    match op
    case SetMax(max, maxQueued) =>
      var q' := q.(max := max, maxQueued := maxQueued);
      PromoteActions(q') + BroadcastActions(Promote(q'), |Promote(q').queued|)
    case Acquire =>
      if HasSlot(q) then [Send(q.next, OK), Close(q.next)]
      else if q.maxQueued > 0 && |q.queued| >= q.maxQueued then [Send(q.next, FULL), Close(q.next)]
      else [Send(q.next, Status(Position(q, |q.queued|), Total(q) + 1, false, false))]
    case Release(h) =>
      if h >= q.next || h in q.released then []
      else RemoveActions(q.(released := q.released + {h}), h)
  }

  /** The state after a whole run of operations. */
  function Run(q: State, ops: seq<Op>): State
    decreases |ops|
  {
    if ops == [] then q else Run(Step(q, ops[0]), ops[1..])
  }

  // ---------------------------------------------------------------- invariant

  function Line(q: State): seq<Handle> {
    q.active + q.queued
  }

  ghost predicate Ascending(s: seq<Handle>) {
    forall i, j :: 0 <= i < j < |s| ==> s[i] < s[j]
  }

  /** Handed out, not rejected, and not yet released. */
  predicate Live(q: State, h: Handle) {
    h < q.next && h !in q.rejected && h !in q.released
  }

  /** The line is the arrival-ordered list of exactly the live handles, and nobody waits
      while a slot is free. */
  ghost predicate Inv(q: State) {
    && Ascending(Line(q))
    && (forall h: Handle :: h in Line(q) <==> Live(q, h))
    && (forall h :: h in q.released ==> h < q.next)
    && (forall h :: h in q.rejected ==> h < q.next)
    && (q.queued != [] ==> !HasSlot(q))
  }

  // ---------------------------------------------------------------- list lemmas

  lemma {:induction false} WithoutContents(s: seq<Handle>, h: Handle)
    ensures forall x :: x in Without(s, h) <==> x in s && x != h
    ensures |Without(s, h)| <= |s|
    ensures h !in s ==> Without(s, h) == s
    ensures h in s ==> |Without(s, h)| < |s|
  {
    if s == [] {
    } else {
      var front := s[..|s| - 1];
      assert s == front + [s[|s| - 1]];
      WithoutContents(front, h);
    }
  }

  /** Active handles arrived before waiting ones. */
  lemma ActiveFirst(q: State)
    requires Ascending(Line(q))
    ensures forall a, b :: a in q.active && b in q.queued ==> a < b
    ensures Ascending(q.active) && Ascending(q.queued)
  {
    forall a, b | a in q.active && b in q.queued ensures a < b {
      var i :| 0 <= i < |q.active| && q.active[i] == a;
      var j :| 0 <= j < |q.queued| && q.queued[j] == b;
      assert Line(q)[i] < Line(q)[|q.active| + j];
    }
    forall i, j | 0 <= i < j < |q.active| ensures q.active[i] < q.active[j] {
      assert Line(q)[i] < Line(q)[j];
    }
    forall i, j | 0 <= i < j < |q.queued| ensures q.queued[i] < q.queued[j] {
      assert Line(q)[|q.active| + i] < Line(q)[|q.active| + j];
    }
  }

  lemma AppendAscending(s: seq<Handle>, h: Handle)
    requires Ascending(s) && forall x :: x in s ==> x < h
    ensures Ascending(s + [h])
  {
    forall i, j | 0 <= i < j < |s + [h]| ensures (s + [h])[i] < (s + [h])[j] {
      if j == |s| {
        assert s[i] in s;
      }
    }
  }

  lemma {:induction false} WithoutAscending(s: seq<Handle>, h: Handle)
    requires Ascending(s)
    ensures Ascending(Without(s, h))
    ensures h in s ==> |Without(s, h)| == |s| - 1
  {
    if s == [] {
    } else {
      var front := s[..|s| - 1];
      assert s == front + [s[|s| - 1]];
      WithoutAscending(front, h);
      WithoutContents(front, h);
      if s[|s| - 1] != h {
        AppendAscending(Without(front, h), s[|s| - 1]);
      }
    }
  }

  /** Where the element in place `i` of `s` is in `t`, which is `s` without `h`. */
  ghost predicate MovedUp(s: seq<Handle>, t: seq<Handle>, h: Handle, i: nat)
    requires i < |s|
  {
    && |t| == (if h in s then |s| - 1 else |s|)
    && (if h in s && h < s[i] then i > 0 && t[i - 1] == s[i] else i < |t| && t[i] == s[i])
  }

  lemma MovedUpNext(front: seq<Handle>, last: Handle, rest: seq<Handle>, h: Handle, i: nat)
    requires Ascending(front + [last]) && i < |front| && MovedUp(front, rest, h, i)
    ensures MovedUp(front + [last], if last == h then rest else rest + [last], h, i)
  {
    var s := front + [last];
    assert s[i] == front[i] && s[|front|] == last && s[i] < last;
    if last == h {
      forall j | 0 <= j < |front| ensures front[j] != h { assert s[j] < s[|front|]; }
    }
  }

  lemma MovedUpLast(front: seq<Handle>, last: Handle, rest: seq<Handle>, h: Handle)
    requires Ascending(front + [last]) && last != h && |rest| == if h in front then |front| - 1 else |front|
    ensures MovedUp(front + [last], rest + [last], h, |front|)
  {
    var s := front + [last];
    if h in front {
      var j :| 0 <= j < |front| && front[j] == h;
      assert s[j] < s[|front|];
    }
  }

  /** In an ascending list, dropping a handle keeps everything before it in place and moves
      everything after it one place up. */
  lemma {:induction false} WithoutAt(s: seq<Handle>, h: Handle, i: nat)
    requires Ascending(s) && i < |s| && s[i] != h
    ensures MovedUp(s, Without(s, h), h, i)
  {
    var front, last := s[..|s| - 1], s[|s| - 1];
    assert s == front + [last];
    if i < |front| {
      WithoutAt(front, h, i);
      MovedUpNext(front, last, Without(front, h), h, i);
    } else {
      WithoutAscending(front, h);
      WithoutContents(front, h);
      MovedUpLast(front, last, Without(front, h), h);
    }
  }

  lemma {:induction false} WithoutConcat(a: seq<Handle>, b: seq<Handle>, h: Handle)
    ensures Without(a + b, h) == Without(a, h) + Without(b, h)
  {
    if b == [] {
      assert a + b == a;
    } else {
      assert (a + b)[..|a + b| - 1] == a + b[..|b| - 1];
      WithoutConcat(a, b[..|b| - 1], h);
    }
  }

  // ---------------------------------------------------------------- promotion

  /** How many of the `n` handles in line are active once promotion is over, when `w` of
      them already were: everyone when `max == 0`, otherwise the larger of `w` and the
      smaller of `n` and `max`. */
  function Watermark(w: nat, n: nat, max: int): nat {
    if max == 0 then n else Max(w, Min(n, max))
  }

  lemma {:induction false} PromoteIsWatermark(q: State)
    ensures var p := Promote(q);
      && Line(p) == Line(q)
      && |p.active| == Watermark(|q.active|, |Line(q)|, q.max)
      && p == q.(active := p.active, queued := p.queued)
      && (p.queued != [] ==> !HasSlot(p))
    decreases |q.queued|
  {
    if q.queued != [] && HasSlot(q) {
      PromoteIsWatermark(PopHead(q));
      assert Line(PopHead(q)) == Line(q);
    }
  }

  // ---------------------------------------------------------------- every step keeps the invariant

  lemma RemoveLine(q: State, h: Handle)
    requires Ascending(Line(q)) && (q.queued != [] ==> !HasSlot(q))
    ensures Line(Remove(q, h)) == Without(Line(q), h)
    ensures Remove(q, h) == q.(active := Remove(q, h).active, queued := Remove(q, h).queued)
    ensures Remove(q, h).queued != [] ==> !HasSlot(Remove(q, h))
    ensures |Remove(q, h).active|
         == Watermark(|Without(q.active, h)|, |Line(Remove(q, h))|, q.max)
  {
    WithoutConcat(q.active, q.queued, h);
    WithoutContents(q.queued, h);
    WithoutContents(q.active, h);
    ActiveFirst(q);
    if h !in q.queued {
      PromoteIsWatermark(q.(active := Without(q.active, h)));
    }
  }

  lemma AcquireLine(q: State)
    requires q.queued != [] ==> !HasSlot(q)
    ensures !HasSlot(q) && q.maxQueued > 0 && |q.queued| >= q.maxQueued ==> Line(Step(q, Acquire)) == Line(q)
    ensures !(!HasSlot(q) && q.maxQueued > 0 && |q.queued| >= q.maxQueued) ==>
      Line(Step(q, Acquire)) == Line(q) + [q.next]
  {
  }

  lemma AcquireKeepsInv(q: State)
    requires Inv(q)
    ensures Inv(Step(q, Acquire))
  {
    var q' := Step(q, Acquire);
    AcquireLine(q);
    AppendAscending(Line(q), q.next);
    forall h: Handle ensures h in Line(q') <==> Live(q', h) {
      assert h in Line(q) <==> Live(q, h);
    }
  }

  lemma ReleaseKeepsInv(q: State, h: Handle)
    requires Inv(q)
    ensures Inv(Step(q, Release(h)))
  {
    if h < q.next && h !in q.released {
      var q1 := q.(released := q.released + {h});
      var q' := Remove(q1, h);
      RemoveLine(q1, h);
      WithoutAscending(Line(q), h);
      forall x: Handle ensures x in Line(q') <==> Live(q', x) {
        assert x in Line(q) <==> Live(q, x);
        WithoutContents(Line(q), h);
      }
    }
  }

  lemma StepKeepsInv(q: State, op: Op)
    requires Inv(q)
    ensures Inv(Step(q, op))
  {
    match op
    case SetMax(max, maxQueued) => PromoteIsWatermark(q.(max := max, maxQueued := maxQueued));
    case Acquire => AcquireKeepsInv(q);
    case Release(h) => ReleaseKeepsInv(q, h);
  }

  lemma {:induction false} RunKeepsInv(q: State, ops: seq<Op>)
    requires Inv(q)
    ensures Inv(Run(q, ops))
    decreases |ops|
  {
    if ops == [] {
    } else {
      StepKeepsInv(q, ops[0]);
      RunKeepsInv(Step(q, ops[0]), ops[1..]);
    }
  }

  /** Over every run from an empty queue: `active + queued` is ascending and holds exactly
      the live handles; waiting implies no free slot; nobody overtakes an earlier arrival. */
  lemma EveryRun(max: int, maxQueued: int, ops: seq<Op>)
    ensures var q := Run(New(max, maxQueued), ops);
      && Inv(q)
      && (forall a, b :: Live(q, a) && Live(q, b) && a < b && b in q.active ==> a in q.active)
  {
    RunKeepsInv(New(max, maxQueued), ops);
    var q := Run(New(max, maxQueued), ops);
    ActiveFirst(q);
    assert forall a :: Live(q, a) ==> a in q.active || a in q.queued;
  }

  // ---------------------------------------------------------------- refinement of one list

  /** The simple form: one line of handles of which the first `w` are active. */
  datatype Ticket = Ticket(line: seq<Handle>, w: nat, max: int, maxQueued: int, next: nat, released: set<Handle>)

  function Abs(q: State): Ticket {
    Ticket(Line(q), |q.active|, q.max, q.maxQueued, q.next, q.released)
  }

  /** How many of the first `w` handles in line remain when `h` leaves. */
  function Surviving(t: Ticket, h: Handle): nat
    requires t.w <= |t.line|
  {
    if h in t.line[..t.w] then t.w - 1 else t.w
  }

  function TicketStep(t: Ticket, op: Op): Ticket
    requires t.w <= |t.line|
  {
    match op
    case SetMax(max, maxQueued) =>
      t.(max := max, maxQueued := maxQueued, w := Watermark(t.w, |t.line|, max))
    case Acquire =>
      if t.max != 0 && t.w >= t.max && t.maxQueued > 0 && |t.line| - t.w >= t.maxQueued then t.(next := t.next + 1)
      else t.(line := t.line + [t.next], next := t.next + 1, w := Watermark(t.w, |t.line| + 1, t.max))
    case Release(h) =>
      if h >= t.next || h in t.released then t
      else
        var line := Without(t.line, h);
        t.(line := line, released := t.released + {h}, w := Watermark(Surviving(t, h), |line|, t.max))
  }

  /** Each operation on the two lists is exactly one step of the single line. */
  lemma StepRefines(q: State, op: Op)
    requires Inv(q)
    ensures Abs(Step(q, op)) == TicketStep(Abs(q), op)
  {
    match op
    case SetMax(max, maxQueued) =>
      var q' := q.(max := max, maxQueued := maxQueued);
      PromoteIsWatermark(q');
      assert Line(q') == Line(q);
    case Acquire =>
      if HasSlot(q) {
        assert q.queued == [];
        assert Line(Step(q, op)) == Line(q) + [q.next];
      } else if !(q.maxQueued > 0 && |q.queued| >= q.maxQueued) {
        assert Line(Step(q, op)) == Line(q) + [q.next];
      }
    case Release(h) =>
      if h < q.next && h !in q.released {
        var q1 := q.(released := q.released + {h});
        assert Line(q1) == Line(q);
        RemoveLine(q1, h);
        assert Line(q)[..|q.active|] == q.active;
        ActiveFirst(q);
        WithoutAscending(q.active, h);
        WithoutContents(q.active, h);
      }
  }

  function TicketRun(t: Ticket, ops: seq<Op>): Ticket
    requires t.w <= |t.line|
    decreases |ops|
  {
    if ops == [] then t
    else
      var t' := TicketStep(t, ops[0]);
      if t'.w <= |t'.line| then TicketRun(t', ops[1..]) else t'
  }

  lemma {:induction false} RunRefines(q: State, ops: seq<Op>)
    requires Inv(q)
    ensures Abs(Run(q, ops)) == TicketRun(Abs(q), ops)
    decreases |ops|
  {
    if ops == [] {
    } else {
      StepRefines(q, ops[0]);
      StepKeepsInv(q, ops[0]);
      RunRefines(Step(q, ops[0]), ops[1..]);
    }
  }

  /** The active list never grows past a positive limit. */
  lemma ActiveNeverGrowsPastMax(q: State, op: Op)
    requires Inv(q)
    ensures var q' := Step(q, op);
      q'.max != 0 && |q'.active| > |q.active| ==> |q'.active| <= q'.max
  {
    StepRefines(q, op);
    if op.Release? {
      WithoutContents(Line(q), op.h);
    }
  }

  /** Removing a handle that has already left changes nothing, so even two releases that
      race past the `released` flag are harmless. */
  lemma RemoveIsIdempotent(q: State, h: Handle)
    requires Inv(q) && h !in Line(q)
    ensures Remove(q, h) == q
  {
    assert forall x :: x in q.active || x in q.queued ==> x in Line(q);
    WithoutContents(q.queued, h);
    WithoutContents(q.active, h);
  }

  // ---------------------------------------------------------------- exact fairness

  /** The handles in line before `h` that are released somewhere in `ops`. */
  ghost function ReleasedAhead(line: seq<Handle>, h: Handle, ops: seq<Op>): set<Handle> {
    set g | g in line && g < h && Release(g) in ops
  }

  ghost predicate NoResize(ops: seq<Op>) {
    forall i :: 0 <= i < |ops| ==> !ops[i].SetMax?
  }

  lemma LineIndex(q: State, i: nat)
    requires i < |q.queued|
    ensures Line(q)[|q.active| + i] == q.queued[i] && q.queued[i] in Line(q)
  {
  }

  /** The handle at place `n` in line is active or waits at the corresponding Index. */
  lemma AtPlace(q: State, n: nat)
    requires n < |Line(q)|
    ensures n < |q.active| ==> Line(q)[n] in q.active
    ensures n >= |q.active| ==> q.queued[n - |q.active|] == Line(q)[n]
  {
  }

  /** What a first release does to the line and the watermark. */
  lemma ReleaseShape(q: State, g: Handle)
    requires Inv(q) && Live(q, g)
    ensures var q' := Step(q, Release(g));
      && Line(q') == Without(Line(q), g) && q'.max == q.max
      && |q'.active| == Watermark(|q.active| - (if g in q.active then 1 else 0), |Line(q')|, q.max)
  {
    RemoveLine(q.(released := q.released + {g}), g);
    ActiveFirst(q);
    WithoutAscending(q.active, g);
    WithoutContents(q.active, g);
  }

  /** A handle behind the waiter in place `n` is not active. */
  lemma BehindActive(q: State, g: Handle, n: nat)
    requires Ascending(Line(q)) && |q.active| <= n < |Line(q)| && g >= Line(q)[n]
    ensures g !in q.active
  {
    forall j | 0 <= j < |q.active| ensures q.active[j] != g {
      assert Line(q)[j] == q.active[j] && Line(q)[j] < Line(q)[n];
    }
  }

  /** What a first release of `g` does to the waiter at place `n` in line. */
  lemma WaiterRelease(q: State, g: Handle, n: nat)
    requires Inv(q) && Live(q, g) && |q.active| <= n < |Line(q)| && g != Line(q)[n]
    ensures var q' := Step(q, Release(g));
      var n' := if g < Line(q)[n] then n - 1 else n;
      && 0 <= n' < |Line(q')| && Line(q')[n'] == Line(q)[n]
      && (g < Line(q)[n] && n == q.max <==> n' < |q'.active|)
      && q'.max == q.max
  {
    var line := Line(q);
    assert g in line;
    WithoutAt(line, g, n);
    ReleaseShape(q, g);
    if g > line[n] { BehindActive(q, g, n); }
  }

  /** One operation and one waiter: a first release ahead of it brings it one place nearer,
      admitting it if it was at Index 0; anything else leaves its Index alone. */
  lemma WaiterStep(q: State, op: Op, i: nat)
    requires Inv(q) && i < |q.queued|
    requires !op.SetMax? && op != Release(q.queued[i])
    ensures var h, q' := q.queued[i], Step(q, op);
      var ahead := op.Release? && op.h in Line(q) && op.h < h;
      && Position(q, i) >= 0
      && (ahead && Position(q, i) == 0 ==> h in q'.active)
      && (!(ahead && Position(q, i) == 0) ==>
            exists j :: 0 <= j < |q'.queued| && q'.queued[j] == h
                        && Position(q', j) == Position(q, i) - (if ahead then 1 else 0))
  {
    var h, q' := q.queued[i], Step(q, op);
    var n := |q.active| + i;
    LineIndex(q, i);
    match op
    case Acquire =>
      assert q'.queued[i] == h && Position(q', i) == Position(q, i);
    case Release(g) =>
      assert g in Line(q) <==> Live(q, g);
      if Live(q, g) {
        WaiterRelease(q, g, n);
        var n' := if g < h then n - 1 else n;
        AtPlace(q', n');
        if n' >= |q'.active| {
          assert q'.queued[n' - |q'.active|] == h;
        }
      } else {
        if g < q.next && g !in q.released {
          RemoveIsIdempotent(q.(released := q.released + {g}), g);
        }
        assert q'.queued[i] == h;
      }
  }

  lemma {:induction false} PromoteKeepsActive(q: State, h: Handle)
    requires h in q.active
    ensures h in Promote(q).active
    decreases |q.queued|
  {
    if q.queued != [] && HasSlot(q) {
      PromoteKeepsActive(PopHead(q), h);
    }
  }

  lemma {:induction false} StaysActive(q: State, h: Handle, ops: seq<Op>)
    requires Inv(q) && h in q.active && NoResize(ops) && Release(h) !in ops
    ensures h in Run(q, ops).active
    decreases |ops|
  {
    if ops == [] {
    } else {
      var op, q' := ops[0], Step(q, ops[0]);
      StepKeepsInv(q, op);
      assert Release(h) != op;
      assert h in q'.active by {
        if op.Release? && op.h < q.next && op.h !in q.released {
          var q1 := q.(released := q.released + {op.h});
          WithoutContents(q1.active, op.h);
          WithoutContents(q1.queued, op.h);
          var q2 := q1.(active := Without(q1.active, op.h));
          PromoteKeepsActive(q2, h);
        }
      }
      assert Release(h) !in ops[1..];
      StaysActive(q', h, ops[1..]);
    }
  }

  /** Ahead of a handle in line, an operation removes exactly what it releases. */
  lemma LineMember(q: State, op: Op, h: Handle, g: Handle)
    requires Inv(q) && h in Line(q) && g < h
    ensures g in Line(Step(q, op)) <==> g in Line(q) && op != Release(g)
  {
    match op
    case SetMax(max, maxQueued) =>
      PromoteIsWatermark(q.(max := max, maxQueued := maxQueued));
    case Acquire =>
      AcquireLine(q);
      assert Live(q, h);
    case Release(x) =>
      if x < q.next && x !in q.released {
        RemoveLine(q.(released := q.released + {x}), x);
        WithoutContents(Line(q), x);
      } else {
        assert x in Line(q) <==> Live(q, x);
      }
  }

  lemma ReleasedAheadStep(line: seq<Handle>, line': seq<Handle>, h: Handle, op: Op, rest: seq<Op>)
    requires forall g: Handle :: g < h ==> (g in line' <==> g in line && op != Release(g))
    ensures |ReleasedAhead(line, h, [op] + rest)| ==
      |ReleasedAhead(line', h, rest)| + if op.Release? && op.h in line && op.h < h then 1 else 0
  {
    var later := ReleasedAhead(line', h, rest);
    assert forall g :: Release(g) in [op] + rest <==> Release(g) == op || Release(g) in rest;
    if op.Release? && op.h in line && op.h < h {
      assert ReleasedAhead(line, h, [op] + rest) == later + {op.h};
      assert op.h !in later;
    } else {
      assert ReleasedAhead(line, h, [op] + rest) == later;
    }
  }

  /** Between resizes, a waiter whose Index is k has been admitted exactly when at least
      k + 1 of the handles ahead of it have been released, whatever else happened. */
  lemma {:induction false} ExactFairness(q: State, i: nat, ops: seq<Op>)
    requires Inv(q) && i < |q.queued|
    requires NoResize(ops) && Release(q.queued[i]) !in ops
    ensures q.queued[i] in Run(q, ops).active
       <==> |ReleasedAhead(Line(q), q.queued[i], ops)| >= Position(q, i) + 1
    decreases |ops|
  {
    var h := q.queued[i];
    if ops == [] {
      assert ReleasedAhead(Line(q), h, ops) == {};
      ActiveFirst(q);
      assert h in q.queued;
    } else {
      var op, rest := ops[0], ops[1..];
      var q' := Step(q, op);
      assert ops == [op] + rest;
      assert Release(h) != op && Release(h) !in rest;
      WaiterStep(q, op, i);
      StepKeepsInv(q, op);
      var ahead := op.Release? && op.h in Line(q) && op.h < h;
      forall g: Handle | g < h ensures g in Line(q') <==> g in Line(q) && op != Release(g) {
        LineMember(q, op, h, g);
      }
      ReleasedAheadStep(Line(q), Line(q'), h, op, rest);
      if ahead && Position(q, i) == 0 {
        StaysActive(q', h, rest);
      } else {
        var j :| 0 <= j < |q'.queued| && q'.queued[j] == h
                 && Position(q', j) == Position(q, i) - (if ahead then 1 else 0);
        ExactFairness(q', j, rest);
      }
    }
  }

  // ---------------------------------------------------------------- how long the waiting list gets

  lemma {:induction false} PromoteShortens(q: State)
    ensures |Promote(q).queued| <= |q.queued|
    decreases |q.queued|
  {
    if q.queued == [] || !HasSlot(q) {
    } else {
      PromoteShortens(PopHead(q));
    }
  }

  lemma ReleaseShortens(q: State, h: Handle)
    requires Inv(q)
    ensures |Step(q, Release(h)).queued| <= |q.queued|
  {
    WithoutContents(q.queued, h);
    PromoteShortens(q.(released := q.released + {h}, active := Without(q.active, h)));
  }

  /** Only an arrival that finds no slot makes the waiting list longer, and then a positive
      limit holds. */
  lemma WaitingGrows(q: State, op: Op)
    requires Inv(q) && !op.SetMax? && |Step(q, op).queued| > |q.queued|
    ensures op.Acquire? && !HasSlot(q)
    ensures q.maxQueued > 0 ==> |Step(q, op).queued| <= q.maxQueued
  {
    if op.Release? { ReleaseShortens(q, op.h); }
  }

  lemma StepKeepsLimits(q: State, op: Op)
    requires !op.SetMax?
    ensures Step(q, op).max == q.max && Step(q, op).maxQueued == q.maxQueued
  {
    if op.Release? { PromoteIsWatermark(q.(released := q.released + {op.h}, active := Without(q.active, op.h))); }
  }

  lemma {:induction false} WaitingStaysWithin(q: State, ops: seq<Op>)
    requires Inv(q) && NoResize(ops) && |q.queued| <= q.maxQueued && (q.maxQueued > 0 || q.max == 0)
    ensures |Run(q, ops).queued| <= q.maxQueued
    decreases |ops|
  {
    if ops == [] {
    } else {
      var q' := Step(q, ops[0]);
      StepKeepsInv(q, ops[0]);
      StepKeepsLimits(q, ops[0]);
      if |q'.queued| > |q.queued| { WaitingGrows(q, ops[0]); }
      WaitingStaysWithin(q', ops[1..]);
    }
  }

  /** `n` arrivals. */
  function Arrivals(n: nat): seq<Op> { seq(n, _ => Acquire) }

  /** One arrival more than there are slots has to wait where the waiting list has no positive
      limit. */
  lemma {:induction false} OneTooMany(q: State, n: nat)
    requires q.queued == [] && q.max != 0 && q.maxQueued <= 0 && n == Max(0, q.max - |q.active|)
    ensures |Run(q, Arrivals(n + 1)).queued| == 1
    decreases n
  {
    var rest := Arrivals(n + 1)[1..];
    assert rest == Arrivals(n);
    if n == 0 {
      assert Run(Step(q, Acquire), rest) == Step(q, Acquire);
    } else {
      OneTooMany(Step(q, Acquire), n - 1);
    }
  }

  /** The documented limit on the waiting list, with zero for no queueing: it holds over every
      run between resizes exactly when it is positive, or zero where nobody ever waits. A limit
      of zero or less does not limit. */
  lemma WaitingLimitIff(max: int, maxQueued: int)
    ensures (forall ops :: NoResize(ops) ==> |Run(New(max, maxQueued), ops).queued| <= maxQueued)
      <==> maxQueued > 0 || (maxQueued == 0 && max == 0)
  {
    var q := New(max, maxQueued);
    if maxQueued > 0 || (maxQueued == 0 && max == 0) {
      forall ops | NoResize(ops) ensures |Run(q, ops).queued| <= maxQueued { WaitingStaysWithin(q, ops); }
    } else if max == 0 {
      var none: seq<Op> := [];
      assert NoResize(none) && |Run(q, none).queued| > maxQueued;
    } else {
      OneTooMany(q, Max(0, max));
      assert NoResize(Arrivals(Max(0, max) + 1));
    }
  }

  // ---------------------------------------------------------------- what waiters are told

  /** Telling the waiter in place `i` its position and the total, written out. */
  function TellPlace(q: State, i: int): Action
    requires 0 <= i < |q.queued|
  {
    Send(q.queued[i], Status(|q.active| - q.max + i, |q.active| - q.max + |q.queued|, false, false))
  }

  lemma {:induction false} BroadcastTells(q: State, n: nat)
    requires n <= |q.queued|
    ensures forall a :: a in BroadcastActions(q, n) && a.Send? ==> exists i :: 0 <= i < n && a == TellPlace(q, i)
    ensures forall i :: 0 <= i < n ==> TellPlace(q, i) in BroadcastActions(q, n)
  {
    if n == 0 {
    } else {
      BroadcastTells(q, n - 1);
      assert Send(q.queued[n - 1], Status(Position(q, n - 1), Total(q), false, false)) == TellPlace(q, n - 1);
    }
  }

  lemma {:induction false} PromotionTellsNoPlace(q: State)
    ensures forall a :: a in PromoteActions(q) && a.Send? ==> a.s == Status(0, 0, true, false)
    decreases |q.queued|
  {
    if q.queued == [] || !HasSlot(q) {
    } else {
      PromotionTellsNoPlace(PopHead(q));
    }
  }

  /** A position an operation sends is that of its waiter after the operation, with the total of
      all waiting then; nothing else is sent but admissions and refusals. */
  lemma SentPlaces(q: State, op: Op, a: Action)
    requires a in Actions(q, op) && a.Send?
    ensures var q' := Step(q, op);
      || a.s == Status(0, 0, true, false) || a.s == Status(0, 0, false, true)
      || exists i :: 0 <= i < |q'.queued| && a == TellPlace(q', i)
  {
    var q' := Step(q, op);
    match op
    case SetMax(max, maxQueued) =>
      PromotionTellsNoPlace(q.(max := max, maxQueued := maxQueued));
      BroadcastTells(q', |q'.queued|);
    case Acquire =>
      if |q'.queued| > |q.queued| { assert a == TellPlace(q', |q.queued|); }
    case Release(h) =>
      PromotionTellsNoPlace(q.(released := q.released + {h}, active := Without(q.active, h)));
      BroadcastTells(q', |q'.queued|);
  }

  /** A resize or a first release tells every waiter its place. */
  lemma EveryoneIsTold(q: State, op: Op, i: nat)
    requires op.SetMax? || (op.Release? && op.h < q.next && op.h !in q.released)
    requires i < |Step(q, op).queued|
    ensures TellPlace(Step(q, op), i) in Actions(q, op)
  {
    BroadcastTells(Step(q, op), |Step(q, op).queued|);
  }
}

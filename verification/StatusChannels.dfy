/**
 The status channels under concurrency. A queue operation holds the lock while its channel
 actions run one at a time; between any two of them, and inside `trySend`, any consumer may
 receive from its own channel. Every sequence of events below is one interleaving.
 */
module StatusChannels {
  import opened AdmissionQueue

  /** A channel of capacity one. `got` is what its consumer has received so far. */
  datatype Chan = Chan(buf: seq<Status>, closed: bool, got: seq<Status>)

  /** What a receive from a closed, drained channel yields. */
  const ZERO := Status(0, 0, false, false)

  datatype Outcome = Done(c: Chan) | Blocks | Panics

  function Exec(c: Chan, a: Action): Outcome {
    match a
    case Drain(_) => Done(c.(buf := []))
    case Send(_, s) => if c.closed then Panics else if c.buf != [] then Blocks else Done(c.(buf := [s]))
    case Close(_) => if c.closed then Panics else Done(c.(closed := true))
  }

  /** What a channel of capacity one does: a send needs room and an open channel, a close an
      open one, and a drain takes what is there without waiting. */
  lemma ExecIs(c: Chan, a: Action)
    requires |c.buf| <= 1
    ensures a.Drain? ==> Exec(c, a) == Done(Chan([], c.closed, c.got))
    ensures a.Send? ==> (Exec(c, a).Done? <==> !c.closed && |c.buf| < 1) && (Exec(c, a).Panics? <==> c.closed)
    ensures a.Send? && Exec(c, a).Done? ==> Exec(c, a).c == Chan(c.buf + [a.s], c.closed, c.got)
    ensures a.Close? ==> (Exec(c, a).Done? <==> !c.closed) && (Exec(c, a).Done? ==> Exec(c, a).c == Chan(c.buf, true, c.got))
  {
  }

  /** The relay stops receiving once it has read Ok or Full. */
  predicate Finished(hist: seq<Status>) {
    hist != [] && (hist[|hist| - 1].ok || hist[|hist| - 1].full)
  }

  function Recv(c: Chan): Chan {
    if c.buf != [] then c.(buf := [], got := c.got + c.buf)
    else if c.closed then c.(got := c.got + [ZERO])
    else c
  }

  /** A receive takes the oldest status, the zero one from a closed and empty channel, and waits
      on an open and empty one. */
  lemma RecvIs(c: Chan)
    requires |c.buf| <= 1
    ensures |c.buf| == 1 ==> Recv(c) == Chan([], c.closed, c.got + [c.buf[0]])
    ensures |c.buf| == 0 && c.closed ==> Recv(c) == Chan([], true, c.got + [Status(0, 0, false, false)])
    ensures |c.buf| == 0 && !c.closed ==> Recv(c) == c
  {
  }

  /** `pending` holds the actions the lock holder still has to perform; the lock is free
      when it is empty. `fault` records a blocked send or a panic under the lock. */
  datatype Machine = Machine(q: State, chans: map<Handle, Chan>, pending: seq<Action>, fault: bool)

  datatype Event = Call(op: Op) | Proceed | Receive(h: Handle)

  function Start(max: int, maxQueued: int): Machine {
    Machine(New(max, maxQueued), map[], [], false)
  }

  function Next(m: Machine, e: Event): Machine {
    match e
    case Call(op) =>
      if m.pending != [] then m
      else
        var chans := if op.Acquire? then m.chans[m.q.next := Chan([], false, [])] else m.chans;
        Machine(Step(m.q, op), chans, Actions(m.q, op), m.fault)
    case Proceed =>
      if m.pending == [] then m
      else
        var a := m.pending[0];
        if a.h !in m.chans then m.(fault := true)
        else
          var r := Exec(m.chans[a.h], a);
          if r.Done? then m.(chans := m.chans[a.h := r.c], pending := m.pending[1..])
          else m.(fault := true)
    case Receive(h) =>
      if h in m.chans && !Finished(m.chans[h].got) then m.(chans := m.chans[h := Recv(m.chans[h])]) else m
  }

  function Play(m: Machine, events: seq<Event>): Machine
    decreases |events|
  {
    if events == [] then m else Play(Next(m, events[0]), events[1..])
  }

  // ---------------------------------------------------------------- invariant

  predicate IsPosition(s: Status) {
    !s.ok && !s.full && 0 <= s.index < s.max
  }

  /** Full alone, or positions possibly followed by one Ok. */
  ghost predicate Proper(hist: seq<Status>) {
    hist == [FULL] ||
    forall i :: 0 <= i < |hist| ==> IsPosition(hist[i]) || (i == |hist| - 1 && hist[i] == OK)
  }

  /** The status tells the waiter its current position and a total that is not inflated. */
  ghost predicate Honest(q: State, h: Handle, s: Status) {
    && IsPosition(s)
    && s.max <= Total(q)
    && forall i :: 0 <= i < |q.queued| && q.queued[i] == h ==> s.index == Position(q, i)
  }

  /** The actions of `acts` on the channel of `h`. */
  function Of(h: Handle, acts: seq<Action>): seq<Action> {
    if acts == [] then []
    else if acts[0].h == h then [acts[0]] + Of(h, acts[1..])
    else Of(h, acts[1..])
  }

  function Promotion(h: Handle): seq<Action> {
    [Drain(h), Send(h, OK), Close(h)]
  }

  /** The channel of `h` when no action on it is pending. */
  ghost predicate Settled(q: State, h: Handle, c: Chan) {
    && (c.closed <==> Finished(c.got + c.buf))
    && (h in q.active ==> c.closed && (c.got + c.buf)[|c.got + c.buf| - 1] == OK)
    && (h in q.queued ==> !c.closed && (c.buf != [] ==> Honest(q, h, c.buf[0])))
    && (h in q.rejected ==> c.got + c.buf == [FULL])
  }

  /** What may still be pending on an open channel that has not been sent its last status. */
  ghost predicate Underway(q: State, h: Handle, c: Chan, p: seq<Action>) {
    && !c.closed && !Finished(c.got + c.buf)
    && ( || (p == Promotion(h) && h in q.active)
         || (p == Promotion(h)[1..] && c.buf == [] && h in q.active)
         || (|p| == 2 && p[0] == Drain(h) && p[1].Send? && p[1].h == h
             && h in q.queued && Honest(q, h, p[1].s))
         || (|p| == 1 && p[0].Send? && p[0].h == h && c.buf == []
             && h in q.queued && Honest(q, h, p[0].s))
         || (p == [Send(h, FULL), Close(h)] && c.buf == [] && c.got == [] && h in q.rejected))
  }

  ghost predicate ChanOk(q: State, h: Handle, c: Chan, p: seq<Action>) {
    && |c.buf| <= 1
    && Proper(c.got + c.buf)
    && ( || (p == [] && Settled(q, h, c))
         || Underway(q, h, c, p)
         || (p == [Close(h)] && !c.closed && Settled(q, h, c.(closed := true))))
  }

  ghost predicate MachineInv(m: Machine) {
    && Inv(m.q)
    && !m.fault
    && (forall h: Handle :: h in m.chans <==> h < m.q.next)
    && (forall h: Handle :: h in m.chans ==> ChanOk(m.q, h, m.chans[h], Of(h, m.pending)))
    && (forall i :: 0 <= i < |m.pending| ==> m.pending[i].h in m.chans)
  }

  // ---------------------------------------------------------------- the actions of one operation

  lemma {:induction false} OfConcat(h: Handle, a: seq<Action>, b: seq<Action>)
    ensures Of(h, a + b) == Of(h, a) + Of(h, b)
  {
    if a == [] {
      assert a + b == b;
    } else {
      assert (a + b)[1..] == a[1..] + b;
      OfConcat(h, a[1..], b);
    }
  }

  lemma OfPair(h: Handle, a: Action, b: Action)
    requires a.h == b.h
    ensures Of(h, [a, b]) == if a.h == h then [a, b] else []
  {
    assert [a, b][1..] == [b];
    assert Of(h, [b]) == if b.h == h then [b] else [];
  }

  lemma {:induction false} OfBroadcast(q: State, n: nat, h: Handle)
    requires n <= |q.queued| && Ascending(q.queued)
    ensures forall i :: 0 <= i < n && q.queued[i] == h ==>
      Of(h, BroadcastActions(q, n)) == [Drain(h), Send(h, Status(Position(q, i), Total(q), false, false))]
    ensures h !in q.queued[..n] ==> Of(h, BroadcastActions(q, n)) == []
  {
    if n == 0 {
    } else {
      OfBroadcast(q, n - 1, h);
      var x := q.queued[n - 1];
      var a, b := Drain(x), Send(x, Status(Position(q, n - 1), Total(q), false, false));
      OfConcat(h, BroadcastActions(q, n - 1), [a, b]);
      OfPair(h, a, b);
      assert forall i :: 0 <= i < n - 1 ==> q.queued[i] < x;
      assert h in q.queued[..n] <==> h in q.queued[..n - 1] || h == x;
    }
  }

  lemma {:induction false} BroadcastTargets(q: State, n: nat)
    requires n <= |q.queued|
    ensures forall a :: a in BroadcastActions(q, n) ==> a.h in q.queued
  {
    if n == 0 {
    } else {
      BroadcastTargets(q, n - 1);
    }
  }

  lemma OfPopHead(q: State, h: Handle)
    requires q.queued != []
    ensures Of(h, PopHeadActions(q)) == if h == q.queued[0] then Promotion(h) else []
  {
    var x := q.queued[0];
    assert PopHeadActions(q) == [Drain(x)] + [Send(x, OK), Close(x)];
    OfConcat(h, [Drain(x)], [Send(x, OK), Close(x)]);
    OfPair(h, Send(x, OK), Close(x));
    assert [Drain(x)][1..] == [];
  }

  lemma {:induction false} OfPromote(q: State, h: Handle)
    requires Ascending(q.queued)
    ensures Of(h, PromoteActions(q)) == if h in q.queued && h !in Promote(q).queued then Promotion(h) else []
    ensures forall x :: x in Promote(q).queued ==> x in q.queued
    ensures forall x :: x in q.queued && x !in Promote(q).queued ==> x in Promote(q).active
    ensures Ascending(Promote(q).queued)
    ensures forall a :: a in PromoteActions(q) ==> a.h in q.queued
    decreases |q.queued|
  {
    if q.queued != [] && HasSlot(q) {
      var q', x := PopHead(q), q.queued[0];
      assert q.queued == [x] + q'.queued;
      OfPromote(q', h);
      OfPopHead(q, h);
      OfConcat(h, PopHeadActions(q), PromoteActions(q'));
      PromoteKeepsActive(q', x);
    }
  }

  // ---------------------------------------------------------------- starting an operation

  /** The lists once `h` has left and before anyone is promoted. */
  function Leave(q: State, h: Handle): State {
    q.(released := q.released + {h}, active := Without(q.active, h), queued := Without(q.queued, h))
  }

  function Rebuilt(r: State): seq<Action> {
    PromoteActions(r) + BroadcastActions(Promote(r), |Promote(r).queued|)
  }

  /** A release, like a resize, is one change of the lists followed by promotion and a
      broadcast to everyone still waiting. */
  lemma ReleaseIsLeave(q: State, h: Handle)
    requires Inv(q) && h < q.next && h !in q.released
    ensures Step(q, Release(h)) == Promote(Leave(q, h))
    ensures Actions(q, Release(h)) == Rebuilt(Leave(q, h))
  {
    WithoutContents(q.queued, h);
    WithoutContents(q.active, h);
    ActiveFirst(q);
  }

  /** What a rebuild does to one channel. */
  lemma OfRebuilt(r: State, h: Handle)
    requires Ascending(r.queued)
    ensures var q' := Promote(r);
      && (forall i :: 0 <= i < |q'.queued| && q'.queued[i] == h ==>
            Of(h, Rebuilt(r)) == [Drain(h), Send(h, Status(Position(q', i), Total(q'), false, false))])
      && (h in r.queued && h !in q'.queued ==> Of(h, Rebuilt(r)) == Promotion(h) && h in q'.active)
      && (h !in r.queued ==> Of(h, Rebuilt(r)) == [] && h !in q'.queued && (h in q'.active ==> h in r.active))
  {
    var q' := Promote(r);
    OfPromote(r, h);
    OfBroadcast(q', |q'.queued|, h);
    OfConcat(h, PromoteActions(r), BroadcastActions(q', |q'.queued|));
    assert q'.queued[..|q'.queued|] == q'.queued;
    PromoteIsWatermark(r);
    assert h in q'.active ==> h in Line(r);
  }

  /** Settled channels are ready for the actions that follow a change of the lists. */
  lemma RebuildOk(q: State, r: State, h: Handle, c: Chan)
    requires Inv(q) && Ascending(r.queued) && Inv(Promote(r)) && Promote(r).rejected == q.rejected
    requires |c.buf| <= 1 && Proper(c.got + c.buf) && Settled(q, h, c)
    requires h in r.active ==> h in q.active
    requires h in r.queued ==> h in q.queued
    ensures ChanOk(Promote(r), h, c, Of(h, Rebuilt(r)))
  {
    var q' := Promote(r);
    OfRebuilt(r, h);
    if h in q'.queued {
      ActiveFirst(q');
      var i :| 0 <= i < |q'.queued| && q'.queued[i] == h;
      assert Honest(q', h, Status(Position(q', i), Total(q'), false, false));
      assert Underway(q', h, c, Of(h, Rebuilt(r)));
    } else if h in r.queued {
      assert Underway(q', h, c, Of(h, Rebuilt(r)));
    } else {
      assert Settled(q', h, c);
    }
  }

  lemma RebuildTarget(r: State, i: nat)
    requires Ascending(r.queued) && i < |Rebuilt(r)|
    ensures Rebuilt(r)[i].h in r.queued
  {
    var q' := Promote(r);
    OfPromote(r, 0);
    BroadcastTargets(q', |q'.queued|);
    assert Rebuilt(r)[i] in Rebuilt(r);
  }

  lemma AcquireOk(q: State, h: Handle, c: Chan)
    requires Inv(q) && h < q.next
    requires |c.buf| <= 1 && Proper(c.got + c.buf) && Settled(q, h, c)
    ensures ChanOk(Step(q, Acquire), h, c, [])
  {
    var q' := Step(q, Acquire);
    if h in q'.queued && c.buf != [] {
      assert h in q.queued;
      assert Honest(q', h, c.buf[0]);
    }
    assert Settled(q', h, c);
  }

  lemma AcquireNewOk(q: State)
    requires Inv(q)
    ensures ChanOk(Step(q, Acquire), q.next, Chan([], false, []), Actions(q, Acquire))
  {
    var q', c, p := Step(q, Acquire), Chan([], false, []), Actions(q, Acquire);
    AcquireKeepsInv(q);
    ActiveFirst(q');
    if HasSlot(q) {
      assert p == Promotion(q.next)[1..];
      assert q.next in q'.active;
    } else if !(q.maxQueued > 0 && |q.queued| >= q.maxQueued) {
      forall i: nat | i < |q.queued| ensures q.queued[i] != q.next {
        LineIndex(q, i);
      }
      assert Honest(q', q.next, p[0].s);
    }
    assert Underway(q', q.next, c, p);
  }

  lemma OfNone(h: Handle, acts: seq<Action>)
    requires forall i :: 0 <= i < |acts| ==> acts[i].h != h
    ensures Of(h, acts) == []
  {
  }

  lemma OfOnly(h: Handle, acts: seq<Action>)
    requires forall i :: 0 <= i < |acts| ==> acts[i].h == h
    ensures Of(h, acts) == acts
    ensures forall x :: x != h ==> Of(x, acts) == []
  {
    forall x | x != h ensures Of(x, acts) == [] {
      OfNone(x, acts);
    }
    if acts != [] {
      OfOnly(h, acts[1..]);
    }
  }

  lemma CallAcquireKeeps(m: Machine)
    requires MachineInv(m) && m.pending == []
    ensures MachineInv(Next(m, Call(Acquire)))
  {
    var m' := Next(m, Call(Acquire));
    AcquireKeepsInv(m.q);
    AcquireNewOk(m.q);
    OfOnly(m.q.next, m'.pending);
    forall h: Handle | h in m'.chans ensures ChanOk(m'.q, h, m'.chans[h], Of(h, m'.pending)) {
      if h != m.q.next {
        assert ChanOk(m.q, h, m.chans[h], []);
        AcquireOk(m.q, h, m.chans[h]);
      }
    }
  }

  lemma RebuildChans(m: Machine, r: State)
    requires MachineInv(m) && m.pending == [] && Inv(Promote(r)) && Promote(r).rejected == m.q.rejected
    requires Ascending(r.queued)
    requires forall x :: x in r.active ==> x in m.q.active
    requires forall x :: x in r.queued ==> x in m.q.queued
    ensures forall h: Handle :: h in m.chans ==> ChanOk(Promote(r), h, m.chans[h], Of(h, Rebuilt(r)))
  {
    forall h: Handle | h in m.chans ensures ChanOk(Promote(r), h, m.chans[h], Of(h, Rebuilt(r))) {
      assert ChanOk(m.q, h, m.chans[h], []);
      RebuildOk(m.q, r, h, m.chans[h]);
    }
  }

  lemma RebuildTargetsExist(q: State, r: State)
    requires Inv(q) && Ascending(r.queued) && forall x :: x in r.queued ==> x in q.queued
    ensures forall i :: 0 <= i < |Rebuilt(r)| ==> Rebuilt(r)[i].h < q.next
  {
    forall i | 0 <= i < |Rebuilt(r)| ensures Rebuilt(r)[i].h < q.next {
      RebuildTarget(r, i);
      assert Rebuilt(r)[i].h in Line(q);
    }
  }

  lemma CallRebuildKeeps(m: Machine, op: Op, r: State)
    requires MachineInv(m) && m.pending == [] && !op.Acquire?
    requires Step(m.q, op) == Promote(r) && Actions(m.q, op) == Rebuilt(r)
    requires Ascending(r.queued) && r.rejected == m.q.rejected && r.next == m.q.next
    requires forall x :: x in r.active ==> x in m.q.active
    requires forall x :: x in r.queued ==> x in m.q.queued
    ensures MachineInv(Next(m, Call(op)))
  {
    StepKeepsInv(m.q, op);
    PromoteIsWatermark(r);
    RebuildChans(m, r);
    RebuildTargetsExist(m.q, r);
    assert Next(m, Call(op)) == Machine(Promote(r), m.chans, Rebuilt(r), m.fault);
  }

  lemma CallKeeps(m: Machine, op: Op)
    requires MachineInv(m)
    ensures MachineInv(Next(m, Call(op)))
  {
    if m.pending == [] {
      ActiveFirst(m.q);
      match op
      case SetMax(max, maxQueued) =>
        CallRebuildKeeps(m, op, m.q.(max := max, maxQueued := maxQueued));
      case Acquire => CallAcquireKeeps(m);
      case Release(h) =>
        if h < m.q.next && h !in m.q.released {
          ReleaseIsLeave(m.q, h);
          WithoutContents(m.q.active, h);
          WithoutContents(m.q.queued, h);
          WithoutAscending(m.q.queued, h);
          CallRebuildKeeps(m, op, Leave(m.q, h));
        } else {
          assert Next(m, Call(op)) == m;
        }
    }
  }

  // ---------------------------------------------------------------- one action, one receive

  lemma ProperPrefix(hist: seq<Status>, k: nat)
    requires Proper(hist) && !Finished(hist) && k <= |hist|
    ensures Proper(hist[..k]) && !Finished(hist[..k])
  {
    assert forall i :: 0 <= i < |hist| ==> IsPosition(hist[i]);
  }

  lemma ProperAppend(hist: seq<Status>, s: Status)
    requires Proper(hist) && !Finished(hist) && (IsPosition(s) || s == OK)
    ensures Proper(hist + [s])
  {
    assert forall i :: 0 <= i < |hist| ==> IsPosition(hist[i]);
  }

  lemma ExecDrain(q: State, h: Handle, c: Chan, p: seq<Action>)
    requires ChanOk(q, h, c, p) && p != [] && p[0].Drain?
    ensures ChanOk(q, h, c.(buf := []), p[1..])
  {
    var c' := c.(buf := []);
    ProperPrefix(c.got + c.buf, |c.got|);
    assert (c.got + c.buf)[..|c.got|] == c'.got + c'.buf;
    assert Underway(q, h, c', p[1..]);
  }

  lemma ExecSend(q: State, h: Handle, c: Chan, p: seq<Action>)
    requires Inv(q) && ChanOk(q, h, c, p) && p != [] && p[0].Send?
    ensures !c.closed && c.buf == [] && ChanOk(q, h, c.(buf := [p[0].s]), p[1..])
  {
    var s := p[0].s;
    var c' := c.(buf := [s]);
    assert Underway(q, h, c, p);
    assert c.got + c.buf == c.got;
    assert c'.got + c'.buf == c.got + [s];
    if s == FULL {
      assert c'.got + c'.buf == [FULL];
    } else {
      ProperAppend(c.got, s);
    }
    ActiveFirst(q);
    assert h in q.active || h in q.queued ==> h in Line(q) && Live(q, h);
    if |p| == 2 {
      assert p[1..] == [Close(h)];
    } else {
      assert p[1..] == [] && Settled(q, h, c');
    }
  }

  /** The next pending action on a channel always succeeds and leaves the channel in order. */
  lemma ExecOk(q: State, h: Handle, c: Chan, p: seq<Action>)
    requires Inv(q) && ChanOk(q, h, c, p) && p != []
    ensures Exec(c, p[0]).Done? && ChanOk(q, h, Exec(c, p[0]).c, p[1..])
  {
    match p[0]
    case Drain(_) => ExecDrain(q, h, c, p);
    case Send(_, _) => ExecSend(q, h, c, p);
    case Close(_) => assert p[1..] == [];
  }

  /** A consumer may receive at any moment without disturbing what is pending, and never
      receives the zero value. */
  lemma RecvOk(q: State, h: Handle, c: Chan, p: seq<Action>)
    requires ChanOk(q, h, c, p) && !Finished(c.got)
    ensures ChanOk(q, h, Recv(c), p)
    ensures Recv(c).got + Recv(c).buf == c.got + c.buf
  {
    var c' := Recv(c);
    if c.buf == [] {
      assert c.got + c.buf == c.got;
    } else {
      assert c'.got + c'.buf == c.got + c.buf;
      if Underway(q, h, c, p) {
        assert Underway(q, h, c', p);
      }
    }
  }

  lemma NextKeeps(m: Machine, e: Event)
    requires MachineInv(m)
    ensures MachineInv(Next(m, e))
  {
    var m' := Next(m, e);
    match e
    case Call(op) => CallKeeps(m, op);
    case Proceed =>
      if m.pending != [] {
        var a := m.pending[0];
        assert a.h in m.chans;
        ExecOk(m.q, a.h, m.chans[a.h], Of(a.h, m.pending));
        forall h: Handle | h in m'.chans ensures ChanOk(m'.q, h, m'.chans[h], Of(h, m'.pending)) {
          assert ChanOk(m.q, h, m.chans[h], Of(h, m.pending));
          assert h == a.h ==> Of(h, m.pending)[1..] == Of(h, m.pending[1..]);
        }
      }
    case Receive(h) =>
      if h in m.chans && !Finished(m.chans[h].got) {
        RecvOk(m.q, h, m.chans[h], Of(h, m.pending));
      }
  }

  lemma {:induction false} PlayKeeps(m: Machine, events: seq<Event>)
    requires MachineInv(m)
    ensures MachineInv(Play(m, events))
    decreases |events|
  {
    if events == [] {
    } else {
      NextKeeps(m, events[0]);
      PlayKeeps(Next(m, events[0]), events[1..]);
    }
  }

  // ---------------------------------------------------------------- main results

  /** In every interleaving no send under the lock blocks, none hits a closed channel and no
      channel is closed twice; every consumer has received Full alone, or positions possibly
      followed by one Ok, and in particular never the zero value. */
  lemma ChannelSafety(max: int, maxQueued: int, events: seq<Event>)
    ensures var m := Play(Start(max, maxQueued), events);
      && !m.fault
      && (forall h: Handle :: h in m.chans ==> Proper(m.chans[h].got))
      && (m.pending != [] ==> Next(m, Proceed).pending == m.pending[1..])
  {
    var m := Play(Start(max, maxQueued), events);
    PlayKeeps(Start(max, maxQueued), events);
    forall h: Handle | h in m.chans ensures Proper(m.chans[h].got) {
      var c := m.chans[h];
      assert ChanOk(m.q, h, c, Of(h, m.pending));
      assert forall i :: 0 <= i < |c.got| ==> (c.got + c.buf)[i] == c.got[i];
    }
    NextKeeps(m, Proceed);
  }

  lemma SettledOk(q: State, h: Handle, c: Chan)
    requires Inv(q) && h in Line(q) && |c.buf| <= 1 && Proper(c.got + c.buf) && Settled(q, h, c)
    ensures h in q.active <==> OK in c.got + c.buf
    ensures h in q.active && !Finished(c.got) ==> c.buf == [OK]
  {
    var hist := c.got + c.buf;
    ActiveFirst(q);
    if h in q.active {
      assert hist[|hist| - 1] in hist;
      if c.buf == [] {
        assert hist == c.got;
      } else {
        assert hist[|hist| - 1] == c.buf[0];
      }
    } else {
      assert !Finished(hist);
      assert forall i :: 0 <= i < |hist| ==> IsPosition(hist[i]);
    }
  }

  /** With the lock free, an admitted consumer has read its Ok or finds it waiting, and an
      admission is never announced to anyone still waiting in line. */
  lemma AdmissionIsNeverMissed(max: int, maxQueued: int, events: seq<Event>, h: Handle)
    ensures var m := Play(Start(max, maxQueued), events);
      m.pending == [] && h in Line(m.q) ==>
        && h in m.chans
        && (h in m.q.active <==> OK in m.chans[h].got + m.chans[h].buf)
        && (h in m.q.active && !Finished(m.chans[h].got) ==> m.chans[h].buf == [OK])
  {
    var m := Play(Start(max, maxQueued), events);
    PlayKeeps(Start(max, maxQueued), events);
    if m.pending == [] && h in Line(m.q) {
      assert Live(m.q, h);
      assert ChanOk(m.q, h, m.chans[h], []);
      SettledOk(m.q, h, m.chans[h]);
    }
  }

  /** With the lock free, any unread status of the i-th waiter carries exactly its current
      Index, and a Max between that Index and the current total. */
  lemma PositionHonesty(max: int, maxQueued: int, events: seq<Event>, i: nat)
    ensures var m := Play(Start(max, maxQueued), events);
      m.pending == [] && i < |m.q.queued| ==>
        && m.q.queued[i] in m.chans
        && var c := m.chans[m.q.queued[i]];
           c.buf != [] ==>
             && |c.buf| == 1
             && c.buf[0] == Status(|m.q.active| - m.q.max + i, c.buf[0].max, false, false)
             && 0 <= c.buf[0].index < c.buf[0].max <= |m.q.active| + |m.q.queued| - m.q.max
  {
    var m := Play(Start(max, maxQueued), events);
    PlayKeeps(Start(max, maxQueued), events);
    if m.pending == [] && i < |m.q.queued| {
      var h := m.q.queued[i];
      assert h in Line(m.q);
      assert ChanOk(m.q, h, m.chans[h], []);
    }
  }

  // ---------------------------------------------------------------- positions never increase

  ghost predicate NonIncreasing(s: seq<Status>) {
    forall i, j :: 0 <= i < j < |s| ==> s[i].index >= s[j].index
  }

  /** What the consumer of `h` read, or may still read, since `m0`. */
  function Since(m0: Machine, m: Machine, h: Handle): seq<Status>
    requires h in m.chans
    requires h in m0.chans ==> |m0.chans[h].got| <= |m.chans[h].got|
  {
    m.chans[h].got[(if h in m0.chans then |m0.chans[h].got| else 0)..] + m.chans[h].buf
  }

  ghost predicate MonoFor(m0: Machine, m: Machine, h: Handle)
    requires h in m.chans
  {
    && (h in m0.chans ==> |m0.chans[h].got| <= |m.chans[h].got|)
    && NonIncreasing(Since(m0, m, h))
    && forall i, s :: 0 <= i < |m.q.queued| && m.q.queued[i] == h && s in Since(m0, m, h)
                      ==> s.index >= Position(m.q, i)
  }

  ghost predicate Mono(m0: Machine, m: Machine) {
    && MachineInv(m)
    && (forall h :: h in m0.chans ==> h in m.chans)
    && (forall h :: h in m.chans ==> MonoFor(m0, m, h))
  }

  lemma ProperIsNonNegative(hist: seq<Status>, k: nat)
    requires Proper(hist) && k <= |hist|
    ensures forall s :: s in hist[k..] ==> s.index >= 0
  {
    assert forall i :: 0 <= i < |hist| ==> hist[i].index >= 0;
  }

  lemma SinceIsNonNegative(m0: Machine, m: Machine, h: Handle)
    requires h in m.chans && Proper(m.chans[h].got + m.chans[h].buf)
    requires h in m0.chans ==> |m0.chans[h].got| <= |m.chans[h].got|
    ensures forall s :: s in Since(m0, m, h) ==> s.index >= 0
  {
    var c := m.chans[h];
    var k := if h in m0.chans then |m0.chans[h].got| else 0;
    ProperIsNonNegative(c.got + c.buf, k);
    assert Since(m0, m, h) == (c.got + c.buf)[k..];
  }

  /** Without a resize, nobody still in line is moved back. */
  lemma PositionsShrink(q: State, op: Op, j: nat)
    requires Inv(q) && !op.SetMax? && j < |Step(q, op).queued| && Step(q, op).queued[j] < q.next
    ensures exists i :: 0 <= i < |q.queued| && q.queued[i] == Step(q, op).queued[j]
                        && Position(Step(q, op), j) <= Position(q, i)
  {
    var q' := Step(q, op);
    var h := q'.queued[j];
    StepKeepsInv(q, op);
    ActiveFirst(q');
    assert h in Line(q') && Live(q', h);
    assert h in q.queued by {
      if op.Release? && op.h < q.next && op.h !in q.released {
        ReleaseIsLeave(q, op.h);
        WithoutContents(q.queued, op.h);
        ActiveFirst(q);
        WithoutAscending(q.queued, op.h);
        OfPromote(Leave(q, op.h), h);
      }
    }
    var i :| 0 <= i < |q.queued| && q.queued[i] == h;
    assert op != Release(h) by {
      if op == Release(h) {
        assert Live(q, h) by { assert h in Line(q); }
        RemoveLine(q.(released := q.released + {h}), h);
      }
    }
    WaiterStep(q, op, i);
    var j' :| 0 <= j' < |q'.queued| && q'.queued[j'] == h && Position(q', j') <= Position(q, i);
    assert j' == j;
  }

  lemma MonoCall(m0: Machine, m: Machine, op: Op)
    requires Mono(m0, m) && !op.SetMax?
    ensures Mono(m0, Next(m, Call(op)))
  {
    var m' := Next(m, Call(op));
    NextKeeps(m, Call(op));
    if m.pending == [] {
      forall h | h in m'.chans ensures MonoFor(m0, m', h) {
        if h == m.q.next && op.Acquire? {
          assert h !in m.chans;
        } else {
          assert Since(m0, m', h) == Since(m0, m, h);
          forall j, s | 0 <= j < |m'.q.queued| && m'.q.queued[j] == h && s in Since(m0, m', h)
            ensures s.index >= Position(m'.q, j)
          {
            assert h < m.q.next;
            PositionsShrink(m.q, op, j);
          }
        }
      }
    }
  }

  /** The status about to be sent is no larger than anything at or above the position. */
  lemma SendIndex(q: State, h: Handle, c: Chan, p: seq<Action>, s: Status, before: seq<Status>)
    requires Inv(q) && ChanOk(q, h, c, p) && p != [] && p[0] == Send(h, s)
    requires forall x :: x in before ==> x.index >= 0
    requires forall i, x :: 0 <= i < |q.queued| && q.queued[i] == h && x in before ==> x.index >= Position(q, i)
    ensures forall x :: x in before ==> x.index >= s.index
    ensures forall i :: 0 <= i < |q.queued| && q.queued[i] == h ==> s.index >= Position(q, i)
  {
    assert Underway(q, h, c, p);
    ActiveFirst(q);
    if h in q.queued {
      var i :| 0 <= i < |q.queued| && q.queued[i] == h;
      assert h in Line(q) && Live(q, h);
      assert s.index == Position(q, i);
    } else {
      assert s.index == 0;
    }
  }

  lemma AppendNonIncreasing(before: seq<Status>, s: Status)
    requires NonIncreasing(before) && forall x :: x in before ==> x.index >= s.index
    ensures NonIncreasing(before + [s])
  {
    assert forall i :: 0 <= i < |before| ==> before[i] in before;
  }

  lemma MonoSend(m0: Machine, m: Machine, m': Machine, s: Status)
    requires m.pending != [] && m' == Next(m, Proceed) && m.pending[0] == Send(m.pending[0].h, s)
    requires m.pending[0].h in m.chans && MonoFor(m0, m, m.pending[0].h)
    requires Inv(m.q) && ChanOk(m.q, m.pending[0].h, m.chans[m.pending[0].h], Of(m.pending[0].h, m.pending))
    ensures m.pending[0].h in m'.chans && MonoFor(m0, m', m.pending[0].h)
  {
    var h := m.pending[0].h;
    var c, before := m.chans[h], Since(m0, m, h);
    ExecOk(m.q, h, c, Of(h, m.pending));
    SinceIsNonNegative(m0, m, h);
    SendIndex(m.q, h, c, Of(h, m.pending), s, before);
    assert Since(m0, m', h) == before + [s];
    AppendNonIncreasing(before, s);
  }

  /** Any action but a send leaves a prefix of what could still be read. */
  lemma MonoNoSend(m0: Machine, m: Machine, m': Machine, h: Handle)
    requires m'.q == m.q && h in m.chans && h in m'.chans && MonoFor(m0, m, h)
    requires m'.chans[h].got == m.chans[h].got
    requires m'.chans[h].buf == m.chans[h].buf || m'.chans[h].buf == []
    ensures MonoFor(m0, m', h)
  {
    assert Since(m0, m', h) <= Since(m0, m, h);
  }

  lemma MonoProceed(m0: Machine, m: Machine)
    requires Mono(m0, m) && m.pending != []
    ensures Mono(m0, Next(m, Proceed))
  {
    var m', a := Next(m, Proceed), m.pending[0];
    NextKeeps(m, Proceed);
    forall h | h in m'.chans ensures MonoFor(m0, m', h) {
      if h == a.h && a.Send? {
        MonoSend(m0, m, m', a.s);
      } else {
        MonoNoSend(m0, m, m', h);
      }
    }
  }

  lemma SinceAfterReceive(m0: Machine, m: Machine, h: Handle, x: Handle)
    requires MachineInv(m) && x in m.chans
    requires x in m0.chans ==> |m0.chans[x].got| <= |m.chans[x].got|
    ensures var m' := Next(m, Receive(h));
      && |m.chans[x].got| <= |m'.chans[x].got|
      && Since(m0, m', x) == Since(m0, m, x)
  {
    if x == h && !Finished(m.chans[h].got) {
      var c := m.chans[h];
      RecvOk(m.q, h, c, Of(h, m.pending));
      var k := if x in m0.chans then |m0.chans[x].got| else 0;
      assert c.got[k..] + c.buf == (c.got + c.buf)[k..];
      assert Recv(c).got[k..] + Recv(c).buf == (Recv(c).got + Recv(c).buf)[k..];
    }
  }

  lemma MonoReceive(m0: Machine, m: Machine, h: Handle)
    requires Mono(m0, m)
    ensures Mono(m0, Next(m, Receive(h)))
  {
    var m' := Next(m, Receive(h));
    NextKeeps(m, Receive(h));
    forall x | x in m'.chans ensures MonoFor(m0, m', x) {
      assert MonoFor(m0, m, x);
      SinceAfterReceive(m0, m, h, x);
    }
  }

  lemma {:induction false} MonoPlay(m0: Machine, m: Machine, events: seq<Event>)
    requires Mono(m0, m)
    requires forall i :: 0 <= i < |events| && events[i].Call? ==> !events[i].op.SetMax?
    ensures Mono(m0, Play(m, events))
    decreases |events|
  {
    if events == [] {
    } else {
      var e := events[0];
      match e {
        case Call(op) => MonoCall(m0, m, op);
        case Proceed => if m.pending != [] { MonoProceed(m0, m); }
        case Receive(h) => MonoReceive(m0, m, h);
      }
      MonoPlay(m0, Next(m, e), events[1..]);
    }
  }

  lemma MonoStartFor(m0: Machine, x: Handle)
    requires x in m0.chans && ChanOk(m0.q, x, m0.chans[x], [])
    ensures MonoFor(m0, m0, x)
  {
    assert Since(m0, m0, x) == m0.chans[x].buf;
  }

  lemma MonoStart(m0: Machine)
    requires MachineInv(m0) && m0.pending == []
    ensures Mono(m0, m0)
  {
    forall x | x in m0.chans ensures MonoFor(m0, m0, x) {
      MonoStartFor(m0, x);
    }
  }

  lemma MonoGot(m0: Machine, m: Machine, h: Handle)
    requires h in m.chans && MonoFor(m0, m, h)
    ensures var k := if h in m0.chans then |m0.chans[h].got| else 0;
      k <= |m.chans[h].got| && NonIncreasing(m.chans[h].got[k..])
  {
    var k := if h in m0.chans then |m0.chans[h].got| else 0;
    assert m.chans[h].got[k..] <= Since(m0, m, h);
  }

  /** From any reachable state with the lock free, until the next resize, the indexes a
      consumer reads never increase. */
  lemma PositionsNeverIncrease(max: int, maxQueued: int, before: seq<Event>, events: seq<Event>, h: Handle)
    requires Play(Start(max, maxQueued), before).pending == []
    requires forall i :: 0 <= i < |events| && events[i].Call? ==> !events[i].op.SetMax?
    requires h in Play(Play(Start(max, maxQueued), before), events).chans
    ensures var m0 := Play(Start(max, maxQueued), before);
      var got := Play(m0, events).chans[h].got;
      var k := if h in m0.chans then |m0.chans[h].got| else 0;
      k <= |got| && NonIncreasing(got[k..])
  {
    var m0 := Play(Start(max, maxQueued), before);
    PlayKeeps(Start(max, maxQueued), before);
    MonoStart(m0);
    MonoPlay(m0, m0, events);
    MonoGot(m0, Play(m0, events), h);
  }
}

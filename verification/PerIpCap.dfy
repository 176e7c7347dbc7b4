/**
 The per-IP cap of one upstream under concurrency. Each connection runs the admission part
 of the relay as separate atomic steps: increment and compare, undo on rejection, acquire
 from the queue, release, and only then decrement. A run is any interleaving of such steps
 with arrivals and resizes of the queue.
 */
module PerIpCap {
  import opened AdmissionQueue

  type Ip = string

  /** A positive cap; without one, the counter is not looked at. */
  type Cap = n: nat | n > 0 witness 1

  /** Where a connection stands. `Undoing` has been rejected and still has to take its
      increment back; `Left` has released its handle and still has to decrement. */
  datatype Phase = Arrived | Undoing | Holding | InQueue(h: Handle) | Left | Gone

  datatype Conn = Conn(ip: Ip, phase: Phase)

  datatype World = World(q: State, counter: map<Ip, int>, conns: seq<Conn>)

  datatype Event = Arrive(ip: Ip) | Move(i: nat) | Resize(max: int, maxQueued: int)

  function Start(max: int, maxQueued: int): World {
    World(New(max, maxQueued), map[], [])
  }

  function Count(w: World, ip: Ip): int {
    if ip in w.counter then w.counter[ip] else 0
  }

  function Add(w: World, ip: Ip, d: int): map<Ip, int> {
    w.counter[ip := Count(w, ip) + d]
  }

  /** The next step of connection `i` under the cap `limit`. */
  function Advance(w: World, i: nat, limit: Cap): World
    requires i < |w.conns|
  {
    var c := w.conns[i];
    match c.phase
    case Arrived =>
      var phase := if Count(w, c.ip) + 1 > limit then Undoing else Holding;
      w.(counter := Add(w, c.ip, 1), conns := w.conns[i := Conn(c.ip, phase)])
    case Undoing => w.(counter := Add(w, c.ip, -1), conns := w.conns[i := Conn(c.ip, Gone)])
    case Holding => w.(q := Step(w.q, Acquire), conns := w.conns[i := Conn(c.ip, InQueue(w.q.next))])
    case InQueue(h) => w.(q := Step(w.q, Release(h)), conns := w.conns[i := Conn(c.ip, Left)])
    case Left => w.(counter := Add(w, c.ip, -1), conns := w.conns[i := Conn(c.ip, Gone)])
    case Gone => w
  }

  function Next(w: World, e: Event, limit: Cap): World {
    match e
    case Arrive(ip) => w.(conns := w.conns + [Conn(ip, Arrived)])
    case Move(i) => if i < |w.conns| then Advance(w, i, limit) else w
    case Resize(max, maxQueued) => w.(q := Step(w.q, SetMax(max, maxQueued)))
  }

  function Play(w: World, events: seq<Event>, limit: Cap): World
    decreases |events|
  {
    if events == [] then w else Play(Next(w, events[0], limit), events[1..], limit)
  }

  // ---------------------------------------------------------------- who counts

  datatype Role = Holder | Undoer | Bystander

  /** Whether a phase holds the cap, is taking its increment back, or neither. */
  function RoleOf(p: Phase): Role {
    match p
    case Undoing => Undoer
    case Holding | InQueue(_) | Left => Holder
    case Arrived | Gone => Bystander
  }

  ghost function Members(conns: seq<Conn>, ip: Ip, role: Role): set<nat> {
    set i | 0 <= i < |conns| && conns[i].ip == ip && RoleOf(conns[i].phase) == role
  }

  /** The queue entries, active or waiting, that belong to connections from `ip`. */
  ghost function Entries(w: World, ip: Ip): set<Handle> {
    set h | h in Line(w.q) && Conn(ip, InQueue(h)) in w.conns
  }

  ghost predicate CountOk(w: World, ip: Ip, limit: Cap) {
    && Count(w, ip) == |Members(w.conns, ip, Holder)| + |Members(w.conns, ip, Undoer)|
    && |Members(w.conns, ip, Holder)| <= limit
  }

  ghost predicate WorldInv(w: World, limit: Cap) {
    && Inv(w.q)
    && (forall ip :: CountOk(w, ip, limit))
    && (forall h :: h in Line(w.q) ==> exists ip :: Conn(ip, InQueue(h)) in w.conns)
  }

  // ---------------------------------------------------------------- one connection moves

  lemma SizeWithout(s: set<nat>, i: nat)
    ensures |s| == |s - {i}| + if i in s then 1 else 0
  {
    if i in s {
      assert s == (s - {i}) + {i};
    } else {
      assert s == s - {i};
    }
  }

  lemma MembersUpdate(conns: seq<Conn>, i: nat, phase: Phase, ip: Ip, role: Role)
    requires i < |conns|
    ensures var here := ip == conns[i].ip;
      |Members(conns[i := Conn(conns[i].ip, phase)], ip, role)|
      == |Members(conns, ip, role)|
         + (if here && RoleOf(phase) == role then 1 else 0)
         - (if here && RoleOf(conns[i].phase) == role then 1 else 0)
  {
    var after := Members(conns[i := Conn(conns[i].ip, phase)], ip, role);
    var before := Members(conns, ip, role);
    forall j ensures j in after - {i} <==> j in before - {i} {
    }
    SizeWithout(after, i);
    SizeWithout(before, i);
    assert after - {i} == before - {i};
  }

  lemma AdvanceCounts(w: World, i: nat, limit: Cap, ip: Ip)
    requires i < |w.conns| && CountOk(w, ip, limit)
    ensures CountOk(Advance(w, i, limit), ip, limit)
  {
    var w' := Advance(w, i, limit);
    MembersUpdate(w.conns, i, w'.conns[i].phase, ip, Holder);
    MembersUpdate(w.conns, i, w'.conns[i].phase, ip, Undoer);
    assert w'.conns == w.conns[i := Conn(w.conns[i].ip, w'.conns[i].phase)];
  }

  /** Everyone in line after the step was in line before it, or is the new arrival; a
      released handle is no longer in line. */
  lemma LineAfter(q: State, op: Op, h: Handle)
    requires Inv(q) && h in Line(Step(q, op))
    ensures h in Line(q) || (op.Acquire? && h == q.next)
    ensures op.Release? ==> h != op.h
  {
    match op
    case SetMax(max, maxQueued) => PromoteIsWatermark(q.(max := max, maxQueued := maxQueued));
    case Acquire => AcquireLine(q);
    case Release(x) =>
      if x < q.next && x !in q.released {
        RemoveLine(q.(released := q.released + {x}), x);
        WithoutContents(Line(q), x);
      } else {
        assert x in Line(q) ==> Live(q, x);
      }
  }

  lemma AdvanceOwners(w: World, i: nat, limit: Cap, h: Handle)
    requires WorldInv(w, limit) && i < |w.conns| && h in Line(Advance(w, i, limit).q)
    ensures exists ip :: Conn(ip, InQueue(h)) in Advance(w, i, limit).conns
  {
    var w', c := Advance(w, i, limit), w.conns[i];
    assert w'.conns[i] in w'.conns;
    if c.phase.Holding? {
      LineAfter(w.q, Acquire, h);
    } else if c.phase.InQueue? {
      LineAfter(w.q, Release(c.phase.h), h);
    }
    if w'.conns[i].phase != InQueue(h) {
      var ip :| Conn(ip, InQueue(h)) in w.conns;
      var j :| 0 <= j < |w.conns| && w.conns[j] == Conn(ip, InQueue(h));
      assert j != i;
      assert w'.conns[j] == w.conns[j];
    }
  }

  lemma NextKeeps(w: World, e: Event, limit: Cap)
    requires WorldInv(w, limit)
    ensures WorldInv(Next(w, e, limit), limit)
  {
    var w' := Next(w, e, limit);
    match e
    case Arrive(new_) =>
      forall ip ensures CountOk(w', ip, limit) {
        assert CountOk(w, ip, limit);
        assert Members(w'.conns, ip, Holder) == Members(w.conns, ip, Holder);
        assert Members(w'.conns, ip, Undoer) == Members(w.conns, ip, Undoer);
      }
    case Move(i) =>
      if i < |w.conns| {
        var phase := w.conns[i].phase;
        if phase.Holding? { StepKeepsInv(w.q, Acquire); }
        if phase.InQueue? { StepKeepsInv(w.q, Release(phase.h)); }
        forall ip ensures CountOk(w', ip, limit) {
          AdvanceCounts(w, i, limit, ip);
        }
        forall h | h in Line(w'.q) ensures exists ip :: Conn(ip, InQueue(h)) in w'.conns {
          AdvanceOwners(w, i, limit, h);
        }
      }
    case Resize(max, maxQueued) =>
      StepKeepsInv(w.q, SetMax(max, maxQueued));
      forall h | h in Line(w'.q) ensures h in Line(w.q) {
        LineAfter(w.q, SetMax(max, maxQueued), h);
      }
      assert forall ip :: CountOk(w, ip, limit) ==> CountOk(w', ip, limit);
  }

  lemma {:induction false} PlayKeeps(w: World, events: seq<Event>, limit: Cap)
    requires WorldInv(w, limit)
    ensures WorldInv(Play(w, events, limit), limit)
    decreases |events|
  {
    if events == [] {
    } else {
      NextKeeps(w, events[0], limit);
      PlayKeeps(Next(w, events[0], limit), events[1..], limit);
    }
  }

  // ---------------------------------------------------------------- main result

  ghost function HandlesOf(conns: seq<Conn>, who: set<nat>): set<Handle>
    requires forall i :: i in who ==> i < |conns|
  {
    set i | i in who && conns[i].phase.InQueue? :: conns[i].phase.h
  }

  lemma {:induction false} HandlesBound(conns: seq<Conn>, who: set<nat>)
    requires forall i :: i in who ==> i < |conns|
    ensures |HandlesOf(conns, who)| <= |who|
    decreases |who|
  {
    if who != {} {
      var i :| i in who;
      HandlesBound(conns, who - {i});
      var rest := HandlesOf(conns, who - {i});
      if conns[i].phase.InQueue? {
        assert HandlesOf(conns, who) == rest + {conns[i].phase.h};
      } else {
        assert HandlesOf(conns, who) == rest;
      }
    } else {
      assert HandlesOf(conns, who) == {};
    }
  }

  lemma SubsetSize(a: set<Handle>, b: set<Handle>)
    requires a <= b
    ensures |a| <= |b|
  {
    assert b == a + (b - a);
  }

  lemma Reachable(max: int, maxQueued: int, events: seq<Event>, limit: Cap)
    ensures WorldInv(Play(Start(max, maxQueued), events, limit), limit)
  {
    var w0 := Start(max, maxQueued);
    forall ip ensures CountOk(w0, ip, limit) {
      assert Members(w0.conns, ip, Holder) == {} && Members(w0.conns, ip, Undoer) == {};
    }
    PlayKeeps(w0, events, limit);
  }

  /** With a positive cap, in every interleaving: the counter of an address is the number of
      its holders plus its in-flight undos, so it is never negative; at most `limit`
      connections hold the cap; and the address has at most `limit` entries in the
      upstream's active and waiting lists together. */
  lemma PerIpCapHolds(max: int, maxQueued: int, events: seq<Event>, limit: Cap, ip: Ip)
    ensures var w := Play(Start(max, maxQueued), events, limit);
      && Count(w, ip) == |Members(w.conns, ip, Holder)| + |Members(w.conns, ip, Undoer)|
      && |Members(w.conns, ip, Holder)| <= limit
      && |Entries(w, ip)| <= limit
      && (forall h :: h in Line(w.q) ==> exists someone :: h in Entries(w, someone))
  {
    Reachable(max, maxQueued, events, limit);
    var w := Play(Start(max, maxQueued), events, limit);
    assert CountOk(w, ip, limit);
    var who := Members(w.conns, ip, Holder);
    HandlesBound(w.conns, who);
    forall h | h in Entries(w, ip) ensures h in HandlesOf(w.conns, who) {
      var i :| 0 <= i < |w.conns| && w.conns[i] == Conn(ip, InQueue(h));
      assert i in who;
    }
    SubsetSize(Entries(w, ip), HandlesOf(w.conns, who));
    forall h | h in Line(w.q) ensures exists someone :: h in Entries(w, someone) {
      var someone :| Conn(someone, InQueue(h)) in w.conns;
      assert h in Entries(w, someone);
    }
  }

  // ---------------------------------------------------------------- who is let in

  /** In every reachable world, a connection that arrives holds the cap exactly when holders and
      in-flight undos of its address are fewer than the cap; otherwise it is refused. */
  lemma LetInIff(max: int, maxQueued: int, events: seq<Event>, limit: Cap, i: nat)
    ensures var w := Play(Start(max, maxQueued), events, limit);
      i < |w.conns| && w.conns[i].phase == Arrived ==>
        var ip, after := w.conns[i].ip, Next(w, Move(i), limit).conns[i];
        && after.ip == ip && (after.phase == Holding || after.phase == Undoing)
        && (after.phase == Holding <==> |Members(w.conns, ip, Holder)| + |Members(w.conns, ip, Undoer)| < limit)
  {
    Reachable(max, maxQueued, events, limit);
    var w := Play(Start(max, maxQueued), events, limit);
    if i < |w.conns| { assert CountOk(w, w.conns[i].ip, limit); }
  }

  /** With no undo in flight, an address with fewer holders than the cap is never refused. */
  lemma NotRefusedBelowCap(max: int, maxQueued: int, events: seq<Event>, limit: Cap, i: nat)
    ensures var w := Play(Start(max, maxQueued), events, limit);
      && (i < |w.conns| && w.conns[i].phase == Arrived ==>
            var ip := w.conns[i].ip;
            Members(w.conns, ip, Undoer) == {} && |Members(w.conns, ip, Holder)| < limit ==>
              Next(w, Move(i), limit).conns[i] == Conn(ip, Holding))
  {
    LetInIff(max, maxQueued, events, limit, i);
  }

  /** A holder's next steps: it enters the line or is turned away by the full queue, then leaves
      the line for good, and gives the cap back last. */
  lemma HolderSteps(max: int, maxQueued: int, events: seq<Event>, limit: Cap, i: nat)
    ensures var w := Play(Start(max, maxQueued), events, limit);
      i < |w.conns| ==>
        var w', ip := Next(w, Move(i), limit), w.conns[i].ip;
        match w.conns[i].phase
        case Holding => w'.conns[i].phase.InQueue? && w'.conns[i].phase.h !in Line(w.q)
                        && (w'.conns[i].phase.h in Line(w'.q) || w'.conns[i].phase.h in w'.q.rejected)
        case InQueue(h) => w'.conns[i].phase == Left && h !in Line(w'.q) && Count(w', ip) == Count(w, ip)
        case Left => w'.conns[i].phase == Gone && Count(w', ip) == Count(w, ip) - 1
        case Undoing => w'.conns[i].phase == Gone && Count(w', ip) == Count(w, ip) - 1
        case _ => true
  {
    Reachable(max, maxQueued, events, limit);
    var w := Play(Start(max, maxQueued), events, limit);
    if i < |w.conns| {
      match w.conns[i].phase
      case Holding =>
        AcquireLine(w.q);
        assert w.q.next in Line(Step(w.q, Acquire)) || w.q.next in Step(w.q, Acquire).rejected;
      case InQueue(h) =>
        if h in Line(Step(w.q, Release(h))) { LineAfter(w.q, Release(h), h); }
      case _ =>
    }
  }
}

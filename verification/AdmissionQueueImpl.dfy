/**
 The queue as the program writes it: a class whose methods update the two lists in loops.
 Each method is proved to leave exactly the state, and to perform exactly the channel
 actions in order, that the value-level step of `AdmissionQueue` gives. What consumers may
 do between those actions is the subject of `StatusChannels`.
 */
module AdmissionQueueImpl {
  import opened AdmissionQueue

  class Queue {
    var max: int
    var maxQueued: int
    var active: seq<Handle>
    var queued: seq<Handle>
    var next: nat
    var released: set<Handle>
    ghost var rejected: set<Handle>
    // Every channel action performed so far, in order.
    var trace: seq<Action>

    ghost function View(): State
      reads this
    {
      State(max, maxQueued, active, queued, next, released, rejected)
    }

    constructor (max: int, maxQueued: int)
      ensures View() == New(max, maxQueued) && trace == []
    {
      this.max, this.maxQueued := max, maxQueued;
      active, queued, next, released, trace := [], [], 0, {}, [];
      rejected := {};
    }

    method TrySend(h: Handle, s: Status)
      modifies `trace
      ensures trace == old(trace) + [Drain(h), Send(h, s)]
    {
      trace := trace + [Drain(h)];
      trace := trace + [Send(h, s)];
    }

    method PopFront()
      requires queued != []
      modifies this
      ensures View() == PopHead(old(View()))
      ensures trace == old(trace) + PopHeadActions(old(View()))
    {
      var head := queued[0];
      TrySend(head, OK);
      trace := trace + [Close(head)];
      active := active + [head];
      queued := queued[1..];
    }

    /** The loop shared by `SetMax` and `releaseFromHandle`. */
    method PromoteWhileFree()
      modifies this
      ensures View() == Promote(old(View()))
      ensures trace == old(trace) + PromoteActions(old(View()))
    {
      while |queued| > 0 && (|active| < max || max == 0)
        invariant Promote(View()) == Promote(old(View()))
        invariant trace + PromoteActions(View()) == old(trace) + PromoteActions(old(View()))
        decreases |queued|
      {
        ghost var before := View();
        ghost var done := trace;
        PopFront();
        assert trace + PromoteActions(View()) == done + PromoteActions(before);
      }
    }

    method BroadcastStatus()
      modifies `trace
      ensures trace == old(trace) + BroadcastActions(View(), |queued|)
    {
      var surplus := |active| - max;
      for i := 0 to |queued|
        invariant trace == old(trace) + BroadcastActions(View(), i)
      {
        TrySend(queued[i], Status(surplus + i, surplus + |queued|, false, false));
      }
    }

    method SetMax(max: int, maxQueued: int)
      modifies this
      ensures View() == Step(old(View()), Op.SetMax(max, maxQueued))
      ensures trace == old(trace) + Actions(old(View()), Op.SetMax(max, maxQueued))
    {
      this.max, this.maxQueued := max, maxQueued;
      PromoteWhileFree();
      BroadcastStatus();
    }

    method Acquire() returns (h: Handle)
      modifies this
      ensures h == old(next)
      ensures View() == Step(old(View()), Op.Acquire)
      ensures trace == old(trace) + Actions(old(View()), Op.Acquire)
    {
      h := next;
      next := next + 1;
      if |active| < max || max == 0 {
        active := active + [h];
        trace := trace + [Send(h, OK), Close(h)];
      } else if maxQueued > 0 && |queued| >= maxQueued {
        trace := trace + [Send(h, FULL), Close(h)];
        rejected := rejected + {h};
      } else {
        queued := queued + [h];
        var surplus := |active| - max;
        trace := trace + [Send(h, Status(surplus + |queued| - 1, surplus + |queued|, false, false))];
      }
    }

    /** The filtering loop of `releaseFromHandle`. */
    method Filter(s: seq<Handle>, h: Handle) returns (newList: seq<Handle>)
      ensures newList == Without(s, h)
    {
      newList := [];
      for i := 0 to |s|
        invariant newList == Without(s[..i], h)
      {
        assert s[..i + 1][..i] == s[..i];
        if h != s[i] {
          newList := newList + [s[i]];
        }
      }
      assert s[..|s|] == s;
    }

    method ReleaseFromHandle(h: Handle)
      modifies this
      ensures View() == Remove(old(View()), h)
      ensures trace == old(trace) + RemoveActions(old(View()), h)
    {
      var newList := Filter(queued, h);
      if |newList| != |queued| {
        queued := newList;
        BroadcastStatus();
        return;
      }
      newList := Filter(active, h);
      active := newList;
      PromoteWhileFree();
      BroadcastStatus();
    }

    method Release(h: Handle)
      requires h < next
      modifies this
      ensures View() == Step(old(View()), Op.Release(h))
      ensures trace == old(trace) + Actions(old(View()), Op.Release(h))
    {
      if h in released {
        return;
      }
      released := released + {h};
      ReleaseFromHandle(h);
    }
  }
}

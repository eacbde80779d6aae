/** The waiters and queues of backpressure/codel.go as the mutable objects they are, proved against
    the functions of module Queues. */
module CoDels {
  import opened Wrappers
  import opened Clocks
  import opened Queues
  import opened Deques

  class CoDelWaiter {
    ghost const id: nat
    const enqueued: Time
    const payload: int
    var state: WaiterState
    var c: seq<bool>          // the content of the one-slot channel

    ghost function Item(): (item: Item) {
      Queues.Item(id, enqueued, payload)
    }

    constructor (enqueTime: Time, payload: int, ghost ticket: nat)
      ensures Item() == Queues.Item(ticket, enqueTime, payload)
      ensures state == Waiting && c == []
    {
      id := ticket;
      enqueued := enqueTime;
      this.payload := payload;
      state := Waiting;
      c := [];
    }

    // A send to a channel that is full would block the lock holder; that it never happens is each
    // caller's to prove.
    method Send(v: bool)
      requires c == []
      modifies this`c
      ensures c == [v]
    {
      c := c + [v];
    }

    method Admit() returns (isAdmitted: bool)
      requires state == Waiting ==> c == []
      modifies this
      ensures isAdmitted <==> old(state) == Waiting
      ensures if isAdmitted then state == Admitted && c == [true] else unchanged(this)
    {
      isAdmitted := state == Waiting;
      if isAdmitted {
        state := Admitted;
        Send(true);
      }
    }

    method Drop()
      requires c == []
      modifies this`c
      ensures c == [false]
    {
      Send(false);
    }

    // The first branch of wait: the context is done.
    method ContextDone() returns (r: Outcome)
      modifies this`state
      ensures if old(state) == Waiting then state == Expired && r == Cancelled
              else state == old(state) && r == Granted
    {
      var didSwap := state == Waiting;
      if didSwap {
        state := Expired;
      }
      r := if didSwap then Cancelled else Granted;
    }

    // The second branch of wait: a value has arrived.
    method Receive() returns (r: Outcome)
      requires c != []
      modifies this`c
      ensures c == old(c)[1..] && r == if old(c)[0] then Granted else Rejected
    {
      var v := c[0];
      c := c[1..];
      r := if v then Granted else Rejected;
    }
  }

  class CoDel {
    const shortTimeout: Duration
    const longTimeout: Duration
    var lastEmptied: Time
    var mode: Mode
    const items: Deque<CoDelWaiter?>
    ghost var q: Queue            // the queue as a value

    ghost predicate Valid()
      reads this, items, items.a
    {
      && items.Valid() && items.a != null && items.zero == null
      && q == Queue(shortTimeout, longTimeout, items.a.Length, mode, lastEmptied, q.items)
      && |q.items| == |items.Contents|
      && forall j :: 0 <= j < |q.items| ==> items.Contents[j] != null && items.Contents[j].Item() == q.items[j]
    }

    constructor (shortTimeout: Duration, longTimeout: Duration, queueSize: int, now: Time)
      requires queueSize > 0
      ensures Valid() && q == NewQueue(shortTimeout, longTimeout, queueSize, now)
      ensures fresh(items) && fresh(items.a) && items.Contents == []
    {
      this.shortTimeout := shortTimeout;
      this.longTimeout := longTimeout;
      lastEmptied := now;
      mode := FIFO;
      items := new Deque<CoDelWaiter?>.New(queueSize, null);
      q := NewQueue(shortTimeout, longTimeout, queueSize, now);
    }

    function IsEmpty(): (r: bool)
      requires Valid()
      reads this, items, items.a
      ensures r <==> q.items == []
    {
      items.Len() == 0
    }

    method SetMode(now: Time)
      requires Valid()
      modifies this
      ensures Valid() && q == old(q).SetMode(now)
    {
      if items.Len() == 0 {
        mode := FIFO;
        lastEmptied := now;
      } else if now - lastEmptied > longTimeout {
        mode := LIFO;
      }
      q := q.SetMode(now);
    }

    // The error of a full deque is dropped here, as in the source.
    method Push(wc: CoDelWaiter, now: Time)
      requires Valid()
      modifies this, items, items.a
      ensures Valid() && q == old(q).Push(wc.Item(), now) && items.a == old(items.a)
      ensures items.Contents == if old(q).Full() then old(items.Contents) else old(items.Contents) + [wc]
    {
      SetMode(now);
      var _ := items.PushBack(wc);
      q := old(q).Push(wc.Item(), now);
    }

    method Peek() returns (r: Option<int>)
      requires Valid()
      ensures r == if q.items == [] then None else Some(q.Next().demand)
    {
      if items.Len() == 0 {
        return None;
      }
      var next: Result<CoDelWaiter?, DequeError>;
      if mode == FIFO {
        next := items.Front();
      } else {
        next := items.Back();
      }
      r := Some(next.value.payload);
    }

    // The waiter that peek shows and pop removes.
    ghost function NextWaiter(): (w: CoDelWaiter)
      requires Valid() && q.items != []
      reads this, items, items.a
      ensures w.Item() == q.Next()
    {
      if q.mode == FIFO then items.Contents[0] else items.Contents[|items.Contents| - 1]
    }

    ghost function RestWaiters(): (ws: seq<CoDelWaiter?>)
      requires Valid() && q.items != []
      reads this, items, items.a
    {
      if q.mode == FIFO then items.Contents[1..] else items.Contents[..|items.Contents| - 1]
    }

    method Pop(now: Time) returns (r: Option<int>)
      requires Valid()
      requires q.items != [] && NextWaiter().state == Waiting ==> NextWaiter().c == []
      modifies this, items, items.a, if q.items == [] then {} else {NextWaiter()}
      ensures Valid() && q == old(q).Pop(now) && items.a == old(items.a)
      ensures old(q).items == [] ==> r == None && items.Contents == old(items.Contents)
      ensures old(q).items != [] ==>
                var w := old(NextWaiter());
                && items.Contents == old(RestWaiters())
                && r == (if old(w.state) == Waiting then Some(w.payload) else None)
                && (if old(w.state) == Waiting then w.state == Admitted && w.c == [true]
                    else w.state == old(w.state) && w.c == old(w.c))
    {
      if items.Len() == 0 {
        return None;
      }
      var popped: Result<CoDelWaiter?, DequeError>;
      if mode == FIFO {
        popped := items.PopFront();
      } else {
        popped := items.PopBack();
      }
      q := q.(items := q.Rest());
      var wc := popped.value;
      SetMode(now);
      var ok := wc.Admit();
      r := if ok then Some(wc.payload) else None;
    }

    // The state of reap's loop: the first n of the waiters are dropped and gone, the others queued.
    ghost predicate Shedding(waiters: seq<CoDelWaiter?>, before: Queue, n: nat)
      reads this, items, items.a, waiters
    {
      && Valid() && n <= |waiters| == |before.items|
      && items.Contents == waiters[n..] && q == before.(items := before.items[n..])
      && (forall j :: 0 <= j < |waiters| ==> waiters[j] != null && waiters[j].c == if j < n then [false] else [])
      && (forall i, j :: 0 <= i < j < |waiters| ==> waiters[i] != waiters[j])
    }

    // One turn of reap's loop.
    method DropFront(ghost waiters: seq<CoDelWaiter?>, ghost before: Queue, ghost n: nat, ghost w: CoDelWaiter)
      requires Shedding(waiters, before, n) && n < |waiters| && waiters[n] == w
      modifies this, items, items.a, w`c
      ensures Shedding(waiters, before, n + 1) && items.a == old(items.a)
    {
      var item := items.PopFront();
      q := q.(items := q.items[1..]);
      item.value.Drop();
    }

    // The condition of reap's loop.
    method FrontIsStale(timeout: Duration, now: Time) returns (stale: bool)
      requires Valid()
      ensures stale <==> q.items != [] && Stale(q.items[0], timeout, now)
    {
      if items.Len() == 0 {
        return false;
      }
      var front := items.Front();
      stale := now - front.value.enqueued > timeout;
    }

    // reap's loop: drop from the front while the front is stale.
    method ShedStale(timeout: Duration, now: Time)
      requires Shedding(items.Contents, q, 0)
      modifies this, items, items.a, (set w: CoDelWaiter | w in items.Contents)`c
      ensures Shedding(old(items.Contents), old(q), StaleCount(old(q).items, timeout, now))
      ensures items.a == old(items.a)
    {
      ghost var before, waiters := q, items.Contents;
      ghost var n := 0;
      var stale := FrontIsStale(timeout, now);
      while stale
        invariant Shedding(waiters, before, n) && items.a == old(items.a)
        invariant forall j :: 0 <= j < n ==> Stale(before.items[j], timeout, now)
        invariant stale <==> n < |waiters| && Stale(before.items[n], timeout, now)
        decreases |waiters| - n
      {
        DropFront(waiters, before, n, waiters[n]);
        n := n + 1;
        stale := FrontIsStale(timeout, now);
      }
      StaleCountIs(before.items, timeout, now, n);
    }

    // The first half of reap.
    method ChooseTimeout(now: Time) returns (timeout: Duration)
      requires Valid()
      modifies this
      ensures Valid() && q == old(q).SetMode(now) && timeout == q.Timeout()
    {
      SetMode(now);
      timeout := longTimeout;
      if mode == LIFO {
        timeout := shortTimeout;
      }
    }

    method Reap(now: Time)
      requires Shedding(items.Contents, q, 0)
      modifies this, items, items.a, (set w: CoDelWaiter | w in items.Contents)`c
      ensures Valid() && q == old(q).Reap(now) && items.a == old(items.a)
      ensures items.Contents == old(items.Contents)[|old(q).Shed(now)|..]
      ensures var was, n := old(q).items, |old(q).Shed(now)|;
              var overdue := was != [] && (old(mode) == LIFO || now - old(lastEmptied) > longTimeout);
              var timeout := if overdue then shortTimeout else longTimeout;
              && n <= |was| && (forall j :: 0 <= j < n ==> now - was[j].enqueued > timeout)
              && (n < |was| ==> now - was[n].enqueued <= timeout)
      ensures forall j :: 0 <= j < |old(items.Contents)| ==>
                old(items.Contents)[j].c == if j < |old(q).Shed(now)| then [false] else []
    {
      var timeout := ChooseTimeout(now);
      ghost var n := StaleCount(q.items, timeout, now);
      assert |old(q).Shed(now)| == n;
      ShedStale(timeout, now);
      SetMode(now);
    }
  }
}

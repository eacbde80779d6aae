/** The CoDel queue of backpressure/codel.go as a value: what each of its methods computes. */
module Queues {
  import opened Clocks

  datatype Mode = FIFO | LIFO

  // The waiter's atomic word: 0, 1 and 2 in the source.
  datatype WaiterState = Waiting | Admitted | Expired

  // What wait has returned to its caller, if it has returned: nil, ErrRejected or ctx.Err().
  datatype Outcome = Pending | Granted | Rejected | Cancelled

  // A waiter as the queue sees it: its ticket, when it was enqueued and the tokens it asks for.
  datatype Item = Item(id: nat, enqueued: Time, demand: int)

  // The items run from the front of the deque to its back; room is the deque's capacity.
  datatype Queue = Queue(
    shortTimeout: Duration, longTimeout: Duration, room: nat,
    mode: Mode, lastEmptied: Time, items: seq<Item>)
  {
    function SetMode(now: Time): (q: Queue) {
      if items == [] then this.(mode := FIFO, lastEmptied := now)
      else if now - lastEmptied > longTimeout then this.(mode := LIFO)
      else this
    }

    predicate Full() {
      |items| == room
    }

    // A full deque refuses the item, and nobody looks at the error.
    function Push(item: Item, now: Time): (q: Queue) {
      var q := SetMode(now);
      if Full() then q else q.(items := items + [item])
    }

    // The item that peek shows and pop removes.
    function Next(): (item: Item)
      requires items != []
    {
      if mode == FIFO then items[0] else items[|items| - 1]
    }

    function Rest(): (rest: seq<Item>)
      requires items != []
    {
      if mode == FIFO then items[1..] else items[..|items| - 1]
    }

    function Pop(now: Time): (q: Queue)
    {
      if items == [] then this else this.(items := Rest()).SetMode(now)
    }

    function Timeout(): (d: Duration) {
      if mode == LIFO then shortTimeout else longTimeout
    }

    // The items a reap drops, and the queue it leaves.
    function Shed(now: Time): (dropped: seq<Item>) {
      var q := SetMode(now);
      items[..StaleCount(items, q.Timeout(), now)]
    }

    function Reap(now: Time): (q: Queue) {
      var q := SetMode(now);
      q.(items := items[StaleCount(items, q.Timeout(), now)..]).SetMode(now)
    }
  }

  predicate Stale(item: Item, timeout: Duration, now: Time) {
    now - item.enqueued > timeout
  }

  // Length of the run of stale items at the front, which is all that reap looks at.
  function StaleCount(items: seq<Item>, timeout: Duration, now: Time): (n: nat)
    ensures n <= |items|
    ensures forall i :: 0 <= i < n ==> Stale(items[i], timeout, now)
    ensures n < |items| ==> !Stale(items[n], timeout, now)
  {
    if items == [] || !Stale(items[0], timeout, now) then 0
    else 1 + StaleCount(items[1..], timeout, now)
  }

  // The stale prefix is the only stretch of stale items that ends at the end or at a fresh one.
  lemma {:induction false} StaleCountIs(items: seq<Item>, timeout: Duration, now: Time, n: nat)
    requires n <= |items| && forall i :: 0 <= i < n ==> Stale(items[i], timeout, now)
    requires n < |items| ==> !Stale(items[n], timeout, now)
    ensures StaleCount(items, timeout, now) == n
  {
    if n > 0 {
      StaleCountIs(items[1..], timeout, now, n - 1);
    }
  }

  // An empty queue as NewCoDel leaves it.
  function NewQueue(shortTimeout: Duration, longTimeout: Duration, room: nat, now: Time): (q: Queue) {
    Queue(shortTimeout, longTimeout, room, FIFO, now, [])
  }

  // Items stand in order of arrival: tickets strictly increase and enqueue times never decrease.
  ghost predicate Arrived(items: seq<Item>) {
    forall i, j :: 0 <= i < j < |items| ==> items[i].id < items[j].id && items[i].enqueued <= items[j].enqueued
  }

  // What every queue satisfies at every moment of every run, t being the latest time it was touched.
  ghost predicate QueueOk(q: Queue, t: Time) {
    && Arrived(q.items)
    && |q.items| <= q.room
    && (q.items == [] ==> q.mode == FIFO)
    && q.lastEmptied <= t
    && (forall i :: 0 <= i < |q.items| ==> q.lastEmptied <= q.items[i].enqueued <= t)
    && (q.mode == LIFO ==> t - q.lastEmptied > q.longTimeout)
    && 0 <= q.shortTimeout <= q.longTimeout
  }

  lemma PushOk(q: Queue, item: Item, now: Time)
    requires QueueOk(q, now) && item.enqueued == now
    requires forall i :: 0 <= i < |q.items| ==> q.items[i].id < item.id
    requires q.room > 0
    ensures QueueOk(q.Push(item, now), now)
  {
  }

  lemma PopOk(q: Queue, now: Time)
    requires QueueOk(q, now)
    ensures QueueOk(q.Pop(now), now)
  {
  }

  lemma ReapOk(q: Queue, now: Time)
    requires QueueOk(q, now)
    ensures QueueOk(q.Reap(now), now)
  {
  }

  // The timeout that a queue is under at this time, told on its fields: the short one if it has been busy
  // for more than longTimeout or is in LIFO mode.
  function InForce(q: Queue, now: Time): (d: Duration) {
    if q.items != [] && (q.mode == LIFO || now - q.lastEmptied > q.longTimeout) then q.shortTimeout else q.longTimeout
  }

  // The waiters older than the timeout, and the others, each in their order.
  function OlderThan(items: seq<Item>, timeout: Duration, now: Time): (r: seq<Item>) {
    if items == [] then []
    else (if now - items[0].enqueued > timeout then [items[0]] else []) + OlderThan(items[1..], timeout, now)
  }

  function YoungerThan(items: seq<Item>, timeout: Duration, now: Time): (r: seq<Item>) {
    if items == [] then []
    else (if now - items[0].enqueued > timeout then [] else [items[0]]) + YoungerThan(items[1..], timeout, now)
  }

  lemma {:induction false} FrontScanIsFilter(items: seq<Item>, timeout: Duration, now: Time)
    requires Arrived(items)
    ensures var n := StaleCount(items, timeout, now);
            items[..n] == OlderThan(items, timeout, now) && items[n..] == YoungerThan(items, timeout, now)
  {
    if items != [] {
      FrontScanIsFilter(items[1..], timeout, now);
      if !Stale(items[0], timeout, now) && |items| > 1 {
        assert !Stale(items[1..][0], timeout, now);
      }
    }
  }

  // reap scans only the front of the deque and yet drops exactly the waiters older than the timeout
  // in force, keeping every other one in its place.
  lemma ReapIsFilter(q: Queue, now: Time)
    requires QueueOk(q, now)
    ensures q.Shed(now) == OlderThan(q.items, InForce(q, now), now)
    ensures q.Reap(now).items == YoungerThan(q.items, InForce(q, now), now)
    ensures q.Shed(now) + q.Reap(now).items == q.items
    ensures forall i :: 0 <= i < |q.Reap(now).items| ==> now - q.Reap(now).items[i].enqueued <= q.Reap(now).Timeout()
  {
    assert q.items != [] ==> q.SetMode(now).Timeout() == InForce(q, now);
    FrontScanIsFilter(q.items, q.SetMode(now).Timeout(), now);
  }

  // Position by position: exactly those older than the timeout in force go, and they stand in front.
  lemma ReapTellsByAge(q: Queue, now: Time)
    requires QueueOk(q, now)
    ensures var n := |q.items| - |q.Reap(now).items|;
            && 0 <= n <= |q.items| && q.Shed(now) == q.items[..n] && q.Reap(now).items == q.items[n..]
            && forall j :: 0 <= j < |q.items| ==> (j < n <==> now - q.items[j].enqueued > InForce(q, now))
  {
    var n := |q.Shed(now)|;
    assert q.Shed(now) == q.items[..n];
    if n < |q.items| {
      assert !Stale(q.items[n], q.SetMode(now).Timeout(), now);
    }
  }

  // A healthy queue never sheds: what a reap drops, it drops in LIFO mode under the short timeout.
  lemma HealthyQueueShedsNothing(q: Queue, now: Time)
    requires QueueOk(q, now)
    ensures q.Shed(now) != [] ==> q.SetMode(now).mode == LIFO
    ensures q.SetMode(now).mode == FIFO ==> q.Reap(now).items == q.items
  {
  }
}

/** A CoDel queue's mode is a function of what happened to it. */
module QueueHistory {
  import opened Clocks
  import opened Queues

  datatype Op = OpPush(item: Item, now: Time) | OpPop(now: Time) | OpReap(now: Time)

  function Apply(q: Queue, op: Op): (r: Queue) {
    match op
    case OpPush(item, now) => q.Push(item, now)
    case OpPop(now) => q.Pop(now)
    case OpReap(now) => q.Reap(now)
  }

  function Exec(q: Queue, ops: seq<Op>): (r: Queue) {
    if ops == [] then q else Apply(Exec(q, ops[..|ops| - 1]), ops[|ops| - 1])
  }

  function LastTime(q: Queue, ops: seq<Op>): (t: Time) {
    if ops == [] then q.lastEmptied else ops[|ops| - 1].now
  }

  // Times never decrease, and a push stamps its item with the time of the push.
  predicate Timely(q: Queue, ops: seq<Op>) {
    ops == [] ||
    var before, op := ops[..|ops| - 1], ops[|ops| - 1];
    Timely(q, before) && LastTime(q, before) <= op.now && (op.OpPush? ==> op.item.enqueued == op.now)
  }

  // When the current non-empty period began: the time of the latest push that found the queue empty.
  function BusySince(q: Queue, ops: seq<Op>): (t: Time) {
    if ops == [] then q.lastEmptied
    else
      var before, op := ops[..|ops| - 1], ops[|ops| - 1];
      if op.OpPush? && Exec(q, before).items == [] then op.now else BusySince(q, before)
  }

  // The mode of a queue whose non-empty period, if any, began at since and which was last touched
  // at the time last.
  ghost predicate ModeFits(q: Queue, since: Time, last: Time) {
    if q.items == [] then q.mode == FIFO
    else q.lastEmptied == since && (q.mode == LIFO <==> last - since > q.longTimeout)
  }

  lemma ModeStep(q: Queue, op: Op, since: Time, last: Time)
    requires ModeFits(q, since, last) && last <= op.now && q.room > 0 && q.longTimeout >= 0
    ensures ModeFits(Apply(q, op), if op.OpPush? && q.items == [] then op.now else since, op.now)
  {
  }

  // After any sequence of operations the mode is decided by history alone: FIFO while empty, and
  // otherwise LIFO exactly when the latest operation came more than longTimeout after the push
  // that ended the last emptiness.
  lemma {:induction false} ModeIsHistory(q: Queue, ops: seq<Op>)
    requires q.items == [] && q.mode == FIFO && q.room > 0 && q.longTimeout >= 0
    requires Timely(q, ops)
    ensures ModeFits(Exec(q, ops), BusySince(q, ops), LastTime(q, ops))
    ensures Exec(q, ops).longTimeout == q.longTimeout && Exec(q, ops).room == q.room
    decreases |ops|
  {
    if ops != [] {
      var before, op := ops[..|ops| - 1], ops[|ops| - 1];
      ModeIsHistory(q, before);
      ModeStep(Exec(q, before), op, BusySince(q, before), LastTime(q, before));
    }
  }

  // LIFO mode ends exactly when the queue empties.
  lemma LifoEndsWhenEmpty(q: Queue, op: Op)
    requires q.mode == LIFO && q.items != []
    ensures Apply(q, op).mode == FIFO <==> Apply(q, op).items == []
  {
  }
}

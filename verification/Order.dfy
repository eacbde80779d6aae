/** The order of service within one priority, and the mode of its queue, over whole runs. */
module Order {
  import opened Wrappers
  import opened Clocks
  import opened Queues
  import opened Admission
  import QueueHistory

  // The tickets of priority p that arrived, and those that departed, in the order of the log.
  function Arrivals(log: seq<Note>, p: nat): (r: seq<nat>) {
    if log == [] then []
    else
      var n := log[|log| - 1];
      Arrivals(log[..|log| - 1], p) + (if n.Arrival? && n.prio == p then [n.ticket] else [])
  }

  function Departures(log: seq<Note>, p: nat): (r: seq<nat>) {
    if log == [] then []
    else
      var n := log[|log| - 1];
      Departures(log[..|log| - 1], p) + (if n.Departure? && n.prio == p then [n.ticket] else [])
  }

  function Ids(items: seq<Item>): (r: seq<nat>)
    ensures |r| == |items| && forall j :: 0 <= j < |r| ==> r[j] == items[j].id
  {
    seq(|items|, j requires 0 <= j < |items| => items[j].id)
  }

  lemma NoteOne(log: seq<Note>, n: Note, p: nat)
    ensures Arrivals(log + [n], p) == Arrivals(log, p) + (if n.Arrival? && n.prio == p then [n.ticket] else [])
    ensures Departures(log + [n], p) == Departures(log, p) + (if n.Departure? && n.prio == p then [n.ticket] else [])
  {
    assert (log + [n])[..|log|] == log;
  }

  lemma ShedLast(shed: seq<Item>, i: nat, t: Time, mode: Mode)
    requires shed != []
    ensures var n := |shed| - 1;
            && ShedLog(shed, i, t, mode) == ShedLog(shed[..n], i, t, mode) + [Departure(shed[n].id, i, t, Shed(mode))]
            && Ids(shed) == Ids(shed[..n]) + [shed[n].id]
  {
  }

  lemma {:induction false} NoteShed(log: seq<Note>, shed: seq<Item>, i: nat, t: Time, mode: Mode, p: nat)
    ensures Arrivals(log + ShedLog(shed, i, t, mode), p) == Arrivals(log, p)
    ensures Departures(log + ShedLog(shed, i, t, mode), p) == Departures(log, p) + (if i == p then Ids(shed) else [])
  {
    if shed == [] {
      assert log + ShedLog(shed, i, t, mode) == log;
    } else {
      var n := |shed| - 1;
      NoteShed(log, shed[..n], i, t, mode, p);
      var before := log + ShedLog(shed[..n], i, t, mode);
      var last := Departure(shed[n].id, i, t, Shed(mode));
      NoteOne(before, last, p);
      ShedLast(shed, i, t, mode);
      assert log + ShedLog(shed, i, t, mode) == before + [last];
      var d := Departures(log, p);
      assert d + (Ids(shed[..n]) + [shed[n].id]) == d + Ids(shed[..n]) + [shed[n].id];
    }
  }

  // Between two moments: what departed followed by what is now queued is what was queued followed by
  // what arrived, in this order.
  ghost predicate Flow(a: seq<nat>, d: seq<nat>, queued: seq<nat>, a': seq<nat>, d': seq<nat>, queued': seq<nat>) {
    a <= a' && d <= d' && d'[|d|..] + queued' == queued + a'[|a|..]
  }

  ghost predicate InOrder(s: Sys, r: Sys, p: nat)
    requires p < |s.queues| && p < |r.queues|
  {
    Flow(Arrivals(s.log, p), Departures(s.log, p), Ids(s.queues[p].items),
         Arrivals(r.log, p), Departures(r.log, p), Ids(r.queues[p].items))
  }

  lemma FlowOf(a: seq<nat>, d: seq<nat>, queued: seq<nat>, arrived: seq<nat>, departed: seq<nat>, queued': seq<nat>)
    requires departed + queued' == queued + arrived
    ensures Flow(a, d, queued, a + arrived, d + departed, queued')
  {
    assert (a + arrived)[|a|..] == arrived && (d + departed)[|d|..] == departed;
  }

  lemma StillInOrder(s: Sys, r: Sys, p: nat)
    requires p < |s.queues| && p < |r.queues| && r.log == s.log && Ids(r.queues[p].items) == Ids(s.queues[p].items)
    ensures InOrder(s, r, p)
  {
  }

  lemma NoteFast(log: seq<Note>, k: nat, prio: nat, now: Time, p: nat)
    ensures var r := log + [Arrival(k, prio, now), Departure(k, prio, now, Immediate)];
            var mine := if prio == p then [k] else [];
            Arrivals(r, p) == Arrivals(log, p) + mine && Departures(r, p) == Departures(log, p) + mine
  {
    NoteOne(log, Arrival(k, prio, now), p);
    NoteOne(log + [Arrival(k, prio, now)], Departure(k, prio, now, Immediate), p);
    assert log + [Arrival(k, prio, now), Departure(k, prio, now, Immediate)]
           == log + [Arrival(k, prio, now)] + [Departure(k, prio, now, Immediate)];
  }

  // A newcomer granted on arrival passes nobody of its own priority.
  lemma FastInOrder(s: Sys, demand: int, prio: nat, now: Time, forgiven: real, p: nat)
    requires prio < |s.debt| == |s.queues| && p < |s.queues| && !Crowded(s.queues, prio)
    ensures InOrder(s, AcquireFast(s, demand, prio, now, forgiven), p)
  {
    var r := AcquireFast(s, demand, prio, now, forgiven);
    if s.outstanding + demand > s.cfg.capacity {
      StillInOrder(s, r, p);
    } else {
      var mine := if prio == p then [|s.calls|] else [];
      NoteFast(s.log, |s.calls|, prio, now, p);
      assert mine == [] || s.queues[p].items == [];
      FlowOf(Arrivals(s.log, p), Departures(s.log, p), Ids(s.queues[p].items), mine, mine, Ids(s.queues[p].items));
    }
  }

  lemma SlowInOrder(s: Sys, demand: int, prio: nat, now: Time, p: nat)
    requires prio < |s.debt| == |s.queues| && p < |s.queues|
    ensures InOrder(s, AcquireSlow(s, demand, prio, now), p)
  {
    var q := s.queues[prio];
    var k := |s.calls|;
    var r := AcquireSlow(s, demand, prio, now);
    if q.Full() {
      StillInOrder(s, r, p);
    } else {
      NoteOne(s.log, Arrival(k, prio, now), p);
      var mine := if prio == p then [k] else [];
      assert Ids(r.queues[p].items) == Ids(s.queues[p].items) + mine;
      FlowOf(Arrivals(s.log, p), Departures(s.log, p), Ids(s.queues[p].items), mine, [], Ids(r.queues[p].items));
    }
  }

  lemma IdsSplit(items: seq<Item>, n: nat)
    requires n <= |items|
    ensures Ids(items[..n]) + Ids(items[n..]) == Ids(items)
  {
  }

  lemma ReapIds(q: Queue, t: Time)
    ensures Ids(q.Shed(t)) + Ids(q.Reap(t).items) == Ids(q.items)
  {
    IdsSplit(q.items, |q.Shed(t)|);
  }

  lemma PopIds(q: Queue, t: Time)
    requires q.items != [] && q.mode == FIFO
    ensures [q.Next().id] + Ids(q.Pop(t).items) == Ids(q.items)
  {
    IdsSplit(q.items, 1);
    assert Ids(q.items[..1]) == [q.Next().id];
  }

  lemma ReapInOrder(s: Sys, p: nat)
    requires s.pc.Reaping? && s.pc.i < |s.queues| && p < |s.queues|
    ensures InOrder(s, ReapStep(s, s.pc.i), p)
  {
    var i := s.pc.i;
    var q := s.queues[i];
    var shed := q.Shed(s.clock);
    var mine := if i == p then Ids(shed) else [];
    var queued' := Ids(ReapStep(s, i).queues[p].items);
    NoteShed(s.log, shed, i, s.clock, q.SetMode(s.clock).mode, p);
    if i == p {
      ReapIds(q, s.clock);
    }
    var a, queued := Arrivals(s.log, p), Ids(s.queues[p].items);
    assert mine + queued' == queued;
    assert a + [] == a && queued + [] == queued;
    FlowOf(a, Departures(s.log, p), queued, [], mine, queued');
  }

  lemma PopInOrder(s: Sys, p: nat)
    requires Shape(s) && s.pc.Popping? && p < |s.queues| && s.queues[p].mode == FIFO
    ensures InOrder(s, PopStep(s, s.pc.i, s.pc.charge), p)
  {
    var i := s.pc.i;
    var q := s.queues[i];
    var k := q.Next().id;
    var mine := if i == p then [k] else [];
    var queued' := Ids(PopStep(s, i, s.pc.charge).queues[p].items);
    NoteOne(s.log, Departure(k, i, s.clock, Served), p);
    if i == p {
      PopIds(q, s.clock);
    }
    assert mine + queued' == Ids(s.queues[p].items);
    FlowOf(Arrivals(s.log, p), Departures(s.log, p), Ids(s.queues[p].items), [], mine, queued');
  }

  // What stirs no queue and no log: waiters, entries and exits, and the lock holder between its
  // reaps and pops.
  lemma QuietLock(s: Sys)
    requires Enabled(s, Lock) && !s.pc.Popping? && !(s.pc.Reaping? && s.pc.i < |s.queues|)
    ensures LockStep(s).queues == s.queues && LockStep(s).log == s.log && LockStep(s).clock == s.clock
  {
  }

  lemma QuietStep(s: Sys, e: Event)
    requires Enabled(s, e) && (e.Acquire? ==> Refuses(s, e.demand, e.prio) != None)
    requires e == Lock ==> !s.pc.Popping? && !(s.pc.Reaping? && s.pc.i < |s.queues|)
    ensures Apply(s, e).queues == s.queues && Apply(s, e).log == s.log && s.clock <= Apply(s, e).clock
  {
    if e == Lock {
      QuietLock(s);
    }
  }

  lemma StepInOrder(s: Sys, e: Event, p: nat)
    requires Enabled(s, e) && p < |s.queues| && s.queues[p].mode == FIFO
    ensures |Apply(s, e).queues| == |s.queues| && InOrder(s, Apply(s, e), p)
  {
    if e.Acquire? && Refuses(s, e.demand, e.prio) == None {
      if AdmitsAtOnce(s, e.demand, e.prio, e.now) {
        FastInOrder(s, e.demand, e.prio, e.now, s.cfg.Forgiven(e.demand), p);
      } else {
        SlowInOrder(s, e.demand, e.prio, e.now, p);
      }
    } else if e == Lock && s.pc.Reaping? && s.pc.i < |s.queues| {
      ReapInOrder(s, p);
    } else if e == Lock && s.pc.Popping? {
      PopInOrder(s, p);
    } else {
      QuietStep(s, e);
      StillInOrder(s, Apply(s, e), p);
    }
  }

  lemma FlowChain(a: seq<nat>, d: seq<nat>, q: seq<nat>, a': seq<nat>, d': seq<nat>, q': seq<nat>,
                  a'': seq<nat>, d'': seq<nat>, q'': seq<nat>)
    requires Flow(a, d, q, a', d', q') && Flow(a', d', q', a'', d'', q'')
    ensures Flow(a, d, q, a'', d'', q'')
  {
    var x, x' := a'[|a|..], a''[|a'|..];
    var y, y' := d'[|d|..], d''[|d'|..];
    assert a''[|a|..] == x + x' && d''[|d|..] == y + y';
    assert (y + y') + q'' == y + (q' + x') == (q + x) + x';
  }

  lemma InOrderChain(s: Sys, r: Sys, t: Sys, p: nat)
    requires p < |s.queues| && p < |r.queues| && p < |t.queues|
    requires InOrder(s, r, p) && InOrder(r, t, p)
    ensures InOrder(s, t, p)
  {
    FlowChain(Arrivals(s.log, p), Departures(s.log, p), Ids(s.queues[p].items),
              Arrivals(r.log, p), Departures(r.log, p), Ids(r.queues[p].items),
              Arrivals(t.log, p), Departures(t.log, p), Ids(t.queues[p].items));
  }

  ghost predicate StaysFifo(s: Sys, es: seq<Event>, p: nat)
    decreases |es|
  {
    && p < |s.queues|
    && s.queues[p].mode == FIFO
    && (es != [] && Enabled(s, es[0]) ==> StaysFifo(Apply(s, es[0]), es[1..], p))
  }

  // Over any stretch of a run in which the queue of priority p is in FIFO mode, its requests leave
  // in the order in which they came, those granted on arrival included: the departures followed by
  // whoever is still queued are whoever was queued at first followed by the arrivals.
  lemma {:induction false} FifoKeepsOrder(s: Sys, es: seq<Event>, t: Sys, p: nat)
    requires IsRun(s, es, t) && StaysFifo(s, es, p)
    ensures p < |t.queues| && InOrder(s, t, p)
    decreases |es|
  {
    RunHead(s, es, t);
    if es != [] {
      StepInOrder(s, es[0], p);
      FifoKeepsOrder(Apply(s, es[0]), es[1..], t, p);
      InOrderChain(s, Apply(s, es[0]), t, p);
    }
  }

  // ---- Mode and history ----

  // q results from these operations, none later than t.
  ghost predicate Results(q0: Queue, ops: seq<QueueHistory.Op>, q: Queue, t: Time) {
    QueueHistory.Timely(q0, ops) && QueueHistory.Exec(q0, ops) == q && QueueHistory.LastTime(q0, ops) <= t
  }

  // The operation that an event performs on queue p, if any.
  function Operation(s: Sys, e: Event, p: nat): (ops: seq<QueueHistory.Op>)
    requires Enabled(s, e)
  {
    if e.Acquire? && e.prio == p && Refuses(s, e.demand, p).None? && !AdmitsAtOnce(s, e.demand, p, e.now) then
      [QueueHistory.OpPush(Item(|s.calls|, e.now, e.demand), e.now)]
    else if e == Lock && s.pc.Reaping? && s.pc.i == p then [QueueHistory.OpReap(s.clock)]
    else if e == Lock && s.pc.Popping? && s.pc.i == p then [QueueHistory.OpPop(s.clock)]
    else []
  }

  lemma AcquireIs(s: Sys, demand: int, prio: int, now: Time, p: nat)
    requires Enabled(s, Acquire(demand, prio, now)) && Refuses(s, demand, prio) == None && p < |s.queues|
    ensures var r := Apply(s, Acquire(demand, prio, now));
            && |r.queues| == |s.queues| && r.clock == now
            && r.queues[p] == if prio == p && !AdmitsAtOnce(s, demand, prio, now)
                              then s.queues[p].Push(Item(|s.calls|, now, demand), now) else s.queues[p]
  {
  }

  lemma LockIs(s: Sys, p: nat)
    requires Enabled(s, Lock) && p < |s.queues| && (s.pc.Popping? || (s.pc.Reaping? && s.pc.i < |s.queues|))
    ensures var r := LockStep(s);
            && |r.queues| == |s.queues| && r.clock == s.clock
            && r.queues[p] == if s.pc.i != p then s.queues[p]
                              else if s.pc.Popping? then s.queues[p].Pop(s.clock)
                              else s.queues[p].Reap(s.clock)
  {
  }

  lemma OperationIs(s: Sys, e: Event, p: nat)
    requires Enabled(s, e) && p < |s.queues|
    ensures var r := Apply(s, e);
            var ops := Operation(s, e, p);
            && |r.queues| == |s.queues| && s.clock <= r.clock
            && (ops == [] ==> r.queues[p] == s.queues[p])
            && (ops != [] ==> ops == [ops[0]] && r.queues[p] == QueueHistory.Apply(s.queues[p], ops[0])
                              && s.clock <= ops[0].now == r.clock
                              && (ops[0].OpPush? ==> ops[0].item.enqueued == ops[0].now))
  {
    match e
    case Acquire(demand, prio, now) =>
      if Refuses(s, demand, prio) == None {
        AcquireIs(s, demand, prio, now, p);
      }
    case Lock =>
      if s.pc.Popping? || (s.pc.Reaping? && s.pc.i < |s.queues|) {
        LockIs(s, p);
      } else {
        QuietLock(s);
      }
    case _ => QuietStep(s, e);
  }

  lemma OneMore(q0: Queue, ops: seq<QueueHistory.Op>, q: Queue, t: Time, op: QueueHistory.Op)
    requires Results(q0, ops, q, t) && t <= op.now && (op.OpPush? ==> op.item.enqueued == op.now)
    ensures Results(q0, ops + [op], QueueHistory.Apply(q, op), op.now)
  {
    assert (ops + [op])[..|ops|] == ops;
  }

  lemma OperationStep(s: Sys, e: Event, p: nat, q0: Queue, ops: seq<QueueHistory.Op>)
    requires Enabled(s, e) && p < |s.queues| && Results(q0, ops, s.queues[p], s.clock)
    ensures var r := Apply(s, e);
            |r.queues| == |s.queues| && Results(q0, ops + Operation(s, e, p), r.queues[p], r.clock)
  {
    OperationIs(s, e, p);
    var more := Operation(s, e, p);
    if more == [] {
      assert ops + more == ops;
    } else {
      OneMore(q0, ops, s.queues[p], s.clock, more[0]);
    }
  }

  // The operations that the events es, in order from s, perform on queue p.
  ghost function OpsOf(s: Sys, es: seq<Event>, p: nat): (ops: seq<QueueHistory.Op>)
    decreases |es|
  {
    if es == [] || !Enabled(s, es[0]) then []
    else Operation(s, es[0], p) + OpsOf(Apply(s, es[0]), es[1..], p)
  }

  lemma Joined(a: seq<QueueHistory.Op>, b: seq<QueueHistory.Op>, c: seq<QueueHistory.Op>)
    ensures a + (b + c) == a + b + c
  {
  }

  lemma {:induction false} RunsAreOperations(s: Sys, es: seq<Event>, t: Sys, p: nat,
                                             q0: Queue, ops: seq<QueueHistory.Op>)
    requires IsRun(s, es, t) && p < |s.queues| && Results(q0, ops, s.queues[p], s.clock)
    ensures p < |t.queues| && Results(q0, ops + OpsOf(s, es, p), t.queues[p], t.clock)
    decreases |es|
  {
    RunHead(s, es, t);
    if es == [] {
      assert ops + [] == ops;
    } else {
      var more, rest := Operation(s, es[0], p), OpsOf(Apply(s, es[0]), es[1..], p);
      OperationStep(s, es[0], p, q0, ops);
      RunsAreOperations(Apply(s, es[0]), es[1..], t, p, q0, ops + more);
      Joined(ops, more, rest);
    }
  }

  // In every run each queue is what the run's own pushes, pops and reaps of it make of it, and its
  // mode is what they dictate: FIFO while it is empty, and LIFO exactly when the latest of them came
  // more than longTimeout after the push that ended the queue's latest emptiness.
  lemma ModeFollowsHistory(s: Sys, es: seq<Event>, t: Sys, p: nat)
    requires Init(s) && IsRun(s, es, t) && p < |s.queues|
    ensures p < |t.queues|
    ensures var q, ops := s.queues[p], OpsOf(s, es, p);
            && t.queues[p] == QueueHistory.Exec(q, ops)
            && QueueHistory.LastTime(q, ops) <= t.clock
            && QueueHistory.ModeFits(t.queues[p], QueueHistory.BusySince(q, ops), QueueHistory.LastTime(q, ops))
  {
    var ops := OpsOf(s, es, p);
    RunsAreOperations(s, es, t, p, s.queues[p], []);
    assert [] + ops == ops;
    QueueHistory.ModeIsHistory(s.queues[p], ops);
  }
}

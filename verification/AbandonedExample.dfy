/** A concrete run of one slot and two priorities after which a waiter of the lower one is left in its
    queue for ever, with the slot free: the debt kept it out, and Close stopped what would have cleared it. */
module AbandonedExample {
  import opened Wrappers
  import opened Queues
  import opened Admission
  import opened Preservation
  import opened Actions
  import opened Closing
  import opened Witnesses

  // How far the run has come.
  ghost predicate Stage(s: Sys, outstanding: int, owed: real, top: seq<Item>, low: seq<Item>, calls: seq<Call>, pc: Pc)
    requires CFG.Ok()
  {
    && Reachable(s) && s.cfg == CFG && s.clock == 0 && !s.closed && s.running
    && s.Fair() && s.outstanding == outstanding && s.debt == [Owing(0.0), Owing(owed)]
    && s.queues == [Holding(top), Holding(low)] && s.calls == calls && s.pc == pc
  }

  predicate AllNew(items: seq<Item>) {
    forall j :: 0 <= j < |items| ==> items[j].enqueued == 0
  }

  // The reaps of one admit drop nobody.
  lemma ReapsDropNobody(s: Sys, outstanding: int, owed: real, top: seq<Item>, low: seq<Item>, calls: seq<Call>)
    returns (t: Sys)
    requires CFG.Ok() && Stage(s, outstanding, owed, top, low, calls, Reaping(0)) && AllNew(top) && AllNew(low)
    ensures Stage(t, outstanding, owed, top, low, calls, Serving(0))
  {
    forall p | 0 <= p < |s.queues|
      ensures s.queues[p].Shed(s.clock) == [] && s.queues[p].Reap(s.clock) == s.queues[p]
    {
      NobodyStale(if p == 0 then top else low);
    }
    t := QuietReaps(s, 0);
  }

  // The first request takes the slot.
  lemma Taken() returns (s: Sys)
    ensures CFG.Ok() && Stage(s, 1, 0.0, [], [], [FastCall(1, 0, 0)], Free)
  {
    var start := Sys(CFG, 0, [Holding([]), Holding([])], [Owing(0.0), Owing(0.0)], false, Some(INFINITY), false, true,
                     Free, [], [], 0, 0, 0, Faults(0, false, false, false));
    NoRun(start);
    assert Init(start);
    NothingHappened(0.0);
    LockReady(start);
    s := FastActs(start, 1, 0, 0);
    assert s.debt == [Owing(0.0), Owing(0.0)];
  }

  // The second, of the same priority, waits, and so the lower priority owes one token.
  lemma Queued() returns (s: Sys)
    ensures CFG.Ok() && Stage(s, 1, 1.0, [WAITER], [], [FastCall(1, 0, 0), SlowCall(1, 0, 0, true)], Free)
  {
    s := Taken();
    NothingHappened(0.0);
    LockReady(s);
    s := SlowActs(s, 1, 0, 0);
    assert s.debt == [Owing(0.0), Owing(1.0)];
    PushedAlone(WAITER);
    assert s.queues == [Holding([WAITER]), Holding([])];
    s := ReapsDropNobody(s, 1, 1.0, [WAITER], [], s.calls);
    s := TestActs(s, 0);
    assert s.debt == [Owing(0.0), Owing(1.0)];
  }

  function Gone(): (calls: seq<Call>) {
    [FastCall(1, 0, 0).(released := true), ExpireStep(SlowCall(1, 0, 0, true))]
  }

  // Its context ends its call, and the first request gives the slot back.
  lemma Returned() returns (s: Sys)
    ensures CFG.Ok() && Stage(s, 0, 1.0, [WAITER], [], Gone(), Serving(0))
  {
    s := Queued();
    s := WaiterActs(s, 1, true);
    LockReady(s);
    s := ReturnActs(s, 1, Some(0), 0);
    assert s.calls == Gone();
    s := ReapsDropNobody(s, 0, 1.0, [WAITER], [], Gone());
  }

  // The pop fails to admit it, and nobody is left.
  lemma PopFails() returns (s: Sys)
    ensures CFG.Ok() && Stage(s, 0, 1.0, [], [], Gone(), Serving(0))
  {
    s := Returned();
    NothingHappened(0.0);
    s := TestActs(s, 0);
    assert s.debt == [Owing(0.0), Owing(1.0)];
    s := PopReady(s, 0, 1);
    assert s.queues == [Holding([]), Holding([])];
  }

  lemma Emptied() returns (s: Sys)
    ensures CFG.Ok() && Stage(s, 0, 1.0, [], [], Gone(), Free)
  {
    s := PopFails();
    s := SkipActs(s, 0);
    s := SkipActs(s, 1);
    s := RestActs(s);
  }

  // A request of the lower priority does not fit beside what it owes, with nothing taken at all.
  lemma LowQueued() returns (s: Sys)
    ensures CFG.Ok() && Stage(s, 0, 1.0, [], [Item(2, 0, 1)], Gone() + [SlowCall(1, 1, 0, true)], Reaping(0))
  {
    s := Emptied();
    NothingHappened(1.0);
    LockReady(s);
    s := SlowActs(s, 1, 1, 0);
    assert s.debt == [Owing(0.0), Owing(1.0)];
    PushedAlone(Item(2, 0, 1));
    assert s.queues == [Holding([]), Holding([Item(2, 0, 1)])];
  }

  lemma KeptOut() returns (s: Sys)
    ensures CFG.Ok() && Stage(s, 0, 1.0, [], [Item(2, 0, 1)], Gone() + [SlowCall(1, 1, 0, true)], Free)
  {
    s := LowQueued();
    NothingHappened(1.0);
    s := ReapsDropNobody(s, 0, 1.0, [], [Item(2, 0, 1)], s.calls);
    s := SkipActs(s, 0);
    s := TestActs(s, 1);
    assert s.debt == [Owing(0.0), Owing(1.0)];
  }

  // Close and the return of the background goroutine seal it: every caller is fair and the slot is
  // free, and whatever such callers do, this one stays queued until its own context ends its call.
  lemma AbandonedIsReachable() returns (s: Sys)
    ensures Reachable(s) && s.Fair() && Abandoned(s) && s.outstanding == 0 && s.cfg.capacity == 1
    ensures |s.calls| == 3 && s.calls[2].outcome == Pending && s.calls[2].placed
    ensures forall es: seq<Event>, t :: IsRun(s, es, t) && NoStray(es) ==>
              t.queues == s.queues && |t.calls| == 3 && (t.calls[2] == s.calls[2] || t.calls[2].outcome == Cancelled)
  {
    s := KeptOut();
    LockReady(s);
    ReachableStep(s, Close);
    s := Apply(s, Close);
    LockReady(s);
    ReachableStep(s, Quit);
    s := Apply(s, Quit);
    forall es: seq<Event>, t | IsRun(s, es, t) && NoStray(es)
      ensures t.queues == s.queues && |t.calls| == 3 && (t.calls[2] == s.calls[2] || t.calls[2].outcome == Cancelled)
    {
      AbandonedForever(s, es, t, 2);
    }
  }
}

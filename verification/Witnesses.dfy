/** Concrete runs of one slot and one priority: a caller that is left waiting in no queue, and a waiter
    that admit pops after its own context ended its call. */
module Witnesses {
  import opened Wrappers
  import opened Decays
  import opened Queues
  import opened Admission
  import opened Preservation
  import opened Theorems
  import Runs

  // One slot, and the default timeouts.
  const CFG := Config(1, 5000000, 100000000, 0.1, 10000000000)

  // Every queue here has room for one waiter.
  function Holding(items: seq<Item>): (q: Queue) {
    Queue(5000000, 100000000, 1, FIFO, 0, items)
  }

  function Owing(x: real): (d: Decay)
    requires CFG.Ok()
  {
    Decay(x, 0, CFG.DecayPerSec(), 1.0)
  }

  lemma NothingHappened(x: real)
    requires CFG.Ok() && 0.0 <= x <= 1.0
    ensures Owing(x).Value(0) == x && Owing(x).Get(0) == Owing(x)
  {
  }

  lemma NobodyStale(items: seq<Item>)
    requires forall j :: 0 <= j < |items| ==> items[j].enqueued == 0
    ensures Holding(items).Shed(0) == [] && Holding(items).Reap(0) == Holding(items)
  {
  }

  lemma PushedAlone(item: Item)
    ensures Holding([]).Push(item, 0) == Holding([item])
  {
    assert [] + [item] == [item];
  }

  const WAITER: Item := Item(1, 0, 1)

  // A state in which everything so far happened at time 0.
  function At(outstanding: int, items: seq<Item>, calls: seq<Call>, log: seq<Note>, pc: Pc): (s: Sys)
    requires CFG.Ok()
  {
    var waiting := items != [];
    Sys(CFG, outstanding, [Holding(items)], [Owing(0.0)],
        waiting, Some(if waiting then 100000000 else INFINITY), false, true, pc, calls, log, 0, 0, 0,
        Faults(0, false, false, false))
  }

  lemma Start() returns (s: Sys)
    ensures CFG.Ok() && s == At(0, [], [], [], Free) && Reachable(s)
  {
    s := At(0, [], [], [], Free);
    NoRun(s);
    assert Init(s);
  }

  // The first request is granted.
  lemma First() returns (s: Sys)
    ensures CFG.Ok() && Reachable(s)
    ensures s == At(1, [], [FastCall(1, 0, 0)], [Arrival(0, 0, 0), Departure(0, 0, 0, Immediate)], Free)
  {
    var before := Start();
    NothingDecays(before.debt[0], 0);
    ReachableStep(before, Acquire(1, 0, 0));
    s := Apply(before, Acquire(1, 0, 0));
    assert s.debt == before.debt;
  }

  function TwoCalls(): (calls: seq<Call>) {
    [FastCall(1, 0, 0), SlowCall(1, 0, 0, true)]
  }

  function TwoNotes(): (log: seq<Note>) {
    [Arrival(0, 0, 0), Departure(0, 0, 0, Immediate), Arrival(1, 0, 0)]
  }

  // The second is queued.
  lemma Second() returns (s: Sys)
    ensures CFG.Ok() && Reachable(s) && s == At(1, [WAITER], TwoCalls(), TwoNotes(), Reaping(0))
  {
    var before := First();
    NothingDecays(before.debt[0], 0);
    ReachableStep(before, Acquire(1, 0, 0));
    s := Apply(before, Acquire(1, 0, 0));
    assert s.debt == before.debt;
    PushedAlone(WAITER);
    assert !Fits(1, 1, 0.0, 1) && s.queues == before.queues[0 := Holding([WAITER])];
    assert s.calls == TwoCalls() && s.log == TwoNotes();
  }

  // A reap drops nobody, for no time has passed.
  lemma NobodyReaped(outstanding: int, calls: seq<Call>, log: seq<Note>)
    requires CFG.Ok() && Reachable(At(outstanding, [WAITER], calls, log, Reaping(0)))
    ensures Reachable(At(outstanding, [WAITER], calls, log, Reaping(1)))
  {
    var s := At(outstanding, [WAITER], calls, log, Reaping(0));
    LockReady(s);
    ReachableStep(s, Lock);
    assert s.queues[0].Shed(0) == [];
    var r := LockStep(s);
    assert r.queues == s.queues && r.calls == s.calls && r.log == s.log;
  }

  // Then the queue's next waiter is shown, and goes if it fits.
  lemma Served(outstanding: int, calls: seq<Call>, log: seq<Note>)
    requires CFG.Ok() && Reachable(At(outstanding, [WAITER], calls, log, Reaping(1)))
    ensures Reachable(At(outstanding, [WAITER], calls, log, if outstanding <= 0 then Popping(0, 1) else Free))
  {
    var s := At(outstanding, [WAITER], calls, log, Reaping(1));
    LockReady(s);
    ReachableStep(s, Lock);
    var r := LockStep(s);
    LockReady(r);
    NothingDecays(r.debt[0], 0);
    ReachableStep(r, Lock);
    assert LockStep(r).debt == r.debt;
  }

  lemma OneWaits() returns (s: Sys)
    ensures CFG.Ok() && Reachable(s) && s == At(1, [WAITER], TwoCalls(), TwoNotes(), Free)
  {
    var before := Second();
    NobodyReaped(1, TwoCalls(), TwoNotes());
    Served(1, TwoCalls(), TwoNotes());
    s := At(1, [WAITER], TwoCalls(), TwoNotes(), Free);
  }

  // The third request finds the queue full. The semaphore is idle again, the call still pending and
  // stranded, and whatever happens next it stays so unless its own context ends it.
  lemma StrandedIsReachable() returns (s: Sys)
    ensures Reachable(s) && s.pc == Free && |s.calls| == 3 && s.calls[2].outcome == Pending && Stranded(s.calls[2])
    ensures forall es, t :: IsRun(s, es, t) ==> |t.calls| > 2 && Stranded(t.calls[2])
  {
    var before := OneWaits();
    PlacedIffRoom(before, 1, 0, 0);
    ReachableStep(before, Acquire(1, 0, 0));
    var waiting := Apply(before, Acquire(1, 0, 0));
    var es;
    es, s := Runs.HolderUnlocks(waiting);
    ReachableRun(waiting, es, s);
    StillPending(waiting, es, s, 2);
    forall fs, t | IsRun(s, fs, t)
      ensures |t.calls| > 2 && Stranded(t.calls[2])
    {
      StrandedForever(s, fs, t, 2);
    }
  }

  // The queued caller's context ends its call, and then the granted caller releases.
  lemma CancelledThenReleased(calls: seq<Call>)
    requires CFG.Ok()
    requires calls == [TwoCalls()[0].(released := true), ExpireStep(TwoCalls()[1])]
    ensures Reachable(At(0, [WAITER], calls, TwoNotes(), Reaping(0)))
  {
    var before := OneWaits();
    LockReady(before);
    ReachableStep(before, Expire(1));
    var cancelled := Apply(before, Expire(1));
    LockReady(cancelled);
    ReachableStep(cancelled, Release(0, 0));
    assert Apply(cancelled, Release(0, 0)).calls == calls;
  }

  // So admit comes to pop a waiter that it can no longer admit, though no reap has rejected it. The
  // caller has its answer, and keeps it.
  lemma ExpiredIsPopped() returns (s: Sys)
    ensures Reachable(s) && s.pc == Popping(0, 1) && s.queues != [] && s.queues[0].items == [WAITER]
    ensures s.Fair() && |s.calls| == 2 && s.calls[1].outcome == Cancelled && s.calls[1].sends == 0
    ensures forall es, t :: IsRun(s, es, t) ==> |t.calls| > 1 && t.calls[1].outcome == Cancelled
  {
    var calls := [TwoCalls()[0].(released := true), ExpireStep(TwoCalls()[1])];
    var _ := Start();
    CancelledThenReleased(calls);
    NobodyReaped(0, calls, TwoNotes());
    Served(0, calls, TwoNotes());
    s := At(0, [WAITER], calls, TwoNotes(), Popping(0, 1));
    forall es, t | IsRun(s, es, t)
      ensures |t.calls| > 1 && t.calls[1].outcome == Cancelled
    {
      AnswerIsFinal(s, es, t, 1);
    }
  }
}

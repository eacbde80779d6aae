/** Concrete runs of what faulty callers can do to outstanding, and to others. */
module FaultyCallers {
  import opened Wrappers
  import opened Decays
  import opened Queues
  import opened Admission
  import opened Debts
  import opened Preservation
  import opened Theorems
  import opened Actions
  import opened Witnesses

  // An admit that finds its one queue empty changes nothing that matters here.
  lemma IdleAdmit(s: Sys) returns (t: Sys)
    requires Reachable(s) && s.pc == Reaping(0) && |s.queues| == 1 && s.queues[0].items == []
    ensures Reachable(t) && t.pc == Free && t.cfg == s.cfg && t.clock == s.clock && t.faults == s.faults
    ensures t.outstanding == s.outstanding && t.calls == s.calls
  {
    t := ReapReady(s, 0);
    assert DropAll(s.calls, []) == s.calls;
    t := ReapedActs(t);
    t := SkipActs(t, 0);
    t := RestActs(t);
  }

  // A fair caller that gives back just what it was granted panics, because another returned a token
  // that it did not hold.
  lemma FairCallerPanics() returns (s: Sys)
    ensures Reachable(s) && !s.faults.negative
    ensures Enabled(s, Release(0, 0)) && s.calls[0].demand == 1 && Panics(s, Release(0, 0))
  {
    s := First();
    LockReady(s);
    s := ReturnActs(s, 1, None, 0);
    s := IdleAdmit(s);
    LockReady(s);
  }

  // A first request for fewer tokens than none is granted, and outstanding is below zero.
  lemma BelowZero() returns (s: Sys)
    ensures Reachable(s) && s.pc == Free && !s.faults.strayed && s.outstanding == -1
    ensures |s.calls| == 1 && s.calls[0].outcome == Granted
  {
    s := Start();
    NothingDecays(s.debt[0], 0);
    LockReady(s);
    s := FastActs(s, -1, 0, 0);
  }

  // ---- Above the capacity ----

  const WIDE := Config(2, 5000000, 100000000, 0.1, 10000000000)

  // Everything happens at time 0, and nobody ever waits.
  ghost predicate Stage(s: Sys, outstanding: int, calls: seq<Call>)
    requires WIDE.Ok()
  {
    && Reachable(s) && s.pc == Free && s.cfg == WIDE && s.clock == 0 && !s.closed
    && s.queues == [Holding([])] && s.debt == [Decay(0.0, 0, WIDE.DecayPerSec(), 2.0)]
    && s.outstanding == outstanding && s.calls == calls && s.faults.stray == 0 && !s.faults.strayed
  }

  lemma GrantMore(s: Sys, outstanding: int, calls: seq<Call>, demand: int) returns (t: Sys)
    requires WIDE.Ok() && Stage(s, outstanding, calls) && demand <= 2 && outstanding + demand <= 2
    ensures Stage(t, outstanding + demand, calls + [FastCall(demand, 0, 0)])
  {
    NothingDecays(s.debt[0], 0);
    LockReady(s);
    t := FastActs(s, demand, 0, 0);
    assert t.debt == s.debt;
  }

  function Grants(): (calls: seq<Call>) {
    [FastCall(1, 0, 0), FastCall(-1, 0, 0), FastCall(1, 0, 0), FastCall(1, 0, 0)]
  }

  lemma FourGrants() returns (s: Sys)
    ensures WIDE.Ok() && Stage(s, 2, Grants())
  {
    s := Sys(WIDE, 0, [Holding([])], [Decay(0.0, 0, WIDE.DecayPerSec(), 2.0)],
             false, Some(INFINITY), false, true, Free, [], [], 0, 0, 0, Faults(0, false, false, false));
    NoRun(s);
    assert Init(s);
    s := GrantMore(s, 0, [], 1);
    s := GrantMore(s, 1, [FastCall(1, 0, 0)], -1);
    s := GrantMore(s, 0, [FastCall(1, 0, 0), FastCall(-1, 0, 0)], 1);
    s := GrantMore(s, 1, [FastCall(1, 0, 0), FastCall(-1, 0, 0), FastCall(1, 0, 0)], 1);
  }

  // Two slots, and three tokens held: requests for 1, -1, 1 and 1 tokens are granted, each in range,
  // and the second is given back. Nothing stray is returned and nothing panics.
  lemma AboveCapacity() returns (before: Sys, s: Sys)
    ensures Reachable(before) && InRange(before) && Enabled(before, Release(1, 0)) && !Panics(before, Release(1, 0))
    ensures Reachable(s) && s.pc == Free && !s.faults.strayed
    ensures s.cfg.capacity == 2 && s.outstanding == 3 == AllHeld(s.calls)
  {
    before := FourGrants();
    LockReady(before);
    s := ReturnActs(before, -1, Some(1), 0);
    s := IdleAdmit(s);
    TokensConserved(s);
  }

  // ---- An idle slot ----

  // A waiter that fits waits on, with the semaphore unlocked: a stray return panicked before admit.
  lemma IdleSlot() returns (s: Sys)
    ensures Reachable(s) && s.pc == Free && !s.faults.negative && s.faults.panicked
    ensures s.queues != [] && s.queues[0].items != [] && s.outstanding + s.queues[0].Next().demand <= s.cfg.capacity
  {
    s := OneWaits();
    LockReady(s);
    s := ReturnActs(s, 2, None, 0);
    NoIdleSlot(s);
  }

  // ---- Debts ----

  lemma StartWith(size: nat) returns (s: Sys)
    ensures CFG.Ok() && Reachable(s) && s.pc == Free && s.cfg == CFG && s.clock == 0 && !s.closed
    ensures s.queues == seq(size, _ => Holding([])) && s.debt == seq(size, _ => Owing(0.0)) && s.outstanding == 0
    ensures s.calls == [] && s.Fair()
  {
    s := Sys(CFG, 0, seq(size, _ => Holding([])), seq(size, _ => Owing(0.0)), false, Some(INFINITY), false, true,
             Free, [], [], 0, 0, 0, Faults(0, false, false, false));
    NoRun(s);
    assert Init(s);
  }

  // A success with a negative demand raises a debt.
  lemma RaisedBySuccess() returns (before: Sys)
    ensures Reachable(before) && before.Fair() && |before.debt| == 2 && Enabled(before, Acquire(-1, 0, 0))
    ensures AdmitsAtOnce(before, -1, 0, 0) && before.debt[1].Value(0) == 0.0
    ensures var s := Apply(before, Acquire(-1, 0, 0)); |s.debt| == 2 && s.debt[1].Value(0) > 0.0
  {
    before := StartWith(2);
    NothingDecays(Owing(0.0), 0);
    LockReady(before);
    ReachableInv(before);
    FastIs(before, -1, 0, 0, CFG.Forgiven(-1));
  }

  lemma {:induction false} NothingToForgive(debt: seq<Decay>, i: nat, amount: real)
    requires CFG.Ok() && i > 0 && amount >= 0.0 && forall j :: 0 <= j < |debt| ==> debt[j] == Owing(0.0)
    ensures Forgive(debt, i, 0, amount) == debt
    decreases |debt| - i
  {
    if i < |debt| {
      NothingDecays(Owing(0.0), 0);
      assert ForgiveOne(debt, i, 0, amount) == debt;
      NothingToForgive(debt, i + 1, amount);
    }
  }

  lemma SlotTaken() returns (s: Sys)
    ensures CFG.Ok() && Reachable(s) && s.Fair() && s.pc == Free && s.clock == 0 && !s.closed && s.cfg == CFG
    ensures s.debt == [Owing(0.0), Owing(0.0), Owing(0.0)] && s.queues == [Holding([]), Holding([]), Holding([])]
    ensures s.outstanding == 1 && |s.calls| == 1
  {
    s := StartWith(3);
    NothingDecays(Owing(0.0), 0);
    NothingToForgive(s.debt, 1, CFG.Forgiven(1));
    LockReady(s);
    assert s.debt[0 := s.debt[0].Get(0)] == s.debt;
    s := FastActs(s, 1, 0, 0);
  }

  // One request of the top priority holds the slot, the next waits, and both lower priorities owe it.
  lemma NextWaits() returns (s: Sys)
    ensures CFG.Ok() && Reachable(s) && s.Fair() && s.pc == Reaping(0) && s.clock == 0 && !s.closed && s.cfg == CFG
    ensures s.debt == [Owing(0.0), Owing(1.0), Owing(1.0)] && s.outstanding == 1
    ensures s.queues == [Holding([WAITER]), Holding([]), Holding([])]
  {
    s := SlotTaken();
    NothingDecays(Owing(0.0), 0);
    LockReady(s);
    PushedAlone(WAITER);
    s := SlowActs(s, 1, 0, 0);
    assert s.debt == [Owing(0.0), Owing(1.0), Owing(1.0)];
    assert s.queues == [Holding([WAITER]), Holding([]), Holding([])];
  }

  lemma BothOwe() returns (s: Sys)
    ensures CFG.Ok() && Reachable(s) && s.Fair() && s.pc == Free && s.clock == 0 && !s.closed && s.cfg == CFG
    ensures s.debt == [Owing(0.0), Owing(1.0), Owing(1.0)] && |s.queues| == 3 && s.queues[0].items != []
  {
    s := NextWaits();
    NobodyStale([]);
    NobodyStale([WAITER]);
    s := QuietReaps(s, 0);
    NothingHappened(0.0);
    s := TestActs(s, 0);
    assert s.debt == [Owing(0.0), Owing(1.0), Owing(1.0)];
  }

  // A failure of the middle priority with a negative demand leaves the lowest owing less than it.
  lemma OrderUpset() returns (before: Sys)
    ensures Reachable(before) && before.Fair() && Enabled(before, Acquire(-1, 1, 0))
    ensures Sorted(before.debt, 0) && !Sorted(Apply(before, Acquire(-1, 1, 0)).debt, 0)
  {
    before := BothOwe();
    LockReady(before);
    ReachableDebt(before);
    assert Crowded(before.queues, 1);
    assert before.debt[1].Value(0) == 1.0 && before.debt[2].Value(0) == 1.0;
    DebtsStayInOrderIff(before, Acquire(-1, 1, 0));
  }
}

/** What every event keeps of the debts and the top queue: whatever callers do, as long as no caller asks
    for a negative number of tokens, and as long as callers return only what they were granted, too. */
module Fairness {
  import opened Wrappers
  import opened Clocks
  import opened Decays
  import opened Queues
  import opened Admission
  import opened Debts
  import opened Invariants

  // ---- The debts and the top queue ----

  lemma TestKeepsDebt(s: Sys, prio: nat, now: Time)
    requires CoreInv(s) && TopInv(s) && s.clock <= now && prio < |s.debt|
    ensures DebtIn(TestedDebt(s, prio, now), s.cfg, now)
    ensures DebtForgotten(TestedDebt(s, prio, now), s.lastPenalty, now)
    ensures Sorted(s.debt, s.clock) ==> Sorted(s.debt, now) && Sorted(TestedDebt(s, prio, now), now)
    ensures Alike(s.debt, TestedDebt(s, prio, now), now)
  {
    DebtsLater(s.debt, s.cfg, s.lastPenalty, s.clock, now);
    GetIsQuiet(s.debt, s.cfg, now, prio);
    AlikeKeepsDebt(s.debt, TestedDebt(s, prio, now), s.cfg, s.lastPenalty, now);
  }

  // Whoever fits beside its debt fits without it, for no debt is negative.
  lemma FitsTakes(s: Sys, demand: int, prio: nat, now: Time)
    requires prio < |s.debt| && AdmitsAtOnce(s, demand, prio, now)
    ensures s.outstanding + demand <= s.cfg.capacity
  {
    assert s.debt[prio].Value(now) >= 0.0;
  }

  lemma FastKeepsDebt(s: Sys, demand: int, prio: nat, now: Time, forgiven: real)
    requires CoreInv(s) && TopInv(s) && s.clock <= now
    requires Refuses(s, demand, prio) == None && AdmitsAtOnce(s, demand, prio, now)
    ensures var r := AcquireFast(s, demand, prio, now, forgiven);
            && DebtIn(r.debt, r.cfg, now) && DebtForgotten(r.debt, r.lastPenalty, now)
            && (Sorted(s.debt, s.clock) ==> Sorted(r.debt, now))
  {
    FitsTakes(s, demand, prio, now);
    TestKeepsDebt(s, prio, now);
    ForgiveLeaves(TestedDebt(s, prio, now), s.cfg, s.lastPenalty, now, prio + 1, forgiven);
  }

  lemma SlowKeepsDebt(s: Sys, demand: int, prio: nat, now: Time)
    requires CoreInv(s) && TopInv(s) && s.clock <= now
    requires Refuses(s, demand, prio) == None
    ensures var r := AcquireSlow(s, demand, prio, now);
            DebtIn(r.debt, r.cfg, now) && DebtForgotten(r.debt, r.lastPenalty, now)
  {
    TestKeepsDebt(s, prio, now);
    var tested := TestedDebt(s, prio, now);
    PenaliseIs(tested, s.cfg, now, prio + 1, demand as real);
    if prio + 1 < |s.debt| && demand > 0 {
      FullNow(AcquireSlow(s, demand, prio, now).debt, s.cfg, now);
    } else {
      PenaliseForgets(tested, s.cfg, s.lastPenalty, now, prio + 1, demand as real);
    }
  }

  lemma AcquireKeepsTop(s: Sys, demand: int, prio: int, now: Time)
    requires CoreInv(s) && TopInv(s) && Enabled(s, Acquire(demand, prio, now))
    ensures TopInv(Apply(s, Acquire(demand, prio, now)))
  {
    if Refuses(s, demand, prio) == None {
      if AdmitsAtOnce(s, demand, prio, now) {
        FitsTakes(s, demand, prio, now);
        FastKeepsDebt(s, demand, prio, now, s.cfg.Forgiven(demand));
      } else {
        SlowKeepsDebt(s, demand, prio, now);
      }
    }
  }

  lemma ServeKeepsDebt(s: Sys)
    requires CoreInv(s) && TopInv(s) && s.pc.Serving?
    ensures var r := ServeStep(s, s.pc.i);
            && DebtIn(r.debt, s.cfg, s.clock) && DebtForgotten(r.debt, s.lastPenalty, s.clock)
            && Alike(s.debt, r.debt, s.clock)
  {
    if s.pc.i < |s.queues| {
      GetIsQuiet(s.debt, s.cfg, s.clock, s.pc.i);
      AlikeKeepsDebt(s.debt, s.debt[s.pc.i := s.debt[s.pc.i].Get(s.clock)], s.cfg, s.lastPenalty, s.clock);
    }
  }

  // When admit stops at the top queue, that queue's waiter does not fit, for the top debt is none.
  lemma ServeKeepsTop(s: Sys)
    requires CoreInv(s) && TopInv(s) && s.pc.Serving?
    ensures TopInv(ServeStep(s, s.pc.i))
  {
    ServeKeepsDebt(s);
    if s.debt != [] {
      NothingDecays(s.debt[0], s.clock);
    }
  }

  lemma DropStaysBounded(calls: seq<Call>, shed: seq<Item>, capacity: nat)
    ensures Bounded(calls, capacity) ==> Bounded(DropAll(calls, shed), capacity)
    ensures Sensible(calls) ==> Sensible(DropAll(calls, shed))
  {
  }

  lemma ReapKeepsTop(s: Sys)
    requires Shape(s) && TopInv(s) && s.pc.Reaping?
    ensures TopInv(ReapStep(s, s.pc.i))
  {
    if s.pc.i < |s.queues| {
      DropStaysBounded(s.calls, s.queues[s.pc.i].Shed(s.clock), s.cfg.capacity);
    }
  }

  lemma LockKeepsTop(s: Sys)
    requires CoreInv(s) && TopInv(s) && Enabled(s, Lock)
    ensures TopInv(LockStep(s))
  {
    match s.pc
    case Reaping(_) => ReapKeepsTop(s);
    case Serving(_) => ServeKeepsTop(s);
    case Popping(_, _) =>
    case Sending(_, _, _) =>
  }

  lemma EnterKeepsTop(s: Sys, now: Time)
    requires CoreInv(s) && TopInv(s) && s.clock <= now
    ensures TopInv(Enter(s, now)) && (Sorted(s.debt, s.clock) ==> Sorted(s.debt, now))
  {
    DebtsLater(s.debt, s.cfg, s.lastPenalty, s.clock, now);
  }

  lemma ReturnKeepsTop(s: Sys, r: Sys, tokens: int, now: Time)
    requires CoreInv(s) && TopInv(s) && s.pc == Free && s.clock <= now
    requires r == s.(calls := r.calls, faults := r.faults) && Bounded(r.calls, r.cfg.capacity)
    ensures TopInv(Return(r, tokens, now))
  {
    EnterKeepsTop(s, now);
  }

  lemma StepKeepsTop(s: Sys, e: Event)
    requires CoreInv(s) && TopInv(s) && Enabled(s, e)
    ensures TopInv(Apply(s, e))
  {
    match e
    case Acquire(demand, prio, now) => AcquireKeepsTop(s, demand, prio, now);
    case Release(k, now) =>
      ReturnKeepsTop(s, s.(calls := s.calls[k := s.calls[k].(released := true)]), s.calls[k].demand, now);
    case Stray(tokens, now) => ReturnKeepsTop(s, s.(faults := s.faults.Returned(tokens)), tokens, now);
    case Tick(now) => EnterKeepsTop(s, now);
    case Lock => LockKeepsTop(s);
    case _ =>
  }

  // ---- The order of the debts ----

  // The one way to upset the order: a failure with a negative demand that lowers the debts below prio
  // past that of prio itself.
  predicate KeepsOrder(s: Sys, e: Event)
    requires Enabled(s, e)
  {
    match e
    case Acquire(demand, prio, now) =>
      || Refuses(s, demand, prio) != None
      || AdmitsAtOnce(s, demand, prio, now)
      || demand >= 0
      || prio + 1 == |s.debt|
      || s.debt[prio].Value(now) == 0.0
      || s.debt[prio].Value(now) <= s.debt[prio + 1].Value(now) + demand as real
    case _ => true
  }

  lemma SlowSortsIff(s: Sys, demand: int, prio: nat, now: Time)
    requires CoreInv(s) && TopInv(s) && s.clock <= now && Sorted(s.debt, s.clock)
    requires Refuses(s, demand, prio) == None
    ensures Sorted(AcquireSlow(s, demand, prio, now).debt, now)
            <==> (demand >= 0 || prio + 1 == |s.debt| || s.debt[prio].Value(now) == 0.0
                  || s.debt[prio].Value(now) <= s.debt[prio + 1].Value(now) + demand as real)
  {
    TestKeepsDebt(s, prio, now);
    PenaliseSortsIff(TestedDebt(s, prio, now), s.cfg, now, prio, demand as real);
  }

  lemma AcquireSortsIff(s: Sys, demand: int, prio: int, now: Time)
    requires CoreInv(s) && TopInv(s) && Enabled(s, Acquire(demand, prio, now)) && Sorted(s.debt, s.clock)
    ensures var r := Apply(s, Acquire(demand, prio, now));
            Sorted(r.debt, r.clock) <==> KeepsOrder(s, Acquire(demand, prio, now))
  {
    if Refuses(s, demand, prio) == None {
      if AdmitsAtOnce(s, demand, prio, now) {
        FitsTakes(s, demand, prio, now);
        FastKeepsDebt(s, demand, prio, now, s.cfg.Forgiven(demand));
      } else {
        SlowSortsIff(s, demand, prio, now);
      }
    }
  }

  lemma LockKeepsSorted(s: Sys)
    requires CoreInv(s) && TopInv(s) && Enabled(s, Lock) && Sorted(s.debt, s.clock)
    ensures Sorted(LockStep(s).debt, s.clock) && LockStep(s).clock == s.clock
  {
    if s.pc.Serving? {
      ServeKeepsDebt(s);
    }
  }

  lemma OthersKeepSorted(s: Sys, e: Event)
    requires CoreInv(s) && TopInv(s) && Enabled(s, e) && Sorted(s.debt, s.clock) && !e.Acquire? && e != Lock
    ensures Sorted(Apply(s, e).debt, Apply(s, e).clock)
  {
    match e
    case Release(_, now) => EnterKeepsTop(s, now);
    case Stray(_, now) => EnterKeepsTop(s, now);
    case Tick(now) => EnterKeepsTop(s, now);
    case _ =>
  }

  lemma OrderKeptIff(s: Sys, e: Event)
    requires CoreInv(s) && TopInv(s) && Enabled(s, e) && Sorted(s.debt, s.clock)
    ensures Sorted(Apply(s, e).debt, Apply(s, e).clock) <==> KeepsOrder(s, e)
  {
    match e
    case Acquire(demand, prio, now) => AcquireSortsIff(s, demand, prio, now);
    case Lock => LockKeepsSorted(s);
    case _ => OthersKeepSorted(s, e);
  }

  // ---- Fair callers ----

  // A fair caller's tokens are there to be returned.
  lemma HeldIsOutstanding(s: Sys, k: nat)
    requires CoreInv(s) && FairInv(s) && s.pc == Free
    requires k < |s.calls| && s.calls[k].outcome == Granted && !s.calls[k].released
    ensures s.calls[k].demand <= s.outstanding
  {
    assert CallOk(s.calls[k], false);
    LiveCovers(s.calls, k);
  }

  lemma AcquireKeepsFair(s: Sys, demand: int, prio: int, now: Time)
    requires CoreInv(s) && FairInv(s) && Enabled(s, Acquire(demand, prio, now))
    requires Apply(s, Acquire(demand, prio, now)).Fair()
    ensures FairInv(Apply(s, Acquire(demand, prio, now)))
  {
    if Refuses(s, demand, prio) == None && AdmitsAtOnce(s, demand, prio, now) {
      FitsTakes(s, demand, prio, now);
    }
  }

  lemma ServeKeepsFair(s: Sys)
    requires CoreInv(s) && FairInv(s) && s.pc.Serving?
    ensures FairInv(ServeStep(s, s.pc.i))
  {
    if s.pc.i < |s.queues| && s.queues[s.pc.i].items != [] {
      assert s.debt[s.pc.i].Value(s.clock) >= 0.0;
    }
  }

  lemma ReapKeepsFair(s: Sys)
    requires CoreInv(s) && FairInv(s) && s.pc.Reaping?
    ensures FairInv(ReapStep(s, s.pc.i))
  {
    if s.pc.i < |s.queues| {
      DropStaysBounded(s.calls, s.queues[s.pc.i].Shed(s.clock), s.cfg.capacity);
    }
  }

  lemma PopKeepsFair(s: Sys)
    requires CoreInv(s) && FairInv(s) && s.pc.Popping?
    ensures FairInv(PopStep(s, s.pc.i, s.pc.charge))
  {
  }

  lemma SendKeepsFair(s: Sys)
    requires CoreInv(s) && FairInv(s) && s.pc.Sending?
    ensures FairInv(SendStep(s, s.pc.i, s.pc.ticket, s.pc.charge))
  {
  }

  lemma LockKeepsFair(s: Sys)
    requires CoreInv(s) && FairInv(s) && Enabled(s, Lock)
    ensures FairInv(LockStep(s))
  {
    match s.pc
    case Reaping(_) => ReapKeepsFair(s);
    case Serving(_) => ServeKeepsFair(s);
    case Popping(_, _) => PopKeepsFair(s);
    case Sending(_, _, _) => SendKeepsFair(s);
  }

  lemma StepKeepsFair(s: Sys, e: Event)
    requires CoreInv(s) && FairInv(s) && Enabled(s, e) && Apply(s, e).Fair()
    ensures FairInv(Apply(s, e))
  {
    match e
    case Acquire(demand, prio, now) => AcquireKeepsFair(s, demand, prio, now);
    case Release(k, _) => HeldIsOutstanding(s, k);
    case Lock => LockKeepsFair(s);
    case _ =>
  }
}

/** How soon successes of the top priority clear what the others owe. */
module Relief {
  import opened Wrappers
  import opened Clocks
  import opened Decays
  import opened Admission
  import opened Debts
  import opened Fairness
  import opened Preservation
  import opened Theorems
  import opened Runs

  ghost predicate AtMost(debt: seq<Decay>, t: Time, bound: real) {
    forall i :: 0 <= i < |debt| ==> debt[i].Value(t) <= bound
  }

  // A success of the top priority lowers the bound by what it forgives, down to nothing.
  lemma {:induction false} ForgiveTightens(debt: seq<Decay>, r: seq<Decay>, t: Time, amount: real, max: real,
                                           bound: real, j: nat)
    requires Forgives(debt, r, 1, t, amount, max) && AtMost(debt, t, bound) && amount >= 0.0 && max >= 0.0
    requires j < |r| && debt[0].Value(t) == 0.0
    ensures r[j].Value(t) <= Max(0.0, bound - amount)
    decreases j
  {
    if j > 0 {
      ForgiveTightens(debt, r, t, amount, max, bound, j - 1);
      assert r[j].Value(t) == Max(Charged(debt[j].Value(t), -amount, max), r[j - 1].Value(t));
    }
  }

  lemma TimeKeepsBound(debt: seq<Decay>, cfg: Config, t: Time, u: Time, bound: real)
    requires cfg.Ok() && DebtIn(debt, cfg, t) && t <= u && AtMost(debt, t, bound)
    ensures AtMost(debt, u, bound)
  {
    forall i | 0 <= i < |debt|
      ensures debt[i].Value(u) <= bound
    {
      ValueFalls(debt[i], t, u);
    }
  }

  // What this event forgives if it is a success of the top priority.
  ghost function Share(s: Sys, e: Event): (amount: real)
    requires Enabled(s, e)
  {
    if e.Acquire? && e.prio == 0 && Refuses(s, e.demand, 0) == None && AdmitsAtOnce(s, e.demand, 0, e.now)
    then s.cfg.debtForgivePerSuccess * e.demand as real
    else 0.0
  }

  lemma FastRelieves(s: Sys, demand: int, prio: nat, now: Time, amount: real, bound: real)
    requires Reachable(s) && s.pc == Free && s.clock <= now && prio < |s.debt| && amount >= 0.0 && bound >= 0.0
    requires Refuses(s, demand, prio) == None && AdmitsAtOnce(s, demand, prio, now) && AtMost(s.debt, s.clock, bound)
    ensures AtMost(AcquireFast(s, demand, prio, now, amount).debt, now,
                   if prio == 0 then Max(0.0, bound - amount) else bound)
  {
    ReachableInv(s);
    FastIs(s, demand, prio, now, amount);
    TimeKeepsBound(s.debt, s.cfg, s.clock, now, bound);
    NothingDecays(s.debt[0], now);
    var r, max := AcquireFast(s, demand, prio, now, amount).debt, s.cfg.capacity as real;
    forall i | 0 <= i < |r|
      ensures r[i].Value(now) <= if prio == 0 then Max(0.0, bound - amount) else bound
    {
      if prio == 0 {
        ForgiveTightens(s.debt, r, now, amount, max, bound, i);
      } else {
        ForgiveKeepsBound(s.debt, r, prio + 1, now, amount, max, bound, i);
      }
    }
  }

  lemma SlowKeepsBound(s: Sys, demand: int, prio: nat, now: Time, bound: real)
    requires Reachable(s) && s.clock <= now && prio < |s.debt| == |s.queues|
    requires bound >= 0.0 && AtMost(s.debt, s.clock, bound)
    requires Refuses(s, demand, prio) == None && (prio + 1 == |s.debt| || demand <= 0)
    ensures AtMost(AcquireSlow(s, demand, prio, now).debt, now, bound)
  {
    ReachableInv(s);
    TimeKeepsBound(s.debt, s.cfg, s.clock, now, bound);
    TestKeepsDebt(s, prio, now);
    PenaliseIs(TestedDebt(s, prio, now), s.cfg, now, prio + 1, demand as real);
    DebtsInRange(TestedDebt(s, prio, now), s.cfg, now);
  }

  lemma LockKeepsBound(s: Sys, bound: real)
    requires Reachable(s) && Enabled(s, Lock) && AtMost(s.debt, s.clock, bound)
    ensures AtMost(LockStep(s).debt, LockStep(s).clock, bound)
  {
    ReachableInv(s);
    if s.pc.Serving? {
      ServeKeepsDebt(s);
    }
  }

  lemma OthersKeepBound(s: Sys, e: Event, bound: real)
    requires Reachable(s) && Enabled(s, e) && !e.Acquire? && e != Lock && AtMost(s.debt, s.clock, bound)
    ensures AtMost(Apply(s, e).debt, Apply(s, e).clock, bound)
  {
    ReachableInv(s);
    if e.Release? || e.Stray? || e.Tick? {
      TimeKeepsBound(s.debt, s.cfg, s.clock, e.now, bound);
    }
  }

  lemma ShareIs(s: Sys, e: Event)
    requires e.Acquire? && Enabled(s, e) && Refuses(s, e.demand, e.prio) == None
    ensures var granted := AdmitsAtOnce(s, e.demand, e.prio, e.now);
            Share(s, e) == if e.prio == 0 && granted then s.cfg.Forgiven(e.demand) else 0.0
  {
  }

  // A request that was taken up.
  lemma TakenRelieves(s: Sys, e: Event, bound: real, amount: real)
    requires Reachable(s) && e.Acquire? && Enabled(s, e) && bound >= 0.0 && AtMost(s.debt, s.clock, bound)
    requires Refuses(s, e.demand, e.prio) == None
    requires if AdmitsAtOnce(s, e.demand, e.prio, e.now) then amount >= 0.0 else e.prio + 1 == |s.debt| || e.demand <= 0
    ensures var now := e.now;
            if AdmitsAtOnce(s, e.demand, e.prio, now)
            then AtMost(AcquireFast(s, e.demand, e.prio, now, amount).debt, now,
                        if e.prio == 0 then Max(0.0, bound - amount) else bound)
            else AtMost(AcquireSlow(s, e.demand, e.prio, now).debt, now, bound)
  {
    if AdmitsAtOnce(s, e.demand, e.prio, e.now) {
      FastRelieves(s, e.demand, e.prio, e.now, amount, bound);
    } else {
      SlowKeepsBound(s, e.demand, e.prio, e.now, bound);
    }
  }

  lemma AcquireRelieves(s: Sys, e: Event, bound: real)
    requires Reachable(s) && e.Acquire? && Enabled(s, e) && NoPenalty(s, [e]) && bound >= 0.0
    requires AtMost(s.debt, s.clock, bound)
    ensures Share(s, e) >= 0.0
    ensures AtMost(Apply(s, e).debt, Apply(s, e).clock, Max(0.0, bound - Share(s, e)))
  {
    if Refuses(s, e.demand, e.prio) == None {
      ShareIs(s, e);
      TakenRelieves(s, e, bound, s.cfg.Forgiven(e.demand));
    }
  }

  lemma StepRelieves(s: Sys, e: Event, bound: real)
    requires Reachable(s) && Enabled(s, e) && NoPenalty(s, [e]) && bound >= 0.0 && AtMost(s.debt, s.clock, bound)
    ensures Share(s, e) >= 0.0
    ensures AtMost(Apply(s, e).debt, Apply(s, e).clock, Max(0.0, bound - Share(s, e)))
  {
    if e.Acquire? {
      AcquireRelieves(s, e, bound);
    } else if e == Lock {
      LockKeepsBound(s, bound);
    } else {
      OthersKeepBound(s, e, bound);
    }
  }

  // What the successes of the top priority in a run forgive: debtForgivePerSuccess of their tokens.
  ghost function Total(s: Sys, es: seq<Event>): (amount: real)
    decreases |es|
  {
    if es == [] || !Enabled(s, es[0]) then 0.0 else Share(s, es[0]) + Total(Apply(s, es[0]), es[1..])
  }

  // Over a run without a penalty the most that anybody owes falls by the total that successes of the
  // top priority forgive, whatever time does besides: once that comes to the capacity all debts are gone.
  lemma {:induction false} SuccessesClearDebt(s: Sys, es: seq<Event>, t: Sys, bound: real)
    requires Reachable(s) && IsRun(s, es, t) && NoPenalty(s, es) && bound >= 0.0 && AtMost(s.debt, s.clock, bound)
    ensures AtMost(t.debt, t.clock, Max(0.0, bound - Total(s, es)))
    decreases |es|
  {
    RunHead(s, es, t);
    if es != [] {
      StepRelieves(s, es[0], bound);
      ReachableStep(s, es[0]);
      SuccessesClearDebt(Apply(s, es[0]), es[1..], t, Max(0.0, bound - Share(s, es[0])));
      TotalIsNotNegative(Apply(s, es[0]), es[1..], t);
    }
  }

  lemma {:induction false} TotalIsNotNegative(s: Sys, es: seq<Event>, t: Sys)
    requires Reachable(s) && IsRun(s, es, t) && NoPenalty(s, es)
    ensures Total(s, es) >= 0.0
    decreases |es|
  {
    RunHead(s, es, t);
    if es != [] {
      ReachableDebt(s);
      DebtsInRange(s.debt, s.cfg, s.clock);
      StepRelieves(s, es[0], s.cfg.capacity as real);
      ReachableStep(s, es[0]);
      TotalIsNotNegative(Apply(s, es[0]), es[1..], t);
    }
  }
}

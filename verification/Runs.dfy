/** Properties of whole runs: shedding, residency, forgetting, order of service, termination. */
module Runs {
  import opened Wrappers
  import opened Clocks
  import opened Decays
  import opened Queues
  import opened Admission
  import opened Debts
  import opened Invariants
  import opened Preservation
  import opened Theorems

  // ---- A healthy queue never sheds ----

  // Each logged drop was made in LIFO mode, of a caller older than shortTimeout.
  ghost predicate ShedOk(n: Note, calls: seq<Call>, shortTimeout: Duration) {
    n.Departure? && n.reason.Shed? ==>
      n.reason.mode == LIFO && n.ticket < |calls| && n.time - calls[n.ticket].since > shortTimeout
  }

  ghost predicate ShedsOk(log: seq<Note>, calls: seq<Call>, shortTimeout: Duration) {
    forall j :: 0 <= j < |log| ==> ShedOk(log[j], calls, shortTimeout)
  }

  // No call ever changes its arrival time, and none is lost.
  ghost predicate SameArrivals(calls: seq<Call>, calls': seq<Call>) {
    |calls| <= |calls'| && forall k :: 0 <= k < |calls| ==> calls'[k].since == calls[k].since
  }

  lemma ShedsStay(log: seq<Note>, calls: seq<Call>, calls': seq<Call>, shortTimeout: Duration)
    requires ShedsOk(log, calls, shortTimeout) && SameArrivals(calls, calls')
    ensures ShedsOk(log, calls', shortTimeout)
  {
    forall j | 0 <= j < |log|
      ensures ShedOk(log[j], calls', shortTimeout)
    {
      assert ShedOk(log[j], calls, shortTimeout);
    }
  }

  lemma LockKeepsArrivals(s: Sys)
    requires Enabled(s, Lock)
    ensures SameArrivals(s.calls, LockStep(s).calls) && LockStep(s).cfg == s.cfg
  {
    match s.pc
    case Reaping(_) =>
    case Serving(_) =>
    case Popping(_, _) =>
    case Sending(_, _, _) =>
  }

  lemma StepKeepsArrivals(s: Sys, e: Event)
    requires Enabled(s, e)
    ensures SameArrivals(s.calls, Apply(s, e).calls) && Apply(s, e).cfg == s.cfg
  {
    if e == Lock {
      LockKeepsArrivals(s);
    }
  }

  lemma ShedAreLate(q: Queue, i: nat, t: Time, calls: seq<Call>, j: nat)
    requires QueueOk(q, t) && j < |q.Shed(t)| && forall h :: 0 <= h < |q.items| ==> Linked(q.items[h], i, calls)
    ensures ShedOk(Departure(q.Shed(t)[j].id, i, t, Shed(q.SetMode(t).mode)), calls, q.shortTimeout)
  {
    ReapTellsByAge(q, t);
    HealthyQueueShedsNothing(q, t);
    assert Linked(q.items[j], i, calls);
  }

  lemma ShedReap(s: Sys)
    requires Inv(s) && s.pc.Reaping? && s.pc.i < |s.queues| && ShedsOk(s.log, s.calls, s.cfg.shortTimeout)
    ensures ShedsOk(ReapStep(s, s.pc.i).log, s.calls, s.cfg.shortTimeout)
  {
    var i := s.pc.i;
    var q := s.queues[i];
    assert QueueOk(q, s.clock);
    var r := ReapStep(s, i);
    forall j | 0 <= j < |r.log|
      ensures ShedOk(r.log[j], s.calls, s.cfg.shortTimeout)
    {
      if j >= |s.log| {
        ShedAreLate(q, i, s.clock, s.calls, j - |s.log|);
      }
    }
  }

  // Acquire notes arrivals and grants, a pop one departure, and nothing else but a reap notes anything.
  ghost predicate NotesNoShed(log: seq<Note>, log': seq<Note>) {
    log <= log' && forall j :: |log| <= j < |log'| ==> !(log'[j].Departure? && log'[j].reason.Shed?)
  }

  lemma LockNotes(s: Sys)
    requires Enabled(s, Lock) && !(s.pc.Reaping? && s.pc.i < |s.queues|)
    ensures NotesNoShed(s.log, LockStep(s).log)
  {
  }

  lemma StepNotes(s: Sys, e: Event)
    requires Enabled(s, e) && !(e == Lock && s.pc.Reaping? && s.pc.i < |s.queues|)
    ensures NotesNoShed(s.log, Apply(s, e).log)
  {
    match e
    case Lock => LockNotes(s);
    case Acquire(_, _, _) =>
    case _ =>
  }

  lemma ShedStep(s: Sys, e: Event)
    requires Inv(s) && Enabled(s, e) && ShedsOk(s.log, s.calls, s.cfg.shortTimeout)
    ensures ShedsOk(Apply(s, e).log, Apply(s, e).calls, Apply(s, e).cfg.shortTimeout)
  {
    StepKeepsArrivals(s, e);
    var r := Apply(s, e);
    if e == Lock && s.pc.Reaping? && s.pc.i < |s.queues| {
      ShedReap(s);
    } else {
      StepNotes(s, e);
    }
    assert ShedsOk(r.log, s.calls, s.cfg.shortTimeout);
    ShedsStay(r.log, s.calls, r.calls, s.cfg.shortTimeout);
  }

  lemma {:induction false} ShedsStayOk(s: Sys, es: seq<Event>, t: Sys)
    requires Inv(s) && ShedsOk(s.log, s.calls, s.cfg.shortTimeout) && IsRun(s, es, t)
    ensures ShedsOk(t.log, t.calls, t.cfg.shortTimeout)
    decreases |es|
  {
    RunHead(s, es, t);
    if es != [] {
      ShedStep(s, es[0]);
      StepKeepsInv(s, es[0]);
      ShedsStayOk(Apply(s, es[0]), es[1..], t);
    }
  }

  // In every run each drop happens in LIFO mode and meets a caller that has waited for longer than
  // shortTimeout.
  lemma ShedOnlyInLifo(s: Sys)
    requires Reachable(s)
    ensures ShedsOk(s.log, s.calls, s.cfg.shortTimeout)
  {
    var s0, es :| Init(s0) && IsRun(s0, es, s);
    InitInv(s0);
    ShedsStayOk(s0, es, s);
  }

  // ---- Bounded residency ----

  // The ticker's promise: while anybody waits, the next critical section comes within longTimeout
  // of the latest reap.
  predicate InTime(s: Sys, e: Event) {
    s.hasWaiters && (e.Acquire? || e.Release? || e.Stray? || e.Tick?) ==> e.now - s.lastReap <= s.cfg.longTimeout
  }

  ghost predicate TicksInTime(s: Sys, es: seq<Event>)
    decreases |es|
  {
    es != [] && Enabled(s, es[0]) ==> InTime(s, es[0]) && TicksInTime(Apply(s, es[0]), es[1..])
  }

  ghost predicate NobodyOlderThan(queues: seq<Queue>, age: Duration, t: Time) {
    forall p :: 0 <= p < |queues| ==> YoungerAt(queues[p], age, t)
  }

  // Just after the queues are reaped nobody in them is older than longTimeout, nor older than
  // shortTimeout in a queue in LIFO mode; and this is still so, as of that reap, at every unlock.
  lemma ReapedAges(s: Sys, p: nat, j: nat)
    requires Reachable(s) && p < |s.queues| && j < |s.queues[p].items| && !s.pc.Reaping?
    ensures s.lastReap - s.queues[p].items[j].enqueued
            <= if s.queues[p].mode == LIFO then s.cfg.shortTimeout else s.cfg.longTimeout
    ensures s.pc != Free ==> s.lastReap == s.clock
  {
    ReachableInv(s);
    assert AgeOk(s.queues[p], p, s.pc, s.lastReap, s.clock);
  }

  // Entering a critical section in time finds nobody older than twice longTimeout.
  lemma EntryAges(s: Sys, now: Time)
    requires Inv(s) && s.pc == Free && s.clock <= now
    requires s.hasWaiters ==> now - s.lastReap <= s.cfg.longTimeout
    ensures NobodyOlderThan(s.queues, 2 * s.cfg.longTimeout, now)
  {
    forall p, j | 0 <= p < |s.queues| && 0 <= j < |s.queues[p].items|
      ensures now - s.queues[p].items[j].enqueued <= 2 * s.cfg.longTimeout
    {
      assert SomeWaiter(s.queues);
      assert AgeOk(s.queues[p], p, Free, s.lastReap, s.clock);
    }
  }

  lemma PushAges(queues: seq<Queue>, prio: nat, item: Item, age: Duration, now: Time)
    requires NobodyOlderThan(queues, age, now) && prio < |queues| && item.enqueued == now && age >= 0
    ensures NobodyOlderThan(queues[prio := queues[prio].Push(item, now)], age, now)
  {
    assert YoungerAt(queues[prio], age, now);
  }

  lemma EntryMoves(s: Sys, e: Event)
    requires Enabled(s, e) && (e.Release? || e.Stray? || e.Tick?)
    ensures Apply(s, e).queues == s.queues && (Apply(s, e).clock == e.now || Apply(s, e).clock == s.clock)
  {
  }

  lemma EntryStep(s: Sys, e: Event)
    requires Inv(s) && Enabled(s, e) && InTime(s, e) && (e.Acquire? || e.Release? || e.Stray? || e.Tick?)
    requires NobodyOlderThan(s.queues, 2 * s.cfg.longTimeout, s.clock)
    ensures NobodyOlderThan(Apply(s, e).queues, 2 * s.cfg.longTimeout, Apply(s, e).clock)
  {
    EntryAges(s, e.now);
    if !e.Acquire? {
      EntryMoves(s, e);
    } else if Refuses(s, e.demand, e.prio) == None && !AdmitsAtOnce(s, e.demand, e.prio, e.now) {
      PushAges(s.queues, e.prio, Item(|s.calls|, e.now, e.demand), 2 * s.cfg.longTimeout, e.now);
    }
  }

  lemma TakenAges(queues: seq<Queue>, i: nat, age: Duration, t: Time)
    requires NobodyOlderThan(queues, age, t) && i < |queues|
    ensures NobodyOlderThan(queues[i := queues[i].Pop(t)], age, t)
    ensures NobodyOlderThan(queues[i := queues[i].Reap(t)], age, t)
  {
    assert YoungerAt(queues[i], age, t);
  }

  lemma ResidencyLock(s: Sys)
    requires Enabled(s, Lock) && NobodyOlderThan(s.queues, 2 * s.cfg.longTimeout, s.clock)
    ensures var r := LockStep(s);
            r.cfg == s.cfg && NobodyOlderThan(r.queues, 2 * s.cfg.longTimeout, r.clock)
  {
    if (s.pc.Reaping? && s.pc.i < |s.queues|) || s.pc.Popping? {
      TakenAges(s.queues, s.pc.i, 2 * s.cfg.longTimeout, s.clock);
    }
  }

  lemma ResidencyStep(s: Sys, e: Event)
    requires Inv(s) && Enabled(s, e) && InTime(s, e)
    requires NobodyOlderThan(s.queues, 2 * s.cfg.longTimeout, s.clock)
    ensures var r := Apply(s, e);
            r.cfg == s.cfg && NobodyOlderThan(r.queues, 2 * s.cfg.longTimeout, r.clock)
  {
    if e.Acquire? || e.Release? || e.Stray? || e.Tick? {
      EntryStep(s, e);
    } else if e == Lock {
      ResidencyLock(s);
    }
  }

  lemma {:induction false} AgesStayBounded(s: Sys, es: seq<Event>, t: Sys)
    requires Inv(s) && IsRun(s, es, t) && TicksInTime(s, es)
    requires NobodyOlderThan(s.queues, 2 * s.cfg.longTimeout, s.clock)
    ensures t.cfg == s.cfg && NobodyOlderThan(t.queues, 2 * s.cfg.longTimeout, t.clock)
    decreases |es|
  {
    RunHead(s, es, t);
    if es != [] {
      ResidencyStep(s, es[0]);
      StepKeepsInv(s, es[0]);
      AgesStayBounded(Apply(s, es[0]), es[1..], t);
    }
  }

  // In every run whose ticks come in time, nobody ever stays in a queue longer than twice longTimeout.
  lemma BoundedResidency(s: Sys, es: seq<Event>, t: Sys)
    requires Init(s) && IsRun(s, es, t) && TicksInTime(s, es)
    ensures NobodyOlderThan(t.queues, 2 * s.cfg.longTimeout, t.clock)
  {
    InitInv(s);
    AgesStayBounded(s, es, t);
  }

  // A caller in its queue at an unlock is as old as its place there.
  lemma QueuedAge(s: Sys, k: nat, age: Duration)
    requires Reachable(s) && s.pc == Free && k < |s.calls| && NobodyOlderThan(s.queues, age, s.clock)
    requires s.calls[k].prio < |s.queues| && HasTicket(s.queues[s.calls[k].prio].items, k)
    ensures s.clock - s.calls[k].since <= age
  {
    ReachableInv(s);
    var p := s.calls[k].prio;
    var j :| 0 <= j < |s.queues[p].items| && s.queues[p].items[j].id == k;
    assert Linked(s.queues[p].items[j], p, s.calls);
    assert YoungerAt(s.queues[p], age, s.clock);
  }

  // So, in a run whose ticks come in time, every caller that found a place and arrived more than twice
  // longTimeout ago has its answer at every unlock, or has it waiting in its channel: true exactly if
  // it was admitted.
  lemma AnsweredInTime(s: Sys, es: seq<Event>, t: Sys, k: nat)
    requires Init(s) && IsRun(s, es, t) && TicksInTime(s, es)
    requires t.pc == Free && k < |t.calls| && t.calls[k].placed
    requires t.clock - t.calls[k].since > 2 * s.cfg.longTimeout
    ensures var c := t.calls[k];
            c.outcome != Pending || c.chan == [c.state == Admitted]
  {
    BoundedResidency(s, es, t);
    assert Reachable(t);
    if t.calls[k].outcome == Pending {
      NoLostWakeUp(t, k);
      ExactlyOneOutcome(t, k);
      if t.calls[k].sends == 0 {
        QueuedAge(t, k, 2 * s.cfg.longTimeout);
      }
    }
  }

  // ---- Learned debt is forgotten ----

  // No Acquire in the run adds debt to anyone: each is refused, or granted on arrival and charges
  // nothing instead of forgiving, or of the lowest priority, or asks for no more than nothing.
  ghost predicate NoPenalty(s: Sys, es: seq<Event>)
    decreases |es|
  {
    es != [] && Enabled(s, es[0]) ==>
      && (es[0].Acquire? ==>
            || Refuses(s, es[0].demand, es[0].prio).Some?
            || (if AdmitsAtOnce(s, es[0].demand, es[0].prio, es[0].now) then s.cfg.Forgiven(es[0].demand) >= 0.0
                else es[0].prio + 1 == |s.debt| || es[0].demand <= 0))
      && NoPenalty(Apply(s, es[0]), es[1..])
  }

  lemma LockAddsNoPenalty(s: Sys)
    requires Enabled(s, Lock)
    ensures LockStep(s).lastPenalty == s.lastPenalty && LockStep(s).cfg == s.cfg
  {
  }

  lemma PenaltyStep(s: Sys, e: Event)
    requires Enabled(s, e) && NoPenalty(s, [e])
    ensures Apply(s, e).lastPenalty == s.lastPenalty && Apply(s, e).cfg == s.cfg
  {
    if e == Lock {
      LockAddsNoPenalty(s);
    }
  }

  lemma {:induction false} PenaltyStays(s: Sys, es: seq<Event>, t: Sys)
    requires Inv(s) && IsRun(s, es, t) && NoPenalty(s, es)
    ensures t.lastPenalty == s.lastPenalty <= s.clock && t.cfg == s.cfg
    decreases |es|
  {
    RunHead(s, es, t);
    if es != [] {
      StepKeepsInv(s, es[0]);
      PenaltyStep(s, es[0]);
      PenaltyStays(Apply(s, es[0]), es[1..], t);
    }
  }

  lemma FullDecay(cfg: Config, elapsed: Duration)
    requires cfg.Ok() && elapsed >= cfg.debtDecayInterval
    ensures Seconds(elapsed) * cfg.DecayPerSec() >= cfg.capacity as real
  {
    var whole := Seconds(cfg.debtDecayInterval);
    assert whole * cfg.DecayPerSec() == cfg.capacity as real;
    DecaySplits(whole, Seconds(elapsed) - whole, cfg.DecayPerSec());
  }

  lemma FadesOut(d: Decay, since: Time, t: Time, u: Time)
    requires d.InRange() && d.last <= t && since <= t <= u && d.Value(t) <= Full(d, since).Value(t)
    requires Seconds(u - since) * d.perSec >= d.max
    ensures d.Value(u) == 0.0
  {
    OrderSurvivesDecay(d, Full(d, since), t, u);
    ValueFalls(Full(d, since), since, u);
    ValueFalls(d, t, u);
  }

  lemma NothingLeft(d: Decay, cfg: Config, since: Time, t: Time, u: Time)
    requires cfg.Ok() && d.InRange() && d.perSec == cfg.DecayPerSec() && d.last <= t && since <= t <= u
    requires d.max == cfg.capacity as real && d.Value(t) <= Full(d, since).Value(t)
    requires u - since >= cfg.debtDecayInterval
    ensures d.Value(u) == 0.0
  {
    FullDecay(cfg, u - since);
    FadesOut(d, since, t, u);
  }

  lemma RestedDebt(s: Sys, u: Time, i: nat)
    requires Inv(s) && i < |s.debt|
    requires s.clock <= u && u - s.lastPenalty >= s.cfg.debtDecayInterval
    ensures s.debt[i].Value(u) == 0.0
  {
    NothingLeft(s.debt[i], s.cfg, s.lastPenalty, s.clock, u);
  }

  // Whatever reads and successes occur, debtDecayInterval without a penalty leaves no debt at all.
  lemma DebtIsForgotten(s: Sys, es: seq<Event>, t: Sys, u: Time, i: nat)
    requires Reachable(s) && IsRun(s, es, t) && NoPenalty(s, es)
    requires t.clock <= u && u - s.clock >= s.cfg.debtDecayInterval && i < |t.debt|
    ensures t.debt[i].Value(u) == 0.0
  {
    ReachableInv(s);
    RunKeepsInv(s, es, t);
    PenaltyStays(s, es, t);
    RestedDebt(t, u, i);
  }

  // ---- admit terminates ----

  function TotalItems(queues: seq<Queue>): (n: nat) {
    if queues == [] then 0 else TotalItems(queues[..|queues| - 1]) + |queues[|queues| - 1].items|
  }

  lemma {:induction false} TotalUpdate(queues: seq<Queue>, i: nat, q: Queue)
    requires i < |queues|
    ensures TotalItems(queues[i := q]) == TotalItems(queues) - |queues[i].items| + |q.items|
    ensures |queues[i].items| <= TotalItems(queues)
  {
    var n := |queues| - 1;
    if i == n {
      assert queues[i := q][..n] == queues[..n];
    } else {
      TotalUpdate(queues[..n], i, q);
      assert queues[i := q][..n] == queues[..n][i := q];
    }
  }

  // An upper bound on the actions the lock holder still has to take before it unlocks.
  function Work(s: Sys): (n: int) {
    WorkAt(s.pc, |s.queues|, TotalItems(s.queues))
  }

  function WorkAt(pc: Pc, size: nat, items: nat): (n: int) {
    match pc
    case Reaping(i) => 2 * size - i + 2 + 3 * items
    case Serving(i) => size - i + 1 + 3 * items
    case Popping(i, _) => size - i + 3 * items
    case Sending(i, _, _) => size - i + 2 + 3 * items
    case _ => 0
  }

  lemma ReapWorks(s: Sys, i: nat)
    requires i <= |s.queues| && s.pc == Reaping(i)
    ensures 0 <= Work(ReapStep(s, i)) < Work(s)
  {
    if i < |s.queues| {
      TotalUpdate(s.queues, i, s.queues[i].Reap(s.clock));
    }
  }

  lemma ServeWorks(s: Sys, i: nat)
    requires i <= |s.queues| == |s.debt| && s.pc == Serving(i)
    ensures 0 <= Work(ServeStep(s, i)) < Work(s)
  {
    if i < |s.queues| {
      TotalUpdate(s.queues, i, s.queues[i]);
    }
  }

  lemma PopWorks(s: Sys, i: nat, charge: int)
    requires i < |s.queues| && s.pc == Popping(i, charge)
    requires s.queues[i].items != [] && s.queues[i].Next().id < |s.calls|
    ensures 0 <= Work(PopStep(s, i, charge)) < Work(s)
  {
    TotalUpdate(s.queues, i, s.queues[i].Pop(s.clock));
  }

  lemma LockWorks(s: Sys)
    requires Enabled(s, Lock)
    ensures 0 <= Work(LockStep(s)) < Work(s)
  {
    match s.pc {
      case Reaping(i) => ReapWorks(s, i);
      case Serving(i) => ServeWorks(s, i);
      case Popping(i, charge) => PopWorks(s, i, charge);
      case Sending(_, _, _) =>
    }
  }

  lemma WorkIsBounded(s: Sys)
    requires Reachable(s)
    ensures Work(s) <= 2 * |s.queues| + 3 * TotalItems(s.queues) + 2
  {
    LockReady(s);
  }

  lemma InsideStep(s: Sys, e: Event)
    requires Reachable(s) && Enabled(s, e) && (e == Lock || e.Expire? || e.Receive?)
    ensures Reachable(Apply(s, e)) && Work(Apply(s, e)) <= Work(s) - (if e == Lock then 1 else 0)
  {
    ReachableStep(s, e);
    if e == Lock {
      LockWorks(s);
    }
  }

  lemma HolderMayGoOn(s: Sys)
    requires Reachable(s)
    ensures s.pc == Free || (Enabled(s, Lock) && Work(s) > 0)
    ensures Work(s) >= 0
  {
    LockReady(s);
    if s.pc != Free {
      LockWorks(s);
    }
  }

  function Locks(es: seq<Event>): (n: nat) {
    if es == [] then 0 else (if es[0] == Lock then 1 else 0) + Locks(es[1..])
  }

  // Whatever the waiters do meanwhile, the lock holder is never stuck and unlocks within Work(s)
  // actions of its own.
  lemma {:induction false} AdmitTerminates(s: Sys, es: seq<Event>, t: Sys)
    requires Reachable(s) && IsRun(s, es, t) && Inside(es)
    ensures 0 <= Work(t) <= Work(s) - Locks(es)
    ensures Work(s) <= 2 * |s.queues| + 3 * TotalItems(s.queues) + 2
    ensures t.pc == Free || Enabled(t, Lock)
    ensures Locks(es) == Work(s) ==> t.pc == Free
    decreases |es|
  {
    RunHead(s, es, t);
    if es != [] {
      InsideStep(s, es[0]);
      AdmitTerminates(Apply(s, es[0]), es[1..], t);
    }
    HolderMayGoOn(s);
    WorkIsBounded(s);
  }

  // Left to itself the lock holder does unlock.
  lemma {:induction false} HolderUnlocks(s: Sys) returns (es: seq<Event>, t: Sys)
    requires Reachable(s)
    ensures IsRun(s, es, t) && t.pc == Free && forall j :: 0 <= j < |es| ==> es[j] == Lock
    decreases Work(s)
  {
    LockReady(s);
    if s.pc == Free {
      NoRun(s);
      es, t := [], s;
    } else {
      LockWorks(s);
      ReachableStep(s, Lock);
      es, t := HolderUnlocks(LockStep(s));
      RunFrom(s, Lock, es, t);
      es := [Lock] + es;
    }
  }
}

/** What the invariant means for every reachable state and every run of the semaphore. */
module Theorems {
  import opened Wrappers
  import opened Clocks
  import opened Decays
  import opened Queues
  import opened Admission
  import opened Debts
  import opened Invariants
  import opened Fairness
  import opened Preservation

  // ---- Outcomes and wake-ups ----

  // Under every interleaving: Acquire answers nil exactly for the calls that were admitted, an
  // admitted call never hears anything else, and nothing is sent twice.
  lemma ExactlyOneOutcome(s: Sys, k: nat)
    requires Reachable(s) && k < |s.calls|
    ensures var c := s.calls[k];
            && (c.outcome != Pending ==> (c.outcome == Granted <==> c.state == Admitted))
            && (c.outcome == Cancelled <==> c.state == Expired)
            && (c.outcome == Rejected ==> c.placed && c.state == Waiting && c.sends == 1)
            && c.sends <= 1
  {
    ReachableInv(s);
    assert CallOk(s.calls[k], s.pc.Sending? && s.pc.ticket == k);
  }

  lemma AnswerLock(s: Sys, k: nat)
    requires Enabled(s, Lock) && k < |s.calls|
    ensures k < |LockStep(s).calls| && LockStep(s).calls[k].outcome == s.calls[k].outcome
  {
    match s.pc
    case Reaping(_) =>
    case Serving(_) =>
    case Popping(_, _) =>
    case Sending(_, _, _) =>
  }

  lemma AnswerStep(s: Sys, e: Event, k: nat)
    requires Enabled(s, e) && k < |s.calls| && s.calls[k].outcome != Pending
    ensures k < |Apply(s, e).calls| && Apply(s, e).calls[k].outcome == s.calls[k].outcome
  {
    if e == Lock {
      AnswerLock(s, k);
    }
  }

  // An answer once given stays the answer.
  lemma {:induction false} AnswerIsFinal(s: Sys, es: seq<Event>, t: Sys, k: nat)
    requires IsRun(s, es, t) && k < |s.calls| && s.calls[k].outcome != Pending
    ensures k < |t.calls| && t.calls[k].outcome == s.calls[k].outcome
    decreases |es|
  {
    RunHead(s, es, t);
    if es != [] {
      AnswerStep(s, es[0], k);
      AnswerIsFinal(Apply(s, es[0]), es[1..], t, k);
    }
  }

  // Whenever the lock holder is about to send on a waiter's channel, the one slot is free.
  lemma HolderNeverBlocks(s: Sys)
    requires Reachable(s)
    ensures s.pc.Sending? ==> s.pc.ticket < |s.calls| && s.calls[s.pc.ticket].chan == []
    ensures s.pc.Reaping? && s.pc.i < |s.queues| ==>
              forall j :: 0 <= j < |s.queues[s.pc.i].Shed(s.clock)| ==>
                var k := s.queues[s.pc.i].Shed(s.clock)[j].id;
                k < |s.calls| && s.calls[k].chan == []
  {
    ReachableInv(s);
    if s.pc.Sending? {
      assert CallOk(s.calls[s.pc.ticket], true);
    }
    if s.pc.Reaping? && s.pc.i < |s.queues| {
      var q := s.queues[s.pc.i];
      forall j | 0 <= j < |q.Shed(s.clock)|
        ensures var k := q.Shed(s.clock)[j].id; k < |s.calls| && s.calls[k].chan == []
      {
        assert Linked(q.items[j], s.pc.i, s.calls);
        assert CallOk(s.calls[q.items[j].id], false);
      }
    }
  }

  // No wake-up is lost: between critical sections a caller that still waits either has its signal in
  // its channel, and the signal is true exactly if it was admitted, or was never admitted or dropped.
  // In the latter case it stands in the queue of its priority exactly if its push found room.
  lemma NoLostWakeUp(s: Sys, k: nat)
    requires Reachable(s) && s.pc == Free && k < |s.calls| && s.calls[k].outcome == Pending
    ensures var c := s.calls[k];
            && c.prio < |s.queues|
            && (c.sends == 1 ==> c.chan == [c.state == Admitted])
            && (c.sends == 0 ==> c.state == Waiting)
            && (c.sends == 0 ==> (HasTicket(s.queues[c.prio].items, k) <==> c.placed))
  {
    ReachableInv(s);
    var c := s.calls[k];
    assert CallOk(c, false);
    assert AtHome(s.queues, k, c);
    if HasTicket(s.queues[c.prio].items, k) {
      var j :| 0 <= j < |s.queues[c.prio].items| && s.queues[c.prio].items[j].id == k;
      assert Linked(s.queues[c.prio].items[j], c.prio, s.calls);
    }
  }

  // When admit pops a waiter, that waiter has not been signalled, and the pop fails to admit it
  // exactly if its own context has already ended its call. It was not rejected by a reap, which is
  // what the comment in pop says: a reaped waiter is in no queue.
  lemma PopFailsIffExpired(s: Sys)
    requires Reachable(s) && s.pc.Popping?
    ensures Enabled(s, Lock) && s.queues[s.pc.i].Next().id < |s.calls|
    ensures var k := s.queues[s.pc.i].Next().id;
            var c := s.calls[k];
            && c.sends == 0 && c.outcome != Rejected
            && (LockStep(s).pc == Serving(s.pc.i) <==> c.outcome == Cancelled)
            && (c.outcome == Cancelled <==> c.state == Expired)
            && (c.outcome == Cancelled ==> LockStep(s).calls == s.calls && LockStep(s).outstanding == s.outstanding)
            && (c.outcome != Cancelled ==> c.outcome == Pending && LockStep(s).pc == Sending(s.pc.i, k, s.pc.charge))
  {
    ReachableInv(s);
    NextLinked(s.queues, s.pc.i, s.calls);
    assert CallOk(s.calls[s.queues[s.pc.i].Next().id], false);
  }

  // A ticket is never in two places of the queues.
  lemma QueuedOnce(s: Sys, p: nat, i: nat, q: nat, j: nat)
    requires Reachable(s) && p < |s.queues| && q < |s.queues|
    requires i < |s.queues[p].items| && j < |s.queues[q].items|
    requires s.queues[p].items[i].id == s.queues[q].items[j].id
    ensures p == q && i == j
  {
    ReachableInv(s);
    assert Linked(s.queues[p].items[i], p, s.calls) && Linked(s.queues[q].items[j], q, s.calls);
    assert QueueOk(s.queues[p], s.clock);
  }

  predicate Stranded(c: Call) {
    !c.placed && !c.fast && c.state != Admitted && c.sends == 0 && (c.outcome == Pending || c.outcome == Cancelled)
  }

  lemma StrandedReap(s: Sys, k: nat)
    requires Inv(s) && s.pc.Reaping? && k < |s.calls| && Stranded(s.calls[k])
    ensures ReapStep(s, s.pc.i).calls[k] == s.calls[k]
  {
    if s.pc.i < |s.queues| {
      var q := s.queues[s.pc.i];
      forall j | 0 <= j < |q.Shed(s.clock)|
        ensures q.Shed(s.clock)[j].id != k
      {
        assert Linked(q.items[j], s.pc.i, s.calls);
      }
    }
  }

  lemma StrandedPop(s: Sys, k: nat)
    requires Inv(s) && s.pc.Popping? && k < |s.calls| && Stranded(s.calls[k])
    ensures LockStep(s).calls[k] == s.calls[k]
  {
    NextLinked(s.queues, s.pc.i, s.calls);
  }

  lemma StrandedSend(s: Sys, k: nat)
    requires Inv(s) && s.pc.Sending? && k < |s.calls| && Stranded(s.calls[k])
    ensures LockStep(s).calls[k] == s.calls[k]
  {
    assert CallOk(s.calls[s.pc.ticket], true);
  }

  lemma StrandedLock(s: Sys, k: nat)
    requires Inv(s) && Enabled(s, Lock) && k < |s.calls| && Stranded(s.calls[k])
    ensures |LockStep(s).calls| == |s.calls| && LockStep(s).calls[k] == s.calls[k]
  {
    match s.pc
    case Reaping(_) => StrandedReap(s, k);
    case Serving(_) =>
    case Popping(_, _) => StrandedPop(s, k);
    case Sending(_, _, _) => StrandedSend(s, k);
  }

  lemma StrandedReceive(s: Sys, k: nat, h: nat)
    requires Inv(s) && Enabled(s, Receive(h)) && k < |s.calls| && Stranded(s.calls[k])
    ensures h != k
  {
    assert CallOk(s.calls[h], s.pc.Sending? && s.pc.ticket == h);
  }

  lemma EarlierCallsStay(s: Sys, demand: int, prio: int, now: Time, k: nat)
    requires Enabled(s, Acquire(demand, prio, now)) && k < |s.calls|
    ensures var r := Apply(s, Acquire(demand, prio, now)); k < |r.calls| && r.calls[k] == s.calls[k]
  {
  }

  lemma StrandedStep(s: Sys, e: Event, k: nat)
    requires Inv(s) && Enabled(s, e) && k < |s.calls| && Stranded(s.calls[k])
    ensures var r := Apply(s, e); k < |r.calls| && Stranded(r.calls[k])
  {
    match e
    case Lock => StrandedLock(s, k);
    case Receive(h) => StrandedReceive(s, k, h);
    case Acquire(demand, prio, now) => EarlierCallsStay(s, demand, prio, now, k);
    case _ =>
  }

  // A push that finds the deque full is not reported to anyone. Such a call is never admitted,
  // dropped or signalled in any continuation: only its own context can end it.
  lemma {:induction false} StrandedForever(s: Sys, es: seq<Event>, t: Sys, k: nat)
    requires Reachable(s) && IsRun(s, es, t) && k < |s.calls| && Stranded(s.calls[k])
    ensures k < |t.calls| && Stranded(t.calls[k])
    decreases |es|
  {
    RunHead(s, es, t);
    if es != [] {
      ReachableInv(s);
      StrandedStep(s, es[0], k);
      ReachableStep(s, es[0]);
      StrandedForever(Apply(s, es[0]), es[1..], t, k);
    }
  }

  // The lock holder's own actions leave a stranded call's answer alone.
  lemma {:induction false} StillPending(s: Sys, es: seq<Event>, t: Sys, k: nat)
    requires Reachable(s) && IsRun(s, es, t) && k < |s.calls| && Stranded(s.calls[k])
    requires forall j :: 0 <= j < |es| ==> es[j] == Lock
    ensures |t.calls| == |s.calls| && t.calls[k] == s.calls[k]
    decreases |es|
  {
    RunHead(s, es, t);
    if es != [] {
      ReachableInv(s);
      StrandedLock(s, k);
      ReachableStep(s, Lock);
      StillPending(LockStep(s), es[1..], t, k);
    }
  }

  // A caller that has to wait gets a place exactly when the deque has room for it, and is stranded
  // otherwise.
  lemma PlacedIffRoom(s: Sys, demand: int, prio: int, now: Time)
    requires Reachable(s) && Enabled(s, Acquire(demand, prio, now))
    requires Refuses(s, demand, prio) == None && !AdmitsAtOnce(s, demand, prio, now)
    ensures var r := Apply(s, Acquire(demand, prio, now));
            var k := |s.calls|;
            && |r.calls| == k + 1
            && (HasTicket(r.queues[prio].items, k) <==> |s.queues[prio].items| < s.queues[prio].room)
            && (Stranded(r.calls[k]) <==> |s.queues[prio].items| == s.queues[prio].room)
  {
    ReachableInv(s);
    var q := s.queues[prio];
    var r := AcquireSlow(s, demand, prio, now);
    assert forall j :: 0 <= j < |q.items| ==> Linked(q.items[j], prio, s.calls);
    if !q.Full() {
      assert r.queues[prio].items[|q.items|].id == |s.calls|;
    }
  }

  // ---- Tokens ----

  // The tokens of a caller that has been told nil, or is about to be, and has not released them.
  function Held(c: Call): (n: int) {
    if !c.released && (c.outcome == Granted || c.chan == [true]) then c.demand else 0
  }

  function AllHeld(calls: seq<Call>): (sum: int) {
    if calls == [] then 0 else AllHeld(calls[..|calls| - 1]) + Held(calls[|calls| - 1])
  }

  lemma {:induction false} HeldIsLive(calls: seq<Call>)
    requires CallsOk(calls, Free)
    ensures AllHeld(calls) == Live(calls)
  {
    if calls != [] {
      var before := calls[..|calls| - 1];
      assert forall k :: 0 <= k < |before| ==> before[k] == calls[k];
      HeldIsLive(before);
      assert CallOk(calls[|calls| - 1], false);
    }
  }

  // In every run outstanding is, between critical sections, the sum of the demands of the grants not
  // yet released, less the stray tokens that were returned. While callers are fair there are none of
  // these, and outstanding stays within the capacity at every point.
  lemma TokensConserved(s: Sys)
    requires Reachable(s)
    ensures s.pc == Free ==> s.outstanding == AllHeld(s.calls) - s.faults.stray
    ensures s.Fair() ==> s.faults.stray == 0 && 0 <= s.outstanding <= s.cfg.capacity
  {
    ReachableInv(s);
    if s.pc == Free {
      HeldIsLive(s.calls);
    }
    if s.pc.Sending? && s.Fair() {
      assert s.calls[s.pc.ticket].demand >= 0;
    }
  }

  // The event ends in the panic about unbalanced tokens.
  predicate Panics(s: Sys, e: Event)
    requires Shape(s) && Enabled(s, e)
  {
    match e
    case Acquire(demand, prio, now) =>
      Refuses(s, demand, prio) == None && AdmitsAtOnce(s, demand, prio, now) && s.outstanding + demand > s.cfg.capacity
    case Release(k, _) => s.outstanding < s.calls[k].demand
    case Stray(tokens, _) => s.outstanding < tokens
    case _ => false
  }

  // Acquire's panic is out of reach of every caller, fair or not. Release panics exactly when
  // more stray tokens were returned than the other grants hold, so never while callers are fair, and
  // a stray return exactly when it is of more than the grants still hold.
  lemma PanicsIff(s: Sys, e: Event)
    requires Reachable(s) && Enabled(s, e)
    ensures e.Acquire? ==> !Panics(s, e)
    ensures e.Release? ==> (Panics(s, e) <==> s.faults.stray > AllHeld(s.calls) - s.calls[e.ticket].demand)
    ensures e.Stray? ==> (Panics(s, e) <==> e.tokens > AllHeld(s.calls) - s.faults.stray)
    ensures s.Fair() && !e.Stray? ==> !Panics(s, e)
  {
    ReachableInv(s);
    TokensConserved(s);
    if e.Acquire? && Refuses(s, e.demand, e.prio) == None && AdmitsAtOnce(s, e.demand, e.prio, e.now) {
      FitsTakes(s, e.demand, e.prio, e.now);
    } else if e.Release? && s.Fair() {
      HeldIsOutstanding(s, e.ticket);
    }
  }

  predicate InRange(s: Sys) {
    0 <= s.outstanding <= s.cfg.capacity
  }

  // What an event must not ask for. A grant, on arrival or by the charge that follows a pop, must not
  // be of fewer tokens than minus what is outstanding: its other side is guarded by canAdmit. A return
  // is guarded on neither side, whether it is of a grant or stray.
  predicate Keeps(s: Sys, e: Event)
    requires Enabled(s, e)
  {
    match e
    case Acquire(demand, prio, now) =>
      Refuses(s, demand, prio) == None && AdmitsAtOnce(s, demand, prio, now) ==> demand >= -s.outstanding
    case Release(k, _) => s.outstanding - s.cfg.capacity <= s.calls[k].demand <= s.outstanding
    case Stray(tokens, _) => s.outstanding - s.cfg.capacity <= tokens <= s.outstanding
    case Lock => s.pc.Sending? ==> s.pc.charge >= -s.outstanding
    case _ => true
  }

  // Event by event, that is exactly what keeps outstanding in range, whatever callers did before.
  lemma StaysInRangeIff(s: Sys, e: Event)
    requires Reachable(s) && Enabled(s, e) && InRange(s)
    ensures InRange(Apply(s, e)) <==> Keeps(s, e)
  {
    match e
    case Acquire(demand, prio, now) =>
      if Refuses(s, demand, prio) == None && AdmitsAtOnce(s, demand, prio, now) {
        FitsTakes(s, demand, prio, now);
      }
    case Lock => ChargeFits(s);
    case _ =>
  }

  // The charge was tested before the pop, and nobody else takes tokens in between.
  lemma ChargeFits(s: Sys)
    requires Reachable(s) && Enabled(s, Lock)
    ensures LockStep(s).cfg == s.cfg
    ensures s.pc.Sending? ==> LockStep(s).outstanding == s.outstanding + s.pc.charge <= s.cfg.capacity
    ensures !s.pc.Sending? ==> LockStep(s).outstanding == s.outstanding
  {
    ReachableInv(s);
  }

  // For a caller that has only its own demand to go by: whatever fair callers did before, a grant of
  // it on arrival leaves outstanding in range exactly if the demand is not negative.
  lemma SafeDemandIff(start: Sys, demand: int)
    requires Init(start) && start.cfg.capacity > 0 && start.queues != []
    ensures (forall es, s, prio, now ::
               IsRun(start, es, s) && s.Fair() && Enabled(s, Acquire(demand, prio, now))
               && Refuses(s, demand, prio) == None && AdmitsAtOnce(s, demand, prio, now)
               ==> InRange(Apply(s, Acquire(demand, prio, now))))
            <==> demand >= 0
  {
    if demand >= 0 {
      forall es, s, prio, now |
        IsRun(start, es, s) && s.Fair() && Enabled(s, Acquire(demand, prio, now))
        && Refuses(s, demand, prio) == None && AdmitsAtOnce(s, demand, prio, now)
        ensures InRange(Apply(s, Acquire(demand, prio, now)))
      {
        TokensConserved(s);
        StaysInRangeIff(s, Acquire(demand, prio, now));
      }
    } else {
      NoRun(start);
      NothingDecays(start.debt[0], start.clock);
      var e := Acquire(demand, 0, start.clock);
      assert Enabled(start, e) && AdmitsAtOnce(start, demand, 0, start.clock);
      assert !InRange(Apply(start, e));
    }
  }

  // ---- The top priority ----

  // No slot idles while the top priority waits: its next waiter asks for more than is free, so
  // with unit demands nothing is free. Only a Release that panics can break this, and does, until
  // admit runs again: it frees tokens and runs no admit.
  lemma NoIdleSlot(s: Sys)
    requires Reachable(s) && s.pc == Free && s.queues != [] && s.queues[0].items != []
    ensures s.cfg.capacity - s.outstanding < s.queues[0].Next().demand <==> !s.faults.panicked
    ensures s.Fair() ==> !s.faults.panicked
    ensures s.Fair() && s.queues[0].Next().demand == 1 ==> s.outstanding == s.cfg.capacity
  {
    ReachableInv(s);
    NextLinked(s.queues, 0, s.calls);
  }

  // ---- Arming the reaper ----

  // A year, in nanoseconds, stands for never.
  lemma ReaperArmedExactly(s: Sys)
    requires Reachable(s) && s.pc == Free
    ensures s.hasWaiters <==> SomeWaiter(s.queues)
    ensures !s.closed ==>
              s.ticker == Some(if SomeWaiter(s.queues) then s.cfg.longTimeout else 31_536_000_000_000_000)
  {
    ReachableInv(s);
  }

  // ---- Strict priority ----

  predicate Grants(n: Note) {
    n.Departure? && !n.reason.Shed?
  }

  // admit grants by a pop alone.
  lemma LockGrants(s: Sys, j: nat)
    requires Enabled(s, Lock) && |s.log| <= j < |LockStep(s).log| && Grants(LockStep(s).log[j])
    ensures s.pc.Popping? && LockStep(s).log[j] == Departure(s.queues[s.pc.i].Next().id, s.pc.i, s.clock, Served)
  {
    match s.pc
    case Reaping(_) =>
    case Serving(_) =>
    case Popping(_, _) =>
    case Sending(_, _, _) =>
  }

  lemma ServingFacts(s: Sys)
    requires Reachable(s)
    ensures s.pc.Serving? || s.pc.Popping? ==> NoneAbove(s.queues, s.pc.i)
    ensures s.pc.Popping? ==> s.pc.i < |s.queues| && s.queues[s.pc.i].items != []
                              && HasTicket(s.queues[s.pc.i].items, s.queues[s.pc.i].Next().id)
  {
    ReachableInv(s);
    if s.pc.Popping? {
      var q := s.queues[s.pc.i];
      assert q.Next() == q.items[if q.mode == FIFO then 0 else |q.items| - 1];
    }
  }

  // Whoever is taken up next, on arrival or by admit, leaves nobody waiting at a higher priority,
  // and an arrival is not taken up past a waiter of its own priority either.
  lemma NoneOvertaken(s: Sys, e: Event, j: nat)
    requires Reachable(s) && Enabled(s, e)
    requires |s.log| <= j < |Apply(s, e).log| && Grants(Apply(s, e).log[j])
    ensures var n := Apply(s, e).log[j];
            && NoneAbove(s.queues, n.prio)
            && (n.reason == Immediate ==> NoneAbove(s.queues, n.prio + 1))
            && (n.reason == Served ==> n.prio < |s.queues| && HasTicket(s.queues[n.prio].items, n.ticket))
  {
    if e == Lock {
      ServingFacts(s);
      LockGrants(s, j);
    }
  }

  // admit leaves no work undone: when it returns, either every queue is empty or the next waiter of
  // the first non-empty queue does not fit beside what is taken and what is owed.
  lemma AdmitIsMaximal(s: Sys)
    requires Reachable(s) && Enabled(s, Lock) && LockStep(s).pc == Free
    ensures var r := LockStep(s);
            || !SomeWaiter(r.queues)
            || exists i :: 0 <= i < |r.queues| && NoneAbove(r.queues, i) && r.queues[i].items != []
                 && r.outstanding as real + r.debt[i].Value(r.clock) + r.queues[i].Next().demand as real
                    > r.cfg.capacity as real
  {
    ServingFacts(s);
    var i := s.pc.i;
    if i < |s.queues| {
      ReadAtOnce(s.debt[i], s.clock);
    }
  }

  // ---- Debt ----

  lemma ReachableDebt(s: Sys)
    requires Reachable(s)
    ensures s.cfg.Ok() && DebtIn(s.debt, s.cfg, s.clock)
    ensures s.lastPenalty <= s.clock && DebtForgotten(s.debt, s.lastPenalty, s.clock)
    ensures !s.faults.negative ==> Sorted(s.debt, s.clock)
  {
    ReachableInv(s);
  }

  // Whatever callers do, from now on the debts stay within the capacity, and the top one is none.
  lemma DebtsWithinCapacity(s: Sys, t: Time, i: nat)
    requires Reachable(s) && s.clock <= t && i < |s.debt|
    ensures 0.0 <= s.debt[i].Value(t) <= s.cfg.capacity as real
    ensures i == 0 ==> s.debt[i].Value(t) == 0.0
  {
    ReachableDebt(s);
    ValueFalls(s.debt[i], s.clock, t);
    if i == 0 {
      NothingDecays(s.debt[0], t);
    }
  }

  // As long as no demand was negative they rise with the priority index, now and later.
  lemma DebtsInOrder(s: Sys, t: Time, i: nat, j: nat)
    requires Reachable(s) && !s.faults.negative && s.clock <= t && i <= j < |s.debt|
    ensures 0.0 <= s.debt[i].Value(t) <= s.debt[j].Value(t) <= s.cfg.capacity as real
    ensures i == 0 ==> s.debt[i].Value(t) == 0.0
  {
    DebtsWithinCapacity(s, t, i);
    DebtsWithinCapacity(s, t, j);
    if i < j {
      ReachableDebt(s);
      OrderSurvivesDecay(s.debt[i], s.debt[j], s.clock, t);
    }
  }

  // Event by event, from debts in order: exactly the failures with a negative demand that lower the
  // debts below prio past that of prio itself upset the order. No success does, whatever its demand.
  lemma DebtsStayInOrderIff(s: Sys, e: Event)
    requires Reachable(s) && Enabled(s, e) && Sorted(s.debt, s.clock)
    ensures Sorted(Apply(s, e).debt, Apply(s, e).clock) <==> KeepsOrder(s, e)
  {
    ReachableInv(s);
    OrderKeptIff(s, e);
  }

  // What a success makes of the values of the debts.
  lemma FastIs(s: Sys, demand: int, prio: nat, now: Time, forgiven: real)
    requires Inv(s) && s.pc == Free && s.clock <= now
    requires Refuses(s, demand, prio) == None && AdmitsAtOnce(s, demand, prio, now)
    ensures var r := AcquireFast(s, demand, prio, now, forgiven);
            && r.cfg == s.cfg && r.outstanding == s.outstanding + demand
            && DebtIn(s.debt, s.cfg, now) && DebtIn(r.debt, s.cfg, now)
            && Forgives(s.debt, r.debt, prio + 1, now, forgiven, s.cfg.capacity as real)
    ensures Sorted(s.debt, s.clock) ==> Sorted(s.debt, now)
  {
    FitsTakes(s, demand, prio, now);
    TestKeepsDebt(s, prio, now);
    ForgiveIs(TestedDebt(s, prio, now), s.cfg, now, prio + 1, forgiven);
  }

  // A success raises nobody's debt, now or later: the floor has nothing to lift.
  lemma SuccessRaisesNoDebt(s: Sys, demand: nat, prio: int, now: Time, t: Time, i: nat)
    requires Reachable(s) && !s.faults.negative && Enabled(s, Acquire(demand, prio, now))
    requires Refuses(s, demand, prio) == None && AdmitsAtOnce(s, demand, prio, now)
    requires now <= t && i < |s.debt|
    ensures var r := Apply(s, Acquire(demand, prio, now));
            |r.debt| == |s.debt| && r.debt[i].Value(t) <= s.debt[i].Value(t)
  {
    ReachableInv(s);
    var forgiven := s.cfg.Forgiven(demand);
    var r := AcquireFast(s, demand, prio, now, forgiven);
    FastIs(s, demand, prio, now, forgiven);
    ForgiveLowers(s.debt, r.debt, prio + 1, now, forgiven, s.cfg.capacity as real, i);
    OrderSurvivesDecay(r.debt[i], s.debt[i], now, t);
  }

  // From debts in order, that is so exactly if nothing is charged instead of forgiven, or nothing is
  // left to charge: a negative demand is charged to every lower priority that does not owe everything.
  lemma SuccessRaisesNoDebtIff(s: Sys, demand: int, prio: int, now: Time)
    requires Reachable(s) && Sorted(s.debt, s.clock) && Enabled(s, Acquire(demand, prio, now))
    requires Refuses(s, demand, prio) == None && AdmitsAtOnce(s, demand, prio, now)
    ensures var r := Apply(s, Acquire(demand, prio, now));
            && |r.debt| == |s.debt|
            && ((forall i :: 0 <= i < |s.debt| ==> r.debt[i].Value(now) <= s.debt[i].Value(now))
                <==> (s.cfg.Forgiven(demand) >= 0.0
                      || forall j :: prio < j < |s.debt| ==> s.debt[j].Value(now) == s.cfg.capacity as real))
  {
    ReachableInv(s);
    FastIs(s, demand, prio, now, s.cfg.Forgiven(demand));
    var r := AcquireFast(s, demand, prio, now, s.cfg.Forgiven(demand));
    RaisesNoneIff(s.debt, r.debt, s.cfg, prio, now, s.cfg.Forgiven(demand));
  }

  lemma ForgivenAtMost(cfg: Config, demand: nat)
    requires cfg.Ok()
    ensures 0.0 <= cfg.Forgiven(demand) <= demand as real
  {
  }

  lemma FitBefore(capacity: nat, outstanding: int, demand: nat, before: real, after: real, wanted: int)
    requires after >= before - demand as real && Fits(capacity, outstanding + demand, after, wanted)
    ensures Fits(capacity, outstanding, before, wanted)
  {
  }

  lemma FitsOnlyAfter(capacity: nat, outstanding: int, demand: int, debt: real) returns (wanted: int)
    requires demand < 0
    ensures !Fits(capacity, outstanding, debt, wanted) && Fits(capacity, outstanding + demand, debt, wanted)
  {
    wanted := (capacity as real - outstanding as real - debt).Floor + 1;
  }

  // Nor does a success call for an admit, which Acquire does not run then: as long as its demand is
  // not negative, and only then, it forgives no more than it takes, so that whoever did not fit
  // before it does not fit after it.
  lemma SuccessAdmitsNobodyIff(s: Sys, demand: int, prio: int, now: Time)
    requires Reachable(s) && Enabled(s, Acquire(demand, prio, now))
    requires Refuses(s, demand, prio) == None && AdmitsAtOnce(s, demand, prio, now)
    ensures var r := Apply(s, Acquire(demand, prio, now));
            && |r.debt| == |s.debt|
            && ((forall i, wanted: int ::
                   0 <= i < |s.debt| && Fits(r.cfg.capacity, r.outstanding, r.debt[i].Value(now), wanted)
                   ==> Fits(s.cfg.capacity, s.outstanding, s.debt[i].Value(now), wanted))
                <==> demand >= 0)
  {
    ReachableInv(s);
    var forgiven := s.cfg.Forgiven(demand);
    FastIs(s, demand, prio, now, forgiven);
    var r := AcquireFast(s, demand, prio, now, forgiven);
    if demand >= 0 {
      ForgivenAtMost(s.cfg, demand);
      forall i, wanted: int |
        0 <= i < |s.debt| && Fits(r.cfg.capacity, r.outstanding, r.debt[i].Value(now), wanted)
        ensures Fits(s.cfg.capacity, s.outstanding, s.debt[i].Value(now), wanted)
      {
        ForgivesAtMost(s.debt, r.debt, s.cfg, prio + 1, now, forgiven, i);
        FitBefore(s.cfg.capacity, s.outstanding, demand, s.debt[i].Value(now), r.debt[i].Value(now), wanted);
      }
    } else {
      var wanted := FitsOnlyAfter(s.cfg.capacity, s.outstanding, demand, s.debt[prio].Value(now));
      assert Fits(r.cfg.capacity, r.outstanding, r.debt[prio].Value(now), wanted);
    }
  }
}

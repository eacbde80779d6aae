/** What each event does, told on the fields, times and amounts alone. */
module Effects {
  import opened Wrappers
  import opened Clocks
  import opened Decays
  import opened Queues
  import opened Admission
  import opened Debts
  import opened Invariants
  import opened Fairness
  import opened Preservation
  import opened Theorems

  // ---- Acquire ----

  // Each refusal has its reason, and a request is taken exactly if none applies. A refused one
  // changes nothing.
  lemma RefusedIff(s: Sys, demand: int, prio: int, now: Time)
    requires Enabled(s, Acquire(demand, prio, now))
    ensures Refuses(s, demand, prio) == Some(AlreadyClosed) <==> s.closed
    ensures Refuses(s, demand, prio) == Some(NoCapacity) <==> !s.closed && s.cfg.capacity == 0
    ensures Refuses(s, demand, prio) == Some(InvalidPriority)
            <==> !s.closed && s.cfg.capacity > 0 && !(0 <= prio < |s.queues|)
    ensures Refuses(s, demand, prio) == Some(DemandTooLarge)
            <==> !s.closed && 0 <= prio < |s.queues| && demand > s.cfg.capacity > 0
    ensures Refuses(s, demand, prio).Some? ==> Apply(s, Acquire(demand, prio, now)) == s
  {
  }

  // The caller may be taken.
  predicate Taken(s: Sys, demand: int, prio: int) {
    !s.closed && s.cfg.capacity > 0 && 0 <= prio < |s.queues| && demand <= s.cfg.capacity
  }

  // A request that is taken is granted on arrival exactly if nobody waits at its priority or above it
  // and it fits beside what is taken and what its priority owes. Otherwise its caller waits.
  lemma GrantedOnArrivalIff(s: Sys, demand: int, prio: int, now: Time)
    requires Reachable(s) && Enabled(s, Acquire(demand, prio, now)) && Taken(s, demand, prio)
    ensures var k := |s.calls|;
            var r := Apply(s, Acquire(demand, prio, now));
            && |r.calls| == k + 1 && r.calls[..k] == s.calls
            && r.calls[k].demand == demand && r.calls[k].prio == prio && r.calls[k].since == now
            && (r.calls[k].fast
                <==> && (forall i :: 0 <= i <= prio ==> s.queues[i].items == [])
                     && s.cfg.capacity as real - s.outstanding as real >= s.debt[prio].Value(now) + demand as real)
            && (r.calls[k].fast ==> r.calls[k].outcome == Granted && r.pc == Free)
            && (!r.calls[k].fast ==> r.calls[k].outcome == Pending && r.calls[k].sends == 0 && r.pc == Reaping(0))
  {
    if AdmitsAtOnce(s, demand, prio, now) {
      FitsTakes(s, demand, prio, now);
    }
  }

  function Clamped(v: real, max: real): (r: real)
    ensures 0.0 <= max ==> 0.0 <= r <= max
    ensures 0.0 <= v <= max ==> r == v
  {
    if v > max then max else if v < 0.0 then 0.0 else v
  }

  lemma ArrivalIs(s: Sys, demand: int, prio: int, now: Time)
    requires Enabled(s, Acquire(demand, prio, now)) && Taken(s, demand, prio)
    ensures var r := Apply(s, Acquire(demand, prio, now));
            && Refuses(s, demand, prio) == None
            && (r.pc == Free ==> AdmitsAtOnce(s, demand, prio, now)
                                 && r == AcquireFast(s, demand, prio, now, s.cfg.Forgiven(demand)))
            && (r.pc != Free ==> r == AcquireSlow(s, demand, prio, now))
  {
  }

  // What forgiving debtForgivePerSuccess of these tokens makes of the debts: each priority below prio
  // owes its debt less that share, clamped to [0, capacity], or what the priority above it owes after
  // this, whichever is more.
  ghost predicate Relieved(debt: seq<Decay>, r: seq<Decay>, cfg: Config, demand: int, prio: nat, now: Time) {
    && |r| == |debt|
    && (forall j :: 0 <= j < |r| && j <= prio ==> r[j].Value(now) == debt[j].Value(now))
    && forall j, h :: 0 <= h < |r| && h + 1 == j < |r| && prio < j ==>
         var less := debt[j].Value(now) - cfg.debtForgivePerSuccess * demand as real;
         r[j].Value(now) == Max(Clamped(less, cfg.capacity as real), r[h].Value(now))
  }

  lemma RelievedIs(debt: seq<Decay>, r: seq<Decay>, cfg: Config, demand: int, prio: nat, now: Time)
    requires Forgives(debt, r, prio + 1, now, cfg.Forgiven(demand), cfg.capacity as real)
    ensures Relieved(debt, r, cfg, demand, prio, now)
  {
    var max := cfg.capacity as real;
    forall j, h | 0 <= h < |r| && h + 1 == j < |r| && prio < j
      ensures var less := debt[j].Value(now) - cfg.debtForgivePerSuccess * demand as real;
              r[j].Value(now) == Max(Clamped(less, max), r[h].Value(now))
    {
      assert r[j].Value(now) == Max(Charged(debt[j].Value(now), -cfg.Forgiven(demand), max), r[h].Value(now));
    }
  }

  lemma GrantMoves(s: Sys, demand: int, prio: nat, now: Time, amount: real)
    requires Reachable(s) && s.pc == Free && s.clock <= now && prio < |s.debt|
    requires Refuses(s, demand, prio) == None && AdmitsAtOnce(s, demand, prio, now)
    ensures var r := AcquireFast(s, demand, prio, now, amount);
            && r.outstanding == s.outstanding + demand && r.queues == s.queues && r.clock == now
            && r.hasWaiters == s.hasWaiters && r.ticker == s.ticker
            && Forgives(s.debt, r.debt, prio + 1, now, amount, s.cfg.capacity as real)
  {
    ReachableInv(s);
    FastIs(s, demand, prio, now, amount);
  }

  // A grant on arrival takes its tokens and forgives the lower priorities some debt. Nothing else changes.
  lemma GrantEffect(s: Sys, demand: int, prio: int, now: Time)
    requires Reachable(s) && Enabled(s, Acquire(demand, prio, now)) && Taken(s, demand, prio)
    requires Apply(s, Acquire(demand, prio, now)).pc == Free
    ensures var r := Apply(s, Acquire(demand, prio, now));
            && r.outstanding == s.outstanding + demand && r.queues == s.queues && r.clock == now
            && r.hasWaiters == s.hasWaiters && r.ticker == s.ticker
            && Relieved(s.debt, r.debt, s.cfg, demand, prio, now)
  {
    ArrivalIs(s, demand, prio, now);
    GrantMoves(s, demand, prio, now, s.cfg.Forgiven(demand));
    RelievedIs(s.debt, Apply(s, Acquire(demand, prio, now)).debt, s.cfg, demand, prio, now);
  }

  ghost predicate TookAndForgave(s: Sys, r: Sys, demand: int, prio: int, now: Time) {
    && r.outstanding == s.outstanding + demand && r.queues == s.queues
    && prio >= 0 && Relieved(s.debt, r.debt, s.cfg, demand, prio, now)
  }

  lemma GrantedIs(s: Sys, demand: int, prio: int, now: Time)
    requires Reachable(s) && Enabled(s, Acquire(demand, prio, now)) && Refuses(s, demand, prio) == None
    requires Apply(s, Acquire(demand, prio, now)).pc == Free
    ensures TookAndForgave(s, Apply(s, Acquire(demand, prio, now)), demand, prio, now)
  {
    RefusedIff(s, demand, prio, now);
    GrantEffect(s, demand, prio, now);
  }

  // A caller that has to wait is charged to every lower priority, is put behind the others of its own if
  // there is room, and arms the reaper if it is the only one who waits.
  lemma WaitEffect(s: Sys, demand: int, prio: int, now: Time)
    requires Reachable(s) && Enabled(s, Acquire(demand, prio, now)) && Taken(s, demand, prio)
    requires Apply(s, Acquire(demand, prio, now)).pc != Free
    ensures var r := Apply(s, Acquire(demand, prio, now));
            && r.outstanding == s.outstanding && r.clock == now && |r.debt| == |s.debt| && |r.queues| == |s.queues|
            && r.hasWaiters && r.ticker == (if s.hasWaiters then s.ticker else Some(s.cfg.longTimeout))
            && (forall p :: 0 <= p < |r.queues| && p != prio ==> r.queues[p] == s.queues[p])
            && r.queues[prio].items == s.queues[prio].items
                 + (if |s.queues[prio].items| < s.queues[prio].room then [Item(|s.calls|, now, demand)] else [])
            && (forall j :: 0 <= j < |r.debt| && j <= prio ==> r.debt[j].Value(now) == s.debt[j].Value(now))
            && forall j :: 0 <= j < |r.debt| && prio < j ==>
                 r.debt[j].Value(now) == Clamped(s.debt[j].Value(now) + demand as real, s.cfg.capacity as real)
  {
    ReachableInv(s);
    ArrivalIs(s, demand, prio, now);
    TestKeepsDebt(s, prio, now);
    PenaliseIs(TestedDebt(s, prio, now), s.cfg, now, prio + 1, demand as real);
  }

  // Between events a debt falls by the capacity in debtDecayInterval.
  lemma DecayEffect(s: Sys, t: Time, u: Time, i: nat)
    requires Reachable(s) && s.clock <= t <= u && i < |s.debt|
    ensures FallsEvenly(s.debt[i], s.cfg, t, u)
  {
    ReachableDebt(s);
    DebtFalls(s.debt, s.cfg, s.clock, t, u, i);
  }

  // ---- Release ----

  // Release takes the tokens off. Below zero it panics, with the lock given back; otherwise admit is next.
  lemma ReturnEffect(s: Sys, e: Event)
    requires Enabled(s, e) && (e.Release? || e.Stray?)
    ensures var r := Apply(s, e);
            var tokens := if e.Release? then s.calls[e.ticket].demand else e.tokens;
            && r.outstanding == s.outstanding - tokens && r.queues == s.queues && r.debt == s.debt
            && (if s.outstanding < tokens then r.pc == Free else r.pc == Reaping(0) && r.clock == e.now)
  {
  }

  // A tick reads the clock and runs admit; Close ends the ticker, once.
  lemma TickAndCloseEffect(s: Sys, now: Time)
    ensures Enabled(s, Tick(now)) ==>
              var r := Apply(s, Tick(now));
              r.pc == Reaping(0) && r.clock == now && r.queues == s.queues && r.debt == s.debt && r.calls == s.calls
              && r.outstanding == s.outstanding
    ensures Enabled(s, Close) ==>
              var r := Apply(s, Close);
              && r.closed && (s.closed ==> r == s) && (!s.closed ==> r.ticker == None)
              && r.queues == s.queues && r.debt == s.debt && r.calls == s.calls && r.outstanding == s.outstanding
  {
  }

  // ---- admit ----

  // What a reap needs to know of one of the waiters it looks at.
  lemma ReapFacts(s: Sys, i: nat, j: nat)
    requires Reachable(s) && s.pc == Reaping(i) && i < |s.queues| && j < |s.queues[i].items|
    ensures var q := s.queues[i];
            && QueueOk(q, s.clock) && q.shortTimeout == s.cfg.shortTimeout && q.longTimeout == s.cfg.longTimeout
            && q.items[j].id < |s.calls|
            && var c := s.calls[q.items[j].id];
               c.since == q.items[j].enqueued && c.chan == [] && c.sends == 0
  {
    ReachableInv(s);
    assert Linked(s.queues[i].items[j], i, s.calls);
    assert CallOk(s.calls[s.queues[i].items[j].id], false);
  }

  lemma TicketIsShed(q: Queue, now: Time, j: nat)
    requires Arrived(q.items) && j < |q.items|
    ensures HasTicket(q.Shed(now), q.items[j].id) <==> j < |q.Shed(now)|
    ensures HasTicket(q.Reap(now).items, q.items[j].id) <==> j >= |q.Shed(now)|
  {
    var n := |q.Shed(now)|;
    assert q.Shed(now) == q.items[..n] && q.Reap(now).items == q.items[n..];
    if j < n {
      assert q.Shed(now)[j].id == q.items[j].id;
    } else {
      assert q.Reap(now).items[j - n].id == q.items[j].id;
    }
  }

  // A reap of queue i sends false to exactly the callers that have waited longer than shortTimeout, if
  // the queue has been busy for more than longTimeout or is in LIFO mode, and longer than longTimeout
  // otherwise. They leave the queue, and nobody else is touched.
  lemma ReapEffect(s: Sys, i: nat, j: nat)
    requires Reachable(s) && s.pc == Reaping(i) && i < |s.queues| && j < |s.queues[i].items|
    ensures var q := s.queues[i];
            var overdue := q.mode == LIFO || s.clock - q.lastEmptied > s.cfg.longTimeout;
            var timeout := if overdue then s.cfg.shortTimeout else s.cfg.longTimeout;
            var k := q.items[j].id;
            && Enabled(s, Lock) && k < |s.calls|
            && (if s.clock - s.calls[k].since > timeout
                then LockStep(s).calls[k] == s.calls[k].(chan := [false], sends := 1)
                     && !HasTicket(LockStep(s).queues[i].items, k)
                else LockStep(s).calls[k] == s.calls[k] && HasTicket(LockStep(s).queues[i].items, k))
  {
    LockReady(s);
    ReapFacts(s, i, j);
    ReapTellsByAge(s.queues[i], s.clock);
    TicketIsShed(s.queues[i], s.clock, j);
  }

  // What is popped fits beside what is taken and what its priority owes; and what ends admit does not.
  lemma PoppedFits(s: Sys)
    requires Reachable(s) && s.pc.Popping?
    ensures s.pc.i < |s.queues| == |s.debt| && s.queues[s.pc.i].items != []
    ensures s.outstanding as real + s.queues[s.pc.i].Next().demand as real + s.debt[s.pc.i].Value(s.clock)
            <= s.cfg.capacity as real
  {
    ReachableInv(s);
  }

  // A queue in FIFO mode gives up its oldest waiter, one in LIFO mode its newest. It is admitted if it
  // still waits, and nobody else is touched.
  lemma PopEffect(s: Sys)
    requires Reachable(s) && s.pc.Popping?
    ensures Enabled(s, Lock) && s.queues[s.pc.i].items != [] && |LockStep(s).log| == |s.log| + 1
    ensures var q, r := s.queues[s.pc.i], LockStep(s);
            var k := r.log[|s.log|].ticket;
            && r.log == s.log + [Departure(k, s.pc.i, s.clock, Served)]
            && k == (if q.mode == FIFO then q.items[0].id else q.items[|q.items| - 1].id) < |s.calls|
            && (forall j :: 0 <= j < |q.items| && q.items[j].id != k ==>
                  if q.mode == FIFO then k < q.items[j].id && s.calls[k].since <= q.items[j].enqueued
                  else q.items[j].id < k && q.items[j].enqueued <= s.calls[k].since)
            && r.queues[s.pc.i].items == (if q.mode == FIFO then q.items[1..] else q.items[..|q.items| - 1])
            && (if s.calls[k].state == Waiting
                then r.calls == s.calls[k := s.calls[k].(state := Admitted)]
                     && r.pc == Sending(s.pc.i, k, s.calls[k].demand)
                else r.calls == s.calls && r.pc == Serving(s.pc.i))
  {
    ReachableInv(s);
    LockReady(s);
    NextLinked(s.queues, s.pc.i, s.calls);
    assert QueueOk(s.queues[s.pc.i], s.clock);
  }

  // Whoever was admitted gets one true and is charged.
  lemma SendEffect(s: Sys)
    requires Reachable(s) && s.pc.Sending?
    ensures Enabled(s, Lock)
    ensures var k, r := s.pc.ticket, LockStep(s);
            && r.outstanding == s.outstanding + s.calls[k].demand && r.queues == s.queues
            && r.calls == s.calls[k := s.calls[k].(chan := [true], sends := 1)] && r.pc == Serving(s.pc.i)
  {
    ReachableInv(s);
    LockReady(s);
    assert CallOk(s.calls[s.pc.ticket], true);
    assert s.calls[s.pc.ticket].chan == [] && [] + [true] == [true];
  }

  // ---- The waiters ----

  // A caller's context ends its call with an error exactly if it was not admitted yet; a signal ends it
  // with nil exactly if it says true.
  lemma AnswerEffect(s: Sys, k: nat)
    requires Reachable(s) && k < |s.calls|
    ensures Enabled(s, Expire(k)) ==>
              && Apply(s, Expire(k)).calls[k].outcome == (if s.calls[k].state == Admitted then Granted else Cancelled)
              && (Apply(s, Expire(k)).calls[k].state == Admitted <==> s.calls[k].state == Admitted)
    ensures Enabled(s, Receive(k)) ==>
              Apply(s, Receive(k)).calls[k].outcome == (if s.calls[k].chan == [true] then Granted else Rejected)
  {
    ReachableInv(s);
    assert CallOk(s.calls[k], s.pc.Sending? && s.pc.ticket == k);
  }
}

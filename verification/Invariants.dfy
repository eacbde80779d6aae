/** What every event of the admission system keeps. */
module Invariants {
  import opened Wrappers
  import opened Clocks
  import opened Decays
  import opened Queues
  import opened Admission
  import opened Debts

  // ---- The ledger of live grants ----

  // The tokens a call holds: granted, whether its caller knows it yet or not, and not given back.
  function Weight(c: Call): (w: int) {
    if c.state == Admitted && !c.released then c.demand else 0
  }

  function Live(calls: seq<Call>): (sum: int) {
    if calls == [] then 0 else Live(calls[..|calls| - 1]) + Weight(calls[|calls| - 1])
  }

  lemma {:induction false} LiveUpdate(calls: seq<Call>, k: nat, c: Call)
    requires k < |calls|
    ensures Live(calls[k := c]) == Live(calls) - Weight(calls[k]) + Weight(c)
  {
    var n := |calls| - 1;
    if k == n {
      assert calls[k := c][..n] == calls[..n];
    } else {
      LiveUpdate(calls[..n], k, c);
      assert calls[k := c][..n] == calls[..n][k := c];
    }
  }

  // No call asked for a negative number of tokens.
  ghost predicate Sensible(calls: seq<Call>) {
    forall k :: 0 <= k < |calls| ==> calls[k].demand >= 0
  }

  lemma {:induction false} LiveCovers(calls: seq<Call>, k: nat)
    requires Sensible(calls)
    ensures Live(calls) >= 0
    ensures k < |calls| ==> Weight(calls[k]) <= Live(calls)
  {
    if calls != [] {
      var n := |calls| - 1;
      assert forall j :: 0 <= j < n ==> calls[..n][j] == calls[j];
      LiveCovers(calls[..n], k);
    }
  }

  lemma LiveAppend(calls: seq<Call>, c: Call)
    ensures Live(calls + [c]) == Live(calls) + Weight(c)
  {
    assert (calls + [c])[..|calls|] == calls;
  }

  lemma {:induction false} LiveSame(a: seq<Call>, b: seq<Call>)
    requires |a| == |b| && forall k :: 0 <= k < |a| ==> Weight(a[k]) == Weight(b[k])
    ensures Live(a) == Live(b)
  {
    if a != [] {
      LiveSame(a[..|a| - 1], b[..|b| - 1]);
    }
  }

  // ---- The invariant, part by part ----

  // The waiter's word, its channel and its caller's answer agree. sending marks the one call that
  // has been admitted but not yet signalled.
  ghost predicate CallOk(c: Call, sending: bool) {
    && |c.chan| <= c.sends <= 1
    // the answer is nil exactly for admitted calls
    && (c.outcome == Granted ==> c.state == Admitted)
    && (c.outcome == Cancelled <==> c.state == Expired)
    && (c.outcome == Rejected ==> c.state == Waiting && c.sends == 1)
    && (c.chan != [] ==> (c.chan[0] <==> c.state == Admitted))
    // a signal that was sent and not received is still there
    && (c.outcome == Pending && c.sends == 1 ==> c.chan != [])
    && (c.state == Admitted && !c.fast ==> c.placed && c.sends == (if sending then 0 else 1))
    && (c.sends == 1 ==> c.placed)
    && (c.fast ==> c.state == Admitted && c.outcome == Granted && !c.placed && c.sends == 0)
    && (c.released ==> c.outcome == Granted && !sending)
    && (sending ==> c.state == Admitted && c.sends == 0 && !c.fast)
  }

  ghost predicate CallsOk(calls: seq<Call>, pc: Pc) {
    forall k :: 0 <= k < |calls| ==> CallOk(calls[k], pc.Sending? && pc.ticket == k)
  }

  ghost predicate QueuesOk(queues: seq<Queue>, cfg: Config, t: Time) {
    forall p :: 0 <= p < |queues| ==>
      && QueueOk(queues[p], t)
      && queues[p].room > 0
      && queues[p].shortTimeout == cfg.shortTimeout && queues[p].longTimeout == cfg.longTimeout
  }

  // A queued item stands for a placed call of that queue that was neither admitted nor signalled.
  ghost predicate Linked(item: Item, p: nat, calls: seq<Call>) {
    && item.id < |calls|
    && var c := calls[item.id];
       && c.prio == p && c.demand == item.demand && c.since == item.enqueued
       && c.placed && c.sends == 0 && c.state != Admitted
  }

  ghost predicate LinksOk(queues: seq<Queue>, calls: seq<Call>) {
    forall p, j :: 0 <= p < |queues| && 0 <= j < |queues[p].items| ==> Linked(queues[p].items[j], p, calls)
  }

  // A placed waiter that is still waiting and unsignalled is in its queue.
  ghost predicate AtHome(queues: seq<Queue>, k: nat, c: Call) {
    && c.prio < |queues|
    && (c.placed && c.state == Waiting && c.sends == 0 ==> HasTicket(queues[c.prio].items, k))
  }

  ghost predicate NoneLost(queues: seq<Queue>, calls: seq<Call>) {
    forall k :: 0 <= k < |calls| ==> AtHome(queues, k, calls[k])
  }

  function Uncharged(s: Sys): (n: int) {
    if s.pc.Sending? then s.pc.charge else 0
  }

  // The tokens of the live grants are those outstanding, but for the stray ones returned.
  ghost predicate LedgerOk(s: Sys) {
    && s.outstanding + Uncharged(s) + s.faults.stray == Live(s.calls)
    && (s.pc.Sending? ==> s.pc.ticket < |s.calls| && s.pc.charge == s.calls[s.pc.ticket].demand
                          && s.outstanding + s.pc.charge <= s.cfg.capacity)
    && (s.pc.Popping? ==> s.pc.i < |s.queues| && s.queues[s.pc.i].items != []
                          && s.pc.charge == s.queues[s.pc.i].Next().demand
                          && s.outstanding + s.pc.charge <= s.cfg.capacity)
  }

  // While callers are fair nothing stray is returned, the ledger stays in range and Release does not panic.
  ghost predicate FairInv(s: Sys) {
    && s.faults.stray == 0 && !s.faults.panicked
    && Sensible(s.calls)
    && 0 <= s.outstanding
    && s.outstanding + Uncharged(s) <= s.cfg.capacity
  }

  ghost predicate SomeWaiter(queues: seq<Queue>) {
    exists p :: 0 <= p < |queues| && queues[p].items != []
  }

  ghost predicate NoneAbove(queues: seq<Queue>, i: nat) {
    forall p :: 0 <= p < i && p < |queues| ==> queues[p].items == []
  }

  // The reaper is armed while anybody waits, and between critical sections exactly then.
  ghost predicate ArmedOk(queues: seq<Queue>, hasWaiters: bool, free: bool) {
    && (SomeWaiter(queues) ==> hasWaiters)
    && (free && hasWaiters ==> SomeWaiter(queues))
  }

  ghost predicate TickerOk(s: Sys) {
    if s.closed then s.ticker == None || s.ticker == Some(INFINITY)
    else s.ticker == Some(if s.hasWaiters then s.cfg.longTimeout else INFINITY)
  }

  // admit works on queue i only once every queue above it is empty.
  ghost predicate PriorityOk(queues: seq<Queue>, pc: Pc) {
    match pc
    case Serving(i) => NoneAbove(queues, i)
    case Popping(i, _) => NoneAbove(queues, i)
    case Sending(i, _, _) => NoneAbove(queues, i)
    case _ => true
  }

  // Between critical sections the next waiter of the top queue does not fit, unless a Release has
  // panicked since admit last ran: then less than nothing is taken.
  ghost predicate TopOk(queues: seq<Queue>, outstanding: int, capacity: nat, panicked: bool) {
    queues != [] && queues[0].items != [] ==>
      if panicked then outstanding < 0 else outstanding + queues[0].Next().demand > capacity
  }

  ghost predicate Bounded(calls: seq<Call>, capacity: nat) {
    forall k :: 0 <= k < |calls| ==> calls[k].demand <= capacity
  }

  // What every run keeps of the debts and of the top queue.
  ghost predicate TopInv(s: Sys) {
    && s.cfg.Ok()
    && DebtIn(s.debt, s.cfg, s.clock)
    && DebtForgotten(s.debt, s.lastPenalty, s.clock)
    && Bounded(s.calls, s.cfg.capacity)
    && (if s.pc == Free then TopOk(s.queues, s.outstanding, s.cfg.capacity, s.faults.panicked) else !s.faults.panicked)
    && (s.pc.Popping? ==> TestedOk(s.debt, s.pc.i, s.cfg.capacity, s.outstanding, s.pc.charge, s.clock))
  }

  // Whoever is about to be popped fits beside what is taken and what its priority owes.
  ghost predicate TestedOk(debt: seq<Decay>, i: nat, capacity: nat, outstanding: int, charge: int, t: Time) {
    i < |debt| && outstanding as real + charge as real + debt[i].Value(t) <= capacity as real
  }

  ghost predicate YoungerAt(q: Queue, timeout: Duration, t: Time) {
    forall j :: 0 <= j < |q.items| ==> t - q.items[j].enqueued <= timeout
  }

  // Settled: looking at the queue again at time t would not change its mode.
  ghost predicate Settled(q: Queue, t: Time) {
    q.items != [] ==> q.SetMode(t) == q
  }

  // Nobody in queue p was older than the timeout in force when it was last reaped.
  ghost predicate AgeOk(q: Queue, p: nat, pc: Pc, lastReap: Time, t: Time) {
    && YoungerAt(q, q.longTimeout, lastReap)
    && match pc {
         case Reaping(i) => p < i ==> YoungerAt(q, q.Timeout(), t) && Settled(q, t)
         case Free => YoungerAt(q, q.Timeout(), lastReap)
         case _ => YoungerAt(q, q.Timeout(), t) && Settled(q, t)
       }
  }

  ghost predicate AgesOk(queues: seq<Queue>, pc: Pc, lastReap: Time, t: Time) {
    && (if pc == Free || pc.Reaping? then lastReap <= t else lastReap == t)
    && forall p :: 0 <= p < |queues| ==> AgeOk(queues[p], p, pc, lastReap, t)
  }

  // What every run keeps, whatever its callers do.
  ghost predicate CoreInv(s: Sys) {
    && s.cfg.Ok()
    && Shape(s)
    && QueuesOk(s.queues, s.cfg, s.clock)
    && CallsOk(s.calls, s.pc)
    && LinksOk(s.queues, s.calls)
    && NoneLost(s.queues, s.calls)
    && LedgerOk(s)
    && s.lastPenalty <= s.clock
    && ArmedOk(s.queues, s.hasWaiters, s.pc == Free)
    && TickerOk(s)
    && (s.running || s.closed)
    && PriorityOk(s.queues, s.pc)
    && AgesOk(s.queues, s.pc, s.lastReap, s.clock)
  }

  // All of it, with what holds as long as no demand is negative, and as long as callers are fair.
  ghost predicate Inv(s: Sys) {
    && CoreInv(s)
    && TopInv(s)
    && (!s.faults.negative ==> Sorted(s.debt, s.clock))
    && (s.Fair() ==> FairInv(s))
  }

  // The waiter that admit is about to pop.
  lemma NextLinked(queues: seq<Queue>, i: nat, calls: seq<Call>)
    requires LinksOk(queues, calls) && i < |queues| && queues[i].items != []
    ensures Linked(queues[i].Next(), i, calls)
  {
    var q := queues[i];
    assert Linked(q.items[if q.mode == FIFO then 0 else |q.items| - 1], i, calls);
  }
}

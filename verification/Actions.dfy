/** What each action of a caller, of the background goroutine and of the lock holder needs to know of a
    reachable state, and the run that it is. */
module Actions {
  import opened Wrappers
  import opened Clocks
  import opened Decays
  import opened Queues
  import opened Admission
  import opened Invariants
  import opened Fairness
  import opened Preservation
  import opened Theorems

  // The calls after waiter k was popped, and admitted and signalled if it was still waiting.
  function AfterPop(calls: seq<Call>, k: nat): (r: seq<Call>)
    requires k < |calls|
  {
    var c := calls[k];
    if c.state != Waiting then calls
    else calls[k := c.(state := Admitted, chan := c.chan + [true], sends := c.sends + 1)]
  }

  // One action of the lock holder, as a run.
  lemma Act(s: Sys) returns (t: Sys)
    requires Reachable(s) && s.pc != Free
    ensures Shape(s) && t == LockStep(s) && Reachable(t) && Leads(s, t)
  {
    LockReady(s);
    t := LockStep(s);
    ReachableStep(s, Lock);
    LeadsNowhere(s);
    LeadsOn(s, s, Lock);
  }

  // The parts of a state that only the lock holder's bookkeeping touches are as they were.
  ghost predicate SameRest(s: Sys, t: Sys) {
    && t.cfg == s.cfg && t.debt == s.debt && t.hasWaiters == s.hasWaiters && t.ticker == s.ticker
    && t.closed == s.closed && t.running == s.running && t.clock == s.clock
    && t.faults == s.faults
  }

  // What a reap needs to know of the waiters it may drop, and where it leads.
  lemma ReapReady(s: Sys, i: nat) returns (t: Sys)
    requires Reachable(s) && s.pc == Reaping(i) && i < |s.queues|
    ensures Arrived(s.queues[i].items)
    ensures forall j :: 0 <= j < |s.queues[i].items| ==>
              var k := s.queues[i].items[j].id;
              k < |s.calls| && s.calls[k].chan == [] && !s.calls[k].fast
    ensures Reachable(t) && Leads(s, t) && SameRest(s, t) && t.outstanding == s.outstanding && t.pc == Reaping(i + 1)
    ensures t.queues == s.queues[i := s.queues[i].Reap(s.clock)]
    ensures t.calls == DropAll(s.calls, s.queues[i].Shed(s.clock))
  {
    t := Act(s);
    ReachableInv(s);
    forall j | 0 <= j < |s.queues[i].items|
      ensures var k := s.queues[i].items[j].id; k < |s.calls| && s.calls[k].chan == [] && !s.calls[k].fast
    {
      var k := s.queues[i].items[j].id;
      assert Linked(s.queues[i].items[j], i, s.calls);
      assert CallOk(s.calls[k], false);
    }
  }

  // What a pop needs to know of the waiter it takes.
  lemma PopFacts(s: Sys, i: nat, charge: int)
    requires Reachable(s) && s.pc == Popping(i, charge)
    ensures i < |s.queues| && s.queues[i].items != [] && s.queues[i].Next().demand == charge
    ensures var k := s.queues[i].Next().id; k < |s.calls| && s.calls[k].chan == [] && !s.calls[k].fast
  {
    ReachableInv(s);
    NextLinked(s.queues, i, s.calls);
    assert CallOk(s.calls[s.queues[i].Next().id], false);
  }

  lemma TwoUpdates(calls: seq<Call>, k: nat, a: Call, b: Call)
    requires k < |calls|
    ensures calls[k := a][k := b] == calls[k := b]
  {
  }

  lemma PopActs(s: Sys, i: nat, charge: int) returns (t: Sys)
    requires Reachable(s) && s.pc == Popping(i, charge)
    requires i < |s.queues| && s.queues[i].items != [] && s.queues[i].Next().id < |s.calls|
    ensures Reachable(t) && Leads(s, t) && SameRest(s, t) && t.outstanding == s.outstanding
    ensures t.queues == s.queues[i := s.queues[i].Pop(s.clock)]
    ensures var k := s.queues[i].Next().id;
            && t.calls == Swap(s.calls, k)
            && t.pc == (if s.calls[k].state == Waiting then Sending(i, k, charge) else Serving(i))
  {
    t := Act(s);
  }

  lemma SendActs(s: Sys, i: nat, k: nat, charge: int) returns (t: Sys)
    requires Reachable(s) && s.pc == Sending(i, k, charge) && k < |s.calls|
    ensures Reachable(t) && Leads(s, t) && SameRest(s, t) && t.outstanding == s.outstanding + charge
    ensures t.queues == s.queues && t.pc == Serving(i)
    ensures t.calls == s.calls[k := s.calls[k].(chan := s.calls[k].chan + [true], sends := s.calls[k].sends + 1)]
  {
    t := Act(s);
  }

  // Where a pop leads, with the send and charge that follow it if its compare-and-swap succeeds.
  lemma PopReady(s: Sys, i: nat, charge: int) returns (t: Sys)
    requires Reachable(s) && s.pc == Popping(i, charge)
    requires i < |s.queues| && s.queues[i].items != [] && s.queues[i].Next().id < |s.calls|
    ensures Reachable(t) && Leads(s, t) && SameRest(s, t) && t.pc == Serving(i)
    ensures t.queues == s.queues[i := s.queues[i].Pop(s.clock)]
    ensures var k := s.queues[i].Next().id;
            && t.calls == AfterPop(s.calls, k)
            && t.outstanding == s.outstanding + (if s.calls[k].state == Waiting then charge else 0)
    ensures |t.queues[i].items| < |s.queues[i].items|
  {
    t := PopActs(s, i, charge);
    var k := s.queues[i].Next().id;
    if s.calls[k].state == Waiting {
      var u := SendActs(t, i, k, charge);
      LeadsChain(s, t, u);
      TwoUpdates(s.calls, k, t.calls[k], u.calls[k]);
      t := u;
    }
  }

  // The pop of queue i is done with, and the queue the shorter for it.
  ghost predicate Popped(s: Sys, t: Sys, i: nat, now: Time) {
    && Reachable(t) && Leads(s, t) && t.pc == Serving(i) && t.clock == now
    && i < |s.queues| == |t.queues| && |t.queues[i].items| < |s.queues[i].items|
  }

  lemma TestActs(s: Sys, i: nat) returns (t: Sys)
    requires Reachable(s) && s.pc == Serving(i) && i < |s.queues| && s.queues[i].items != []
    ensures i < |s.debt|
    ensures |t.queues| == |t.debt| && Reachable(t) && Leads(s, t) && t.queues == s.queues && t.calls == s.calls
    ensures SameRest(s, t.(debt := s.debt)) && t.outstanding == s.outstanding
    ensures t.debt == s.debt[i := s.debt[i].Get(s.clock)]
    ensures var demand := s.queues[i].Next().demand;
            t.pc == if Fits(s.cfg.capacity, s.outstanding, s.debt[i].Value(s.clock), demand)
                    then Popping(i, demand) else Free
  {
    t := Act(s);
  }

  // The three actions that change nothing but the holder's own place: moving on from an empty queue,
  // finishing the reaps, and, when every queue is empty, putting the ticker to sleep.
  lemma SkipActs(s: Sys, i: nat) returns (t: Sys)
    requires Reachable(s) && s.pc == Serving(i) && i < |s.queues| && s.queues[i].items == []
    ensures Reachable(t) && Leads(s, t) && t == s.(pc := Serving(i + 1))
  {
    t := Act(s);
  }

  lemma ReapedActs(s: Sys) returns (t: Sys)
    requires Reachable(s) && s.pc == Reaping(|s.queues|)
    ensures Reachable(t) && Leads(s, t) && t == s.(pc := Serving(0), lastReap := s.clock)
  {
    t := Act(s);
  }

  lemma RestActs(s: Sys) returns (t: Sys)
    requires Reachable(s) && s.pc == Serving(|s.queues|)
    ensures Reachable(t) && Leads(s, t)
    ensures t == s.(pc := Free, hasWaiters := false, ticker := if s.hasWaiters then Some(INFINITY) else s.ticker)
  {
    t := Act(s);
  }

  // The reaps of an admit that finds nobody stale and no mode to change.
  lemma {:induction false} QuietReaps(s: Sys, i: nat) returns (t: Sys)
    requires Reachable(s) && s.pc == Reaping(i) && i <= |s.queues|
    requires forall p :: 0 <= p < |s.queues| ==>
               s.queues[p].Shed(s.clock) == [] && s.queues[p].Reap(s.clock) == s.queues[p]
    ensures Reachable(t) && SameRest(s, t) && t.outstanding == s.outstanding && t.pc == Serving(0)
    ensures t.queues == s.queues && t.calls == s.calls
    decreases |s.queues| - i
  {
    if i == |s.queues| {
      t := ReapedActs(s);
    } else {
      t := ReapReady(s, i);
      assert s.queues[i := s.queues[i]] == s.queues;
      assert DropAll(s.calls, []) == s.calls;
      t := QuietReaps(t, i + 1);
    }
  }

  // One branch of wait, as an event.
  function Wakes(k: nat, contextDone: bool): (e: Event) {
    if contextDone then Expire(k) else Receive(k)
  }

  lemma WaiterActs(s: Sys, k: nat, contextDone: bool) returns (t: Sys)
    requires Reachable(s) && k < |s.calls| && s.calls[k].outcome == Pending && (contextDone || s.calls[k].chan != [])
    ensures Enabled(s, Wakes(k, contextDone)) && t == Apply(s, Wakes(k, contextDone)) && Reachable(t)
    ensures t == s.(calls := s.calls[k := if contextDone then ExpireStep(s.calls[k]) else ReceiveStep(s.calls[k])])
  {
    LockReady(s);
    ReachableStep(s, Wakes(k, contextDone));
    t := Apply(s, Wakes(k, contextDone));
  }

  datatype Panic = UnbalancedTokens

  // The lock holder enters with event e and is done with admit when the state is t.
  ghost predicate Follows(s: Sys, e: Event, t: Sys) {
    Enabled(s, e) && Leads(Apply(s, e), t)
  }

  // What Acquire tells its caller when it unlocks.
  datatype Reply = Refused(why: Refusal) | GrantedNow | MustWait | Unbalanced

  function Expected(s: Sys, demand: int, prio: int, now: Time): (r: Reply)
    requires |s.debt| == |s.queues|
  {
    if Refuses(s, demand, prio).Some? then Refused(Refuses(s, demand, prio).value)
    else if AdmitsAtOnce(s, demand, prio, now) then GrantedNow
    else MustWait
  }

  lemma FastActs(s: Sys, demand: int, prio: nat, now: Time) returns (t: Sys)
    requires Reachable(s) && Enabled(s, Acquire(demand, prio, now))
    requires Refuses(s, demand, prio) == None && AdmitsAtOnce(s, demand, prio, now)
    ensures Reachable(t) && t == Apply(s, Acquire(demand, prio, now)) && t.pc == Free
    ensures SameRest(s.(debt := t.debt, clock := now, faults := t.faults), t) && t.queues == s.queues
    ensures t.faults == s.faults.Asked(demand)
    ensures t.outstanding == s.outstanding + demand <= s.cfg.capacity
    ensures t.debt == Forgive(TestedDebt(s, prio, now), prio + 1, now, s.cfg.Forgiven(demand))
    ensures t.calls == s.calls + [FastCall(demand, prio, now)]
  {
    FitsTakes(s, demand, prio, now);
    t := Apply(s, Acquire(demand, prio, now));
    ReachableStep(s, Acquire(demand, prio, now));
  }

  // A waiter was pushed and the reaper armed, and but for the debts nothing else was touched.
  ghost predicate Joins(s: Sys, t: Sys, demand: int, prio: nat, now: Time)
    requires prio < |s.queues|
  {
    && t.cfg == s.cfg && t.outstanding == s.outstanding && t.closed == s.closed && t.running == s.running
    && t.hasWaiters && t.ticker == (if s.hasWaiters then s.ticker else Some(s.cfg.longTimeout))
    && t.queues == s.queues[prio := s.queues[prio].Push(Item(|s.calls|, now, demand), now)]
    && t.calls == s.calls + [SlowCall(demand, prio, now, !s.queues[prio].Full())]
  }

  lemma SlowActs(s: Sys, demand: int, prio: nat, now: Time) returns (t: Sys)
    requires Reachable(s) && Enabled(s, Acquire(demand, prio, now))
    requires Refuses(s, demand, prio) == None && !AdmitsAtOnce(s, demand, prio, now)
    ensures Reachable(t) && t == Apply(s, Acquire(demand, prio, now)) && t.pc == Reaping(0) && t.clock == now
    ensures t.faults == s.faults.Asked(demand).(panicked := false) && Joins(s, t, demand, prio, now)
    ensures t.debt == Penalise(TestedDebt(s, prio, now), prio + 1, now, demand as real, s.cfg.capacity as real)
  {
    t := Apply(s, Acquire(demand, prio, now));
    ReachableStep(s, Acquire(demand, prio, now));
  }

  // What a call of Release does: it gives back the grant with this ticket, if it gives one back.
  function Returning(tokens: int, ticket: Option<nat>, now: Time): (e: Event) {
    match ticket
    case Some(k) => Release(k, now)
    case None => Stray(tokens, now)
  }

  ghost predicate MayReturn(s: Sys, tokens: int, ticket: Option<nat>, now: Time) {
    Enabled(s, Returning(tokens, ticket, now)) && (ticket.Some? ==> s.calls[ticket.value].demand == tokens)
  }

  function Released(calls: seq<Call>, ticket: Option<nat>): (r: seq<Call>)
    requires ticket.Some? ==> ticket.value < |calls|
  {
    if ticket.Some? then calls[ticket.value := calls[ticket.value].(released := true)] else calls
  }

  ghost predicate Blames(s: Sys, t: Sys, stray: bool) {
    t.faults.negative == s.faults.negative && t.faults.strayed == (s.faults.strayed || stray)
    && (stray || t.faults.stray == s.faults.stray)
  }

  lemma ReturnActs(s: Sys, tokens: int, ticket: Option<nat>, now: Time) returns (t: Sys)
    requires Reachable(s) && MayReturn(s, tokens, ticket, now)
    ensures Reachable(t) && t == Apply(s, Returning(tokens, ticket, now))
    ensures SameRest(s.(clock := t.clock, faults := t.faults), t) && Blames(s, t, ticket.None?)
    ensures t.outstanding == s.outstanding - tokens
    ensures t.queues == s.queues && t.calls == Released(s.calls, ticket)
    ensures if t.outstanding < 0 then t.pc == Free else t.pc == Reaping(0) && t.clock == now
    ensures ticket.Some? && s.Fair() ==> t.outstanding >= 0
  {
    var e := Returning(tokens, ticket, now);
    ReachableStep(s, e);
    PanicsIff(s, e);
    t := Apply(s, e);
  }

  // The state that NewSemaphore builds.
  ghost function Fresh(cfg: Config, tiers: seq<int>, start: Time, created: seq<Time>, now: Time): (s: Sys)
    requires cfg.Ok() && |created| == |tiers| && forall i :: 0 <= i < |tiers| ==> tiers[i] > 0
    ensures |s.queues| == |s.debt| == |tiers|
    ensures forall i :: 0 <= i < |tiers| ==>
              && s.queues[i] == NewQueue(cfg.shortTimeout, cfg.longTimeout, tiers[i], created[i])
              && s.debt[i] == Decay(0.0, start, cfg.DecayPerSec(), cfg.capacity as real)
  {
    Sys(cfg, 0,
        seq(|tiers|, i requires 0 <= i < |tiers| =>
          NewQueue(cfg.shortTimeout, cfg.longTimeout, tiers[i], created[i])),
        seq(|tiers|, i requires 0 <= i < |tiers| => Decay(0.0, start, cfg.DecayPerSec(), cfg.capacity as real)),
        false, Some(INFINITY), false, true, Free, [], [], now, start, start, Faults(0, false, false, false))
  }

  lemma FreshInit(cfg: Config, tiers: seq<int>, start: Time, created: seq<Time>, now: Time)
    requires cfg.Ok() && |created| == |tiers| && start <= now
    requires forall i :: 0 <= i < |tiers| ==> tiers[i] > 0 && created[i] <= now
    ensures Init(Fresh(cfg, tiers, start, created, now)) && Reachable(Fresh(cfg, tiers, start, created, now))
  {
    NoRun(Fresh(cfg, tiers, start, created, now));
  }
}

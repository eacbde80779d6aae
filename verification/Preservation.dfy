/** Every event keeps the invariant, so every run does. */
module Preservation {
  import opened Wrappers
  import opened Clocks
  import opened Decays
  import opened Queues
  import opened Admission
  import opened Debts
  import opened Invariants
  import opened Fairness

  // ---- One call changes ----

  predicate Linkable(c: Call) {
    c.sends == 0 && c.state != Admitted
  }

  lemma CallChangeKeepsLinks(queues: seq<Queue>, calls: seq<Call>, k: nat, c: Call)
    requires LinksOk(queues, calls) && NoneLost(queues, calls) && k < |calls|
    requires c.prio == calls[k].prio && c.demand == calls[k].demand && c.since == calls[k].since
    requires c.placed == calls[k].placed
    requires Linkable(calls[k]) ==> Linkable(c)
    requires c.state == Waiting && c.sends == 0 ==> calls[k].state == Waiting && calls[k].sends == 0
    ensures LinksOk(queues, calls[k := c]) && NoneLost(queues, calls[k := c])
  {
  }

  lemma CallChangeKeepsCalls(calls: seq<Call>, pc: Pc, k: nat, c: Call)
    requires CallsOk(calls, pc) && k < |calls| && CallOk(c, pc.Sending? && pc.ticket == k)
    ensures CallsOk(calls[k := c], pc)
  {
  }

  lemma WaiterKeepsCall(c: Call, sending: bool)
    requires CallOk(c, sending) && c.outcome == Pending
    ensures CallOk(ExpireStep(c), sending) && Weight(ExpireStep(c)) == Weight(c)
    ensures c.chan != [] ==> CallOk(ReceiveStep(c), sending) && Weight(ReceiveStep(c)) == Weight(c)
  {
  }

  lemma CallChangeKeepsCore(s: Sys, k: nat, c: Call)
    requires CoreInv(s) && k < |s.calls|
    requires CallOk(c, s.pc.Sending? && s.pc.ticket == k)
    requires c.(state := s.calls[k].state, chan := s.calls[k].chan, outcome := s.calls[k].outcome) == s.calls[k]
    requires c.state == s.calls[k].state || (s.calls[k].state == Waiting && c.state == Expired)
    ensures CoreInv(s.(calls := s.calls[k := c]))
  {
    LiveUpdate(s.calls, k, c);
    CallChangeKeepsLinks(s.queues, s.calls, k, c);
    CallChangeKeepsCalls(s.calls, s.pc, k, c);
  }

  // A waiter's own step changes its call and nothing else.
  lemma WaiterKeepsCore(s: Sys, e: Event)
    requires CoreInv(s) && Enabled(s, e) && (e.Expire? || e.Receive?)
    ensures CoreInv(Apply(s, e))
  {
    var k := e.ticket;
    var sending := s.pc.Sending? && s.pc.ticket == k;
    assert CallOk(s.calls[k], sending);
    WaiterKeepsCall(s.calls[k], sending);
    CallChangeKeepsCore(s, k, if e.Expire? then ExpireStep(s.calls[k]) else ReceiveStep(s.calls[k]));
  }

  // ---- Entering a critical section ----

  // Time passing between critical sections, and the lock taken for admit.
  lemma EnterKeepsQueues(queues: seq<Queue>, cfg: Config, t: Time, now: Time)
    requires QueuesOk(queues, cfg, t) && t <= now
    ensures QueuesOk(queues, cfg, now)
  {
  }

  lemma EnterKeepsAges(queues: seq<Queue>, lastReap: Time, t: Time, now: Time)
    requires AgesOk(queues, Free, lastReap, t) && t <= now
    ensures AgesOk(queues, Reaping(0), lastReap, now)
  {
  }

  lemma TickKeepsCore(s: Sys, now: Time)
    requires CoreInv(s) && s.pc == Free && s.clock <= now
    ensures CoreInv(Enter(s, now))
  {
    EnterKeepsQueues(s.queues, s.cfg, s.clock, now);
    EnterKeepsAges(s.queues, s.lastReap, s.clock, now);
  }

  // Release, when what it does to the ledger, stray tokens and calls is in order.
  lemma ReturnKeepsCore(s: Sys, r: Sys, tokens: int, now: Time)
    requires CoreInv(s) && s.pc == Free && s.clock <= now
    requires r == s.(calls := r.calls, faults := r.faults)
    requires CallsOk(r.calls, Free) && LinksOk(r.queues, r.calls) && NoneLost(r.queues, r.calls)
    requires s.outstanding - tokens + r.faults.stray == Live(r.calls)
    ensures CoreInv(Return(r, tokens, now))
  {
    LinksGiveShape(r.queues, r.calls);
    if s.outstanding - tokens >= 0 {
      TickKeepsCore(s, now);
    }
  }

  lemma ReleaseKeepsCore(s: Sys, k: nat, now: Time)
    requires CoreInv(s) && Enabled(s, Release(k, now))
    ensures CoreInv(Apply(s, Release(k, now)))
  {
    assert CallOk(s.calls[k], false);
    var c := s.calls[k].(released := true);
    LiveUpdate(s.calls, k, c);
    CallChangeKeepsLinks(s.queues, s.calls, k, c);
    CallChangeKeepsCalls(s.calls, Free, k, c);
    ReturnKeepsCore(s, s.(calls := s.calls[k := c]), s.calls[k].demand, now);
  }

  // Nothing is asked of the ledger once tokens were returned that nobody held, but that they are counted.
  lemma StrayKeepsCore(s: Sys, tokens: int, now: Time)
    requires CoreInv(s) && s.pc == Free && s.clock <= now
    ensures CoreInv(Return(s.(faults := s.faults.Returned(tokens)), tokens, now))
  {
    ReturnKeepsCore(s, s.(faults := s.faults.Returned(tokens)), tokens, now);
  }

  lemma NewCallKeepsLinks(queues: seq<Queue>, calls: seq<Call>, c: Call)
    requires LinksOk(queues, calls) && NoneLost(queues, calls)
    requires AtHome(queues, |calls|, c)
    ensures LinksOk(queues, calls + [c]) && NoneLost(queues, calls + [c])
  {
  }

  lemma NewCallKeepsCalls(calls: seq<Call>, pc: Pc, c: Call)
    requires CallsOk(calls, Free) && CallOk(c, false) && !pc.Sending?
    ensures CallsOk(calls + [c], pc)
  {
  }

  lemma LinksGiveShape(queues: seq<Queue>, calls: seq<Call>)
    requires LinksOk(queues, calls)
    ensures forall p, j :: 0 <= p < |queues| && 0 <= j < |queues[p].items| ==> queues[p].items[j].id < |calls|
  {
    forall p, j | 0 <= p < |queues| && 0 <= j < |queues[p].items|
      ensures queues[p].items[j].id < |calls|
    {
      assert Linked(queues[p].items[j], p, calls);
    }
  }

  // The parts of the invariant that a grant on arrival touches, besides the debts.
  lemma FastKeepsRest(s: Sys, demand: int, prio: nat, now: Time, forgiven: real)
    requires CoreInv(s) && s.pc == Free && s.clock <= now
    requires Refuses(s, demand, prio) == None && AdmitsAtOnce(s, demand, prio, now)
    ensures var r := AcquireFast(s, demand, prio, now, forgiven);
            && r.pc == Free && s.outstanding + demand <= s.cfg.capacity
            && LedgerOk(r)
            && LinksOk(r.queues, r.calls) && NoneLost(r.queues, r.calls) && CallsOk(r.calls, r.pc)
  {
    assert s.debt[prio].Value(now) >= 0.0;
    var c := FastCall(demand, prio, now);
    LiveAppend(s.calls, c);
    NewCallKeepsLinks(s.queues, s.calls, c);
    NewCallKeepsCalls(s.calls, Free, c);
  }

  lemma AcquireFastKeepsCore(s: Sys, demand: int, prio: nat, now: Time, forgiven: real)
    requires CoreInv(s) && s.pc == Free && s.clock <= now
    requires Refuses(s, demand, prio) == None && AdmitsAtOnce(s, demand, prio, now)
    ensures CoreInv(AcquireFast(s, demand, prio, now, forgiven))
  {
    FastKeepsRest(s, demand, prio, now, forgiven);
    LinksGiveShape(s.queues, s.calls + [FastCall(demand, prio, now)]);
  }

  lemma PushKeepsQueues(queues: seq<Queue>, calls: seq<Call>, cfg: Config, demand: int, prio: nat, t: Time, now: Time)
    requires QueuesOk(queues, cfg, t) && t <= now && LinksOk(queues, calls) && prio < |queues|
    ensures QueuesOk(queues[prio := queues[prio].Push(Item(|calls|, now, demand), now)], cfg, now)
  {
    var q := queues[prio];
    assert forall j :: 0 <= j < |q.items| ==> Linked(q.items[j], prio, calls);
    PushOk(q, Item(|calls|, now, demand), now);
  }

  lemma PushKeepsLinks(queues: seq<Queue>, calls: seq<Call>, demand: int, prio: nat, now: Time)
    requires LinksOk(queues, calls) && NoneLost(queues, calls) && prio < |queues|
    ensures var q := queues[prio];
            var queues' := queues[prio := q.Push(Item(|calls|, now, demand), now)];
            var calls' := calls + [SlowCall(demand, prio, now, !q.Full())];
            LinksOk(queues', calls') && NoneLost(queues', calls')
  {
    var q := queues[prio];
    var item := Item(|calls|, now, demand);
    var q' := q.Push(item, now);
    var queues' := queues[prio := q'];
    var calls' := calls + [SlowCall(demand, prio, now, !q.Full())];
    assert q'.items == if q.Full() then q.items else q.items + [item];
    forall p, j | 0 <= p < |queues'| && 0 <= j < |queues'[p].items|
      ensures Linked(queues'[p].items[j], p, calls')
    {
      assert (p == prio && j == |q.items|) || Linked(queues[p].items[j], p, calls);
    }
    forall k | 0 <= k < |calls'|
      ensures AtHome(queues', k, calls'[k])
    {
      if k < |calls| {
        assert AtHome(queues, k, calls[k]);
        if HasTicket(queues[calls[k].prio].items, k) && calls[k].prio == prio {
          var j :| 0 <= j < |q.items| && q.items[j].id == k;
          assert q'.items[j].id == k;
        }
      } else if !q.Full() {
        assert q'.items[|q.items|].id == k;
      }
    }
  }

  lemma PushKeepsAges(queues: seq<Queue>, prio: nat, item: Item, lastReap: Time, now: Time)
    requires AgesOk(queues, Free, lastReap, now) && prio < |queues|
    requires item.enqueued == now && queues[prio].longTimeout >= 0
    ensures AgesOk(queues[prio := queues[prio].Push(item, now)], Reaping(0), lastReap, now)
  {
  }

  // The parts of the invariant that a new waiter touches, besides the debts.
  lemma SlowKeepsRest(s: Sys, demand: int, prio: nat, now: Time)
    requires CoreInv(s) && s.pc == Free && s.clock <= now
    requires Refuses(s, demand, prio) == None
    ensures var r := AcquireSlow(s, demand, prio, now);
            && LedgerOk(r)
            && LinksOk(r.queues, r.calls) && NoneLost(r.queues, r.calls)
            && CallsOk(r.calls, r.pc) && QueuesOk(r.queues, r.cfg, now)
            && AgesOk(r.queues, r.pc, r.lastReap, now)
  {
    var c := SlowCall(demand, prio, now, !s.queues[prio].Full());
    LiveAppend(s.calls, c);
    NewCallKeepsCalls(s.calls, Reaping(0), c);
    PushKeepsQueues(s.queues, s.calls, s.cfg, demand, prio, s.clock, now);
    PushKeepsLinks(s.queues, s.calls, demand, prio, now);
    PushKeepsAges(s.queues, prio, Item(|s.calls|, now, demand), s.lastReap, now);
  }

  lemma AcquireSlowKeepsCore(s: Sys, demand: int, prio: nat, now: Time)
    requires CoreInv(s) && s.pc == Free && s.clock <= now
    requires Refuses(s, demand, prio) == None && !AdmitsAtOnce(s, demand, prio, now)
    ensures CoreInv(AcquireSlow(s, demand, prio, now))
  {
    SlowKeepsRest(s, demand, prio, now);
    var r := AcquireSlow(s, demand, prio, now);
    LinksGiveShape(r.queues, r.calls);
  }

  lemma CloseKeepsCore(s: Sys)
    requires CoreInv(s) && Enabled(s, Close)
    ensures CoreInv(Apply(s, Close))
  {
  }

  lemma QuitKeepsCore(s: Sys)
    requires CoreInv(s) && Enabled(s, Quit)
    ensures CoreInv(Apply(s, Quit))
  {
  }

  // ---- admit ----

  predicate NeedsQueue(c: Call) {
    c.placed && c.state == Waiting && c.sends == 0
  }

  // Queue i gave up the items outside its stretch [a, b), and the calls of those alone were touched.
  ghost predicate Shrunk(queues: seq<Queue>, calls: seq<Call>, i: nat, a: nat, b: nat, q: Queue, calls': seq<Call>) {
    && i < |queues| && a <= b <= |queues[i].items| && q.items == queues[i].items[a..b]
    && |calls'| == |calls|
    && (forall k :: 0 <= k < |calls| && !HasTicket(queues[i].items, k) ==> calls'[k] == calls[k])
    && forall j :: 0 <= j < |queues[i].items| && queues[i].items[j].id < |calls| ==>
         var k := queues[i].items[j].id;
         if a <= j < b then calls'[k] == calls[k]
         else calls'[k].prio == calls[k].prio && !NeedsQueue(calls'[k])
  }

  lemma ShrinkKeepsLinks(queues: seq<Queue>, calls: seq<Call>, i: nat, a: nat, b: nat, q: Queue, calls': seq<Call>)
    requires LinksOk(queues, calls) && Shrunk(queues, calls, i, a, b, q, calls')
    ensures LinksOk(queues[i := q], calls')
  {
    var queues' := queues[i := q];
    forall p, j | 0 <= p < |queues'| && 0 <= j < |queues'[p].items|
      ensures Linked(queues'[p].items[j], p, calls')
    {
      assert Linked(queues[p].items[if p == i then a + j else j], p, calls);
      if p != i {
        var k := queues[p].items[j].id;
        assert forall h :: 0 <= h < |queues[i].items| ==> Linked(queues[i].items[h], i, calls);
        assert !HasTicket(queues[i].items, k);
      }
    }
  }

  lemma ShrinkLosesNone(queues: seq<Queue>, calls: seq<Call>, i: nat, a: nat, b: nat, q: Queue, calls': seq<Call>)
    requires NoneLost(queues, calls) && Shrunk(queues, calls, i, a, b, q, calls')
    ensures NoneLost(queues[i := q], calls')
  {
    var items := queues[i].items;
    forall k | 0 <= k < |calls|
      ensures AtHome(queues[i := q], k, calls'[k])
    {
      assert AtHome(queues, k, calls[k]);
      if HasTicket(items, k) {
        var j :| 0 <= j < |items| && items[j].id == k;
        if a <= j < b {
          assert q.items[j - a].id == k;
        }
      }
    }
  }

  lemma ReapShrinks(queues: seq<Queue>, calls: seq<Call>, i: nat, t: Time)
    requires i < |queues| && Arrived(queues[i].items) && LinksOk(queues, calls)
    ensures var q := queues[i];
            Shrunk(queues, calls, i, |q.Shed(t)|, |q.items|, q.Reap(t), DropAll(calls, q.Shed(t)))
  {
    var q := queues[i];
    var n := |q.Shed(t)|;
    assert q.Shed(t) == q.items[..n];
    forall j | 0 <= j < |q.items|
      ensures HasTicket(q.Shed(t), q.items[j].id) <==> j < n
    {
      assert j < n ==> q.Shed(t)[j].id == q.items[j].id;
    }
    forall k | HasTicket(q.Shed(t), k)
      ensures HasTicket(q.items, k)
    {
      var j :| 0 <= j < n && q.Shed(t)[j].id == k;
      assert q.items[j].id == k;
    }
  }

  lemma ReapKeepsLinks(queues: seq<Queue>, calls: seq<Call>, i: nat, t: Time)
    requires LinksOk(queues, calls) && NoneLost(queues, calls) && i < |queues| && Arrived(queues[i].items)
    ensures var q := queues[i];
            var queues' := queues[i := q.Reap(t)];
            var calls' := DropAll(calls, q.Shed(t));
            LinksOk(queues', calls') && NoneLost(queues', calls')
  {
    var q := queues[i];
    ReapShrinks(queues, calls, i, t);
    ShrinkKeepsLinks(queues, calls, i, |q.Shed(t)|, |q.items|, q.Reap(t), DropAll(calls, q.Shed(t)));
    ShrinkLosesNone(queues, calls, i, |q.Shed(t)|, |q.items|, q.Reap(t), DropAll(calls, q.Shed(t)));
  }

  lemma DropKeepsCalls(queues: seq<Queue>, calls: seq<Call>, i: nat, t: Time, pc: Pc)
    requires LinksOk(queues, calls) && CallsOk(calls, pc) && !pc.Sending? && i < |queues|
    ensures var calls' := DropAll(calls, queues[i].Shed(t));
            CallsOk(calls', pc) && Live(calls') == Live(calls)
  {
    var shed := queues[i].Shed(t);
    var calls' := DropAll(calls, shed);
    forall k | 0 <= k < |calls|
      ensures CallOk(calls'[k], false) && Weight(calls'[k]) == Weight(calls[k])
    {
      assert CallOk(calls[k], false);
      if HasTicket(shed, k) {
        var h :| 0 <= h < |shed| && shed[h].id == k;
        assert Linked(queues[i].items[h], i, calls);
      }
    }
    LiveSame(calls, calls');
  }

  lemma ReapSettles(q: Queue, t: Time)
    ensures Settled(q.Reap(t), t)
  {
  }

  lemma ReapKeepsYoung(q: Queue, limit: Duration, t: Time, lastReap: Time)
    requires YoungerAt(q, limit, lastReap)
    ensures YoungerAt(q.Reap(t), limit, lastReap)
  {
    var n := |q.Shed(t)|;
    forall j | 0 <= j < |q.Reap(t).items|
      ensures lastReap - q.Reap(t).items[j].enqueued <= limit
    {
      assert q.Reap(t).items[j] == q.items[n + j];
    }
  }

  lemma ReapKeepsAge(q: Queue, p: nat, pc: Pc, lastReap: Time, t: Time)
    requires QueueOk(q, t) && YoungerAt(q, q.longTimeout, lastReap) && pc == Reaping(p + 1)
    ensures AgeOk(q.Reap(t), p, pc, lastReap, t)
  {
    ReapIsFilter(q, t);
    ReapSettles(q, t);
    ReapKeepsYoung(q, q.longTimeout, t, lastReap);
  }

  lemma ReapKeepsAges(queues: seq<Queue>, cfg: Config, i: nat, lastReap: Time, t: Time)
    requires QueuesOk(queues, cfg, t) && AgesOk(queues, Reaping(i), lastReap, t) && i < |queues|
    ensures AgesOk(queues[i := queues[i].Reap(t)], Reaping(i + 1), lastReap, t)
    ensures QueuesOk(queues[i := queues[i].Reap(t)], cfg, t)
  {
    var q := queues[i];
    assert AgeOk(q, i, Reaping(i), lastReap, t);
    ReapKeepsAge(q, i, Reaping(i + 1), lastReap, t);
    ReapOk(q, t);
    forall p | 0 <= p < |queues| && p != i
      ensures AgeOk(queues[p], p, Reaping(i + 1), lastReap, t)
    {
      assert AgeOk(queues[p], p, Reaping(i), lastReap, t);
    }
  }

  lemma ReapedAllAges(queues: seq<Queue>, cfg: Config, lastReap: Time, t: Time)
    requires QueuesOk(queues, cfg, t) && AgesOk(queues, Reaping(|queues|), lastReap, t)
    ensures AgesOk(queues, Serving(0), t, t)
  {
    forall p | 0 <= p < |queues|
      ensures AgeOk(queues[p], p, Serving(0), t, t)
    {
      assert AgeOk(queues[p], p, Reaping(|queues|), lastReap, t);
    }
  }

  lemma ReapKeepsArmed(queues: seq<Queue>, i: nat, t: Time, hasWaiters: bool)
    requires i < |queues| && ArmedOk(queues, hasWaiters, false)
    ensures ArmedOk(queues[i := queues[i].Reap(t)], hasWaiters, false)
  {
  }

  lemma ReapOneKeepsCore(s: Sys, i: nat)
    requires CoreInv(s) && s.pc == Reaping(i) && i < |s.queues|
    ensures CoreInv(ReapStep(s, i))
  {
    var r := ReapStep(s, i);
    ReapKeepsLinks(s.queues, s.calls, i, s.clock);
    DropKeepsCalls(s.queues, s.calls, i, s.clock, s.pc);
    ReapKeepsAges(s.queues, s.cfg, i, s.lastReap, s.clock);
    ReapKeepsArmed(s.queues, i, s.clock, s.hasWaiters);
    LinksGiveShape(r.queues, r.calls);
    assert CallsOk(r.calls, r.pc);
  }

  lemma ReapKeepsCore(s: Sys)
    requires CoreInv(s) && s.pc.Reaping?
    ensures CoreInv(ReapStep(s, s.pc.i))
  {
    if s.pc.i < |s.queues| {
      ReapOneKeepsCore(s, s.pc.i);
    } else {
      ReapedAllAges(s.queues, s.cfg, s.lastReap, s.clock);
    }
  }

  lemma ServeKeepsAges(queues: seq<Queue>, pc: Pc, pc': Pc, t: Time)
    requires AgesOk(queues, pc, t, t) && !pc.Free? && !pc.Reaping? && !pc'.Reaping?
    ensures AgesOk(queues, pc', t, t)
  {
    forall p | 0 <= p < |queues|
      ensures AgeOk(queues[p], p, pc', t, t)
    {
      assert AgeOk(queues[p], p, pc, t, t);
    }
  }

  // Whoever fits beside its debt fits without it, for no debt is negative.
  lemma ServeKeepsLedger(s: Sys)
    requires Shape(s) && LedgerOk(s) && s.pc.Serving?
    ensures LedgerOk(ServeStep(s, s.pc.i))
  {
    var i := s.pc.i;
    if i < |s.queues| {
      assert s.debt[i].Value(s.clock) >= 0.0;
    }
  }

  lemma ServeKeepsPriority(s: Sys)
    requires Shape(s) && s.pc.Serving? && PriorityOk(s.queues, s.pc) && ArmedOk(s.queues, s.hasWaiters, false)
    ensures var r := ServeStep(s, s.pc.i);
            PriorityOk(r.queues, r.pc) && ArmedOk(r.queues, r.hasWaiters, r.pc == Free)
  {
  }

  lemma ServeKeepsCore(s: Sys)
    requires CoreInv(s) && s.pc.Serving?
    ensures CoreInv(ServeStep(s, s.pc.i))
  {
    ServeKeepsPriority(s);
    var i := s.pc.i;
    ServeKeepsAges(s.queues, s.pc, ServeStep(s, i).pc, s.clock);
    ServeKeepsLedger(s);
  }

  lemma PopKeepsQueues(queues: seq<Queue>, cfg: Config, i: nat, t: Time)
    requires QueuesOk(queues, cfg, t) && i < |queues|
    ensures QueuesOk(queues[i := queues[i].Pop(t)], cfg, t)
  {
    PopOk(queues[i], t);
  }

  lemma PopKeepsAges(queues: seq<Queue>, i: nat, pc: Pc, pc': Pc, t: Time)
    requires AgesOk(queues, pc, t, t) && i < |queues| && pc.Popping? && (pc'.Serving? || pc'.Sending?)
    ensures AgesOk(queues[i := queues[i].Pop(t)], pc', t, t)
  {
  }

  lemma PopShrinks(queues: seq<Queue>, calls: seq<Call>, i: nat, t: Time, a: nat, b: nat)
    requires i < |queues| && queues[i].items != [] && Arrived(queues[i].items)
    requires if queues[i].mode == FIFO then a == 1 && b == |queues[i].items| else a == 0 && b == |queues[i].items| - 1
    requires queues[i].Next().id < |calls|
    ensures Shrunk(queues, calls, i, a, b, queues[i].Pop(t), Swap(calls, queues[i].Next().id))
  {
    var q := queues[i];
    var at := if a == 1 then 0 else b;
    assert q.Next() == q.items[at];
    assert HasTicket(q.items, q.Next().id);
    forall j | 0 <= j < |q.items| && j != at
      ensures q.items[j].id != q.Next().id
    {
      assert if j < at then q.items[j].id < q.items[at].id else q.items[at].id < q.items[j].id;
    }
  }

  lemma PopKeepsLinks(queues: seq<Queue>, calls: seq<Call>, i: nat, t: Time)
    requires LinksOk(queues, calls) && NoneLost(queues, calls)
    requires i < |queues| && queues[i].items != [] && Arrived(queues[i].items)
    requires queues[i].Next().id < |calls|
    ensures var queues' := queues[i := queues[i].Pop(t)];
            var calls' := Swap(calls, queues[i].Next().id);
            LinksOk(queues', calls') && NoneLost(queues', calls')
  {
    var q := queues[i];
    var a := if q.mode == FIFO then 1 else 0;
    var b := if q.mode == FIFO then |q.items| else |q.items| - 1;
    PopShrinks(queues, calls, i, t, a, b);
    ShrinkKeepsLinks(queues, calls, i, a, b, q.Pop(t), Swap(calls, q.Next().id));
    ShrinkLosesNone(queues, calls, i, a, b, q.Pop(t), Swap(calls, q.Next().id));
  }

  lemma AdmissionKeepsCalls(calls: seq<Call>, pc: Pc, pc': Pc, k: nat)
    requires CallsOk(calls, pc) && !pc.Sending? && k < |calls|
    requires pc'.Sending? && pc'.ticket == k
    requires calls[k].state == Waiting && calls[k].placed && calls[k].sends == 0
    ensures CallsOk(calls[k := calls[k].(state := Admitted)], pc')
  {
    assert CallOk(calls[k], false);
  }

  lemma PopKeepsLedger(s: Sys)
    requires CoreInv(s) && s.pc.Popping? && s.queues[s.pc.i].Next().id < |s.calls|
    requires Linked(s.queues[s.pc.i].Next(), s.pc.i, s.calls)
    ensures LedgerOk(PopStep(s, s.pc.i, s.pc.charge))
  {
    var k := s.queues[s.pc.i].Next().id;
    if s.calls[k].state == Waiting {
      LiveUpdate(s.calls, k, s.calls[k].(state := Admitted));
    }
  }

  lemma PopKeepsCore(s: Sys)
    requires CoreInv(s) && s.pc.Popping?
    ensures s.queues[s.pc.i].Next().id < |s.calls| && CoreInv(PopStep(s, s.pc.i, s.pc.charge))
  {
    var i := s.pc.i;
    var q := s.queues[i];
    var k := q.Next().id;
    NextLinked(s.queues, i, s.calls);
    var r := PopStep(s, i, s.pc.charge);
    PopKeepsQueues(s.queues, s.cfg, i, s.clock);
    PopKeepsAges(s.queues, i, s.pc, r.pc, s.clock);
    PopKeepsLinks(s.queues, s.calls, i, s.clock);
    PopKeepsLedger(s);
    LinksGiveShape(r.queues, r.calls);
    if s.calls[k].state == Waiting {
      AdmissionKeepsCalls(s.calls, s.pc, r.pc, k);
    }
  }

  lemma SignalKeepsCalls(calls: seq<Call>, pc: Pc, k: nat, c: Call)
    requires CallsOk(calls, pc) && pc.Sending? && pc.ticket == k && k < |calls|
    requires c == calls[k].(chan := calls[k].chan + [true], sends := calls[k].sends + 1)
    ensures CallsOk(calls[k := c], Serving(pc.i)) && Weight(c) == Weight(calls[k])
  {
    assert CallOk(calls[k], true);
  }

  lemma SendKeepsLedger(s: Sys)
    requires s.pc.Sending? && LedgerOk(s) && s.pc.ticket < |s.calls|
    ensures LedgerOk(SendStep(s, s.pc.i, s.pc.ticket, s.pc.charge))
  {
    var c := s.calls[s.pc.ticket];
    LiveUpdate(s.calls, s.pc.ticket, c.(chan := c.chan + [true], sends := c.sends + 1));
  }

  lemma SendKeepsCore(s: Sys)
    requires CoreInv(s) && s.pc.Sending?
    ensures CoreInv(SendStep(s, s.pc.i, s.pc.ticket, s.pc.charge))
  {
    var k := s.pc.ticket;
    assert CallOk(s.calls[k], true);
    var c := s.calls[k].(chan := s.calls[k].chan + [true], sends := s.calls[k].sends + 1);
    SignalKeepsCalls(s.calls, s.pc, k, c);
    SendKeepsLedger(s);
    CallChangeKeepsLinks(s.queues, s.calls, k, c);
    ServeKeepsAges(s.queues, s.pc, Serving(s.pc.i), s.clock);
    LinksGiveShape(s.queues, s.calls[k := c]);
  }

  // ---- Every event, every run ----

  lemma LockKeepsCore(s: Sys)
    requires CoreInv(s) && Enabled(s, Lock)
    ensures CoreInv(LockStep(s))
  {
    match s.pc
    case Reaping(_) => ReapKeepsCore(s);
    case Serving(_) => ServeKeepsCore(s);
    case Popping(_, _) => PopKeepsCore(s);
    case Sending(_, _, _) => SendKeepsCore(s);
  }

  lemma AcquireKeepsCore(s: Sys, demand: int, prio: int, now: Time)
    requires CoreInv(s) && Enabled(s, Acquire(demand, prio, now))
    ensures CoreInv(Apply(s, Acquire(demand, prio, now)))
  {
    if Refuses(s, demand, prio) == None {
      if AdmitsAtOnce(s, demand, prio, now) {
        AcquireFastKeepsCore(s, demand, prio, now, s.cfg.Forgiven(demand));
      } else {
        AcquireSlowKeepsCore(s, demand, prio, now);
      }
    }
  }

  lemma StepKeepsCore(s: Sys, e: Event)
    requires CoreInv(s) && Enabled(s, e)
    ensures CoreInv(Apply(s, e))
  {
    match e
    case Acquire(demand, prio, now) => AcquireKeepsCore(s, demand, prio, now);
    case Release(k, now) => ReleaseKeepsCore(s, k, now);
    case Stray(tokens, now) =>
      StrayKeepsCore(s, tokens, now);
      assert Apply(s, e) == Return(s.(faults := s.faults.Returned(tokens)), tokens, now);
    case Tick(now) => TickKeepsCore(s, now);
    case Close => CloseKeepsCore(s);
    case Quit => QuitKeepsCore(s);
    case Lock => LockKeepsCore(s);
    case Expire(_) => WaiterKeepsCore(s, e);
    case Receive(_) => WaiterKeepsCore(s, e);
  }

  lemma LockIsFaultless(s: Sys)
    requires Enabled(s, Lock)
    ensures LockStep(s).faults == s.faults
  {
  }

  // A fault is never taken back.
  lemma FaultsStay(s: Sys, e: Event)
    requires Enabled(s, e)
    ensures s.faults.negative ==> Apply(s, e).faults.negative
    ensures s.faults.strayed ==> Apply(s, e).faults.strayed
  {
    match e
    case Lock => LockIsFaultless(s);
    case Acquire(_, _, _) =>
    case Release(_, _) =>
    case Stray(_, _) =>
    case _ =>
  }

  lemma NoneNegative(s: Sys, e: Event)
    requires Enabled(s, e) && !Apply(s, e).faults.negative
    ensures KeepsOrder(s, e)
  {
  }

  lemma StepKeepsInv(s: Sys, e: Event)
    requires Inv(s) && Enabled(s, e)
    ensures Inv(Apply(s, e))
  {
    StepKeepsCore(s, e);
    FaultsStay(s, e);
    StepKeepsTop(s, e);
    if !Apply(s, e).faults.negative {
      NoneNegative(s, e);
      OrderKeptIff(s, e);
    }
    if Apply(s, e).Fair() {
      StepKeepsFair(s, e);
    }
  }

  lemma {:induction false} RunKeepsInv(s: Sys, es: seq<Event>, t: Sys)
    requires Inv(s) && IsRun(s, es, t)
    ensures Inv(t)
    decreases |es|
  {
    RunHead(s, es, t);
    if es != [] {
      StepKeepsInv(s, es[0]);
      RunKeepsInv(Apply(s, es[0]), es[1..], t);
    }
  }

  lemma InitDebt(debt: seq<Decay>, cfg: Config, since: Time, t: Time)
    requires cfg.Ok() && since <= t
    requires forall i :: 0 <= i < |debt| ==>
               debt[i].last <= t && debt[i] == Decay(0.0, debt[i].last, cfg.DecayPerSec(), cfg.capacity as real)
    ensures DebtIn(debt, cfg, t) && DebtForgotten(debt, since, t) && Sorted(debt, t)
  {
    forall i | 0 <= i < |debt|
      ensures debt[i].InRange() && debt[i].Value(t) == 0.0
    {
      ValueFalls(debt[i], debt[i].last, t);
    }
  }

  lemma InitInv(s: Sys)
    requires Init(s)
    ensures Inv(s)
  {
    InitDebt(s.debt, s.cfg, s.lastPenalty, s.clock);
    assert Live(s.calls) == 0;
  }

  lemma ReachableInv(s: Sys)
    requires Reachable(s)
    ensures Inv(s)
  {
    var s0, es :| Init(s0) && IsRun(s0, es, s);
    InitInv(s0);
    RunKeepsInv(s0, es, s);
  }

  // ---- Extending runs ----

  lemma ReachableStep(s: Sys, e: Event)
    requires Reachable(s) && Enabled(s, e)
    ensures Reachable(Apply(s, e))
  {
    var s0, es :| Init(s0) && IsRun(s0, es, s);
    RunOne(s, e);
    RunChain(s0, es, s, [e], Apply(s, e));
  }

  lemma ReachableRun(s: Sys, es: seq<Event>, t: Sys)
    requires Reachable(s) && IsRun(s, es, t)
    ensures Reachable(t)
  {
    var s0, before :| Init(s0) && IsRun(s0, before, s);
    RunChain(s0, before, s, es, t);
  }

  // The lock holder always has a next action.
  lemma LockReady(s: Sys)
    requires Reachable(s)
    ensures Shape(s)
    ensures s.pc != Free ==> Enabled(s, Lock)
  {
    ReachableInv(s);
  }

  // What may happen while somebody holds the lock: his own actions and those of waiters.
  predicate Inside(es: seq<Event>) {
    forall j :: 0 <= j < |es| ==> es[j] == Lock || es[j].Expire? || es[j].Receive?
  }

  ghost predicate Leads(s: Sys, t: Sys) {
    exists es :: Inside(es) && IsRun(s, es, t)
  }

  lemma LeadsNowhere(s: Sys)
    ensures Leads(s, s)
  {
    NoRun(s);
    assert Inside([]);
  }

  lemma LeadsOn(s: Sys, r: Sys, e: Event)
    requires Leads(s, r) && Enabled(r, e) && Inside([e])
    ensures Leads(s, Apply(r, e))
  {
    var es :| Inside(es) && IsRun(s, es, r);
    RunOne(r, e);
    RunChain(s, es, r, [e], Apply(r, e));
    assert Inside(es + [e]);
  }

  lemma LeadsChain(s: Sys, r: Sys, t: Sys)
    requires Leads(s, r) && Leads(r, t)
    ensures Leads(s, t)
  {
    var es :| Inside(es) && IsRun(s, es, r);
    var fs :| Inside(fs) && IsRun(r, fs, t);
    RunChain(s, es, r, fs, t);
    assert Inside(es + fs);
  }
}

/** The semaphore of backpressure/semaphore.go as the object it is. A ghost field holds the state of
    the transition system of module Admission, every method keeps the object equal to it, and every
    method's effect is a run of that system. */
module Semaphores {
  import opened Wrappers
  import opened Clocks
  import opened Decays
  import opened Queues
  import opened Deques
  import opened CoDels
  import opened Admission
  import opened Invariants
  import opened Preservation
  import opened Theorems
  import opened Actions
  import opened Effects

  // These waiters are those whose tickets the items carry.
  ghost predicate Holds(contents: seq<CoDelWaiter?>, items: seq<Item>, waiters: seq<CoDelWaiter?>) {
    && |contents| == |items|
    && forall j :: 0 <= j < |items| ==> items[j].id < |waiters| && contents[j] == waiters[items[j].id]
  }

  lemma HoldsSlice(contents: seq<CoDelWaiter?>, items: seq<Item>, waiters: seq<CoDelWaiter?>, a: nat, b: nat)
    requires Holds(contents, items, waiters) && a <= b <= |items|
    ensures Holds(contents[a..b], items[a..b], waiters)
  {
  }

  lemma HoldsMore(contents: seq<CoDelWaiter?>, items: seq<Item>, waiters: seq<CoDelWaiter?>,
                  item: Item, w: CoDelWaiter?)
    requires Holds(contents, items, waiters) && item.id == |waiters|
    ensures Holds(contents, items, waiters + [w])
    ensures Holds(contents + [w], items + [item], waiters + [w])
  {
  }

  lemma ShedChannel(q: Queue, now: Time, calls: seq<Call>, k: nat)
    requires forall j :: 0 <= j < |q.items| ==> q.items[j].id < |calls| && calls[q.items[j].id].chan == []
    ensures HasTicket(q.Shed(now), k) ==> k < |calls| && calls[k].chan == []
  {
    if HasTicket(q.Shed(now), k) {
      var j :| 0 <= j < |q.Shed(now)| && q.Shed(now)[j].id == k;
      assert q.Shed(now)[j] == q.items[j];
    }
  }

  // The objects of one tier: its queue and debt, and the deque and array inside the queue.
  datatype Tier = Tier(q: CoDel, d: LinearDecay, deck: Deque<CoDelWaiter?>, cells: array<CoDelWaiter?>)

  class Semaphore {
    const capacity: nat
    var outstanding: int
    const queues: seq<CoDel>
    const debt: seq<LinearDecay>
    var hasWaiters: bool
    var reapTicker: Option<Duration>     // the ticker's period; None once stopped
    var bgDone: bool                     // whether the channel is closed
    var running: bool                    // whether the background goroutine has not returned
    var isClosed: bool
    const longTimeout: Duration
    const debtForgivePerSuccess: real

    // The callers, by ticket: the waiter each holds, null if it was granted on arrival, and what
    // Acquire has answered it.
    var waiters: seq<CoDelWaiter?>
    var answers: seq<Outcome>

    ghost var sys: Sys                   // the transition system's state
    ghost const decks: seq<Deque<CoDelWaiter?>>   // the deque and the array inside each queue
    ghost const arrays: seq<array<CoDelWaiter?>>
    ghost const owner: map<object, nat>  // the index that each queue, deque, array and debt belongs to

    ghost predicate Owner(o: object, i: nat) {
      o in owner && owner[o] == i
    }

    // The four objects of a tier belong to its index.
    static ghost predicate Mine(tier: Tier, own: map<object, nat>, i: nat) {
      && tier.q in own && own[tier.q] == i && tier.d in own && own[tier.d] == i
      && tier.deck in own && own[tier.deck] == i && tier.cells in own && own[tier.cells] == i
    }

    static ghost predicate Built(tier: Tier, queue: Queue, decay: Decay)
      reads tier.q, tier.deck, tier.cells, tier.d
    {
      && tier.q.items == tier.deck && tier.deck.a == tier.cells
      && tier.q.Valid() && tier.deck.Contents == [] && tier.q.q == queue && tier.d.Model() == decay
    }

    static method BuildTier(size: int, shortTimeout: Duration, longTimeout: Duration, created: Time,
                            start: Time, max: real, perSec: real)
      returns (tier: Tier)
      requires size > 0
      ensures fresh(tier.q) && fresh(tier.d) && fresh(tier.deck) && fresh(tier.cells)
      ensures Built(tier, NewQueue(shortTimeout, longTimeout, size, created), Decay(0.0, start, perSec, max))
    {
      var q := new CoDel(shortTimeout, longTimeout, size, created);
      var d := new LinearDecay(start, max, perSec);
      tier := Tier(q, d, q.items, q.items.a);
    }

    // NewSemaphore's loop over the tiers.
    static method Build(sizes: seq<int>, shortTimeout: Duration, longTimeout: Duration, created: seq<Time>,
                        start: Time, max: real, perSec: real)
      returns (tiers: seq<Tier>, ghost own: map<object, nat>)
      requires |created| == |sizes| && forall i :: 0 <= i < |sizes| ==> sizes[i] > 0
      ensures |tiers| == |sizes| && forall o :: o in own ==> fresh(o)
      ensures forall j :: 0 <= j < |tiers| ==> Mine(tiers[j], own, j)
      ensures forall j :: 0 <= j < |tiers| ==>
                Built(tiers[j], NewQueue(shortTimeout, longTimeout, sizes[j], created[j]),
                      Decay(0.0, start, perSec, max))
    {
      tiers, own := [], map[];
      for i := 0 to |sizes|
        invariant |tiers| == i
        invariant forall o :: o in own ==> fresh(o)
        invariant forall j :: 0 <= j < i ==> Mine(tiers[j], own, j)
        invariant forall j :: 0 <= j < i ==>
                    Built(tiers[j], NewQueue(shortTimeout, longTimeout, sizes[j], created[j]),
                          Decay(0.0, start, perSec, max))
      {
        var tier := BuildTier(sizes[i], shortTimeout, longTimeout, created[i], start, max, perSec);
        own := own[tier.q := i][tier.d := i][tier.deck := i][tier.cells := i];
        tiers := tiers + [tier];
      }
    }

    // NewSemaphore: one queue and one debt for each tier. The clock is read once at the start and
    // once by each NewCoDel, never later than now.
    constructor (tiers: seq<int>, cfg: Config, start: Time, created: seq<Time>, now: Time)
      requires cfg.Ok() && |created| == |tiers| && start <= now
      requires forall i :: 0 <= i < |tiers| ==> tiers[i] > 0 && created[i] <= now
      ensures Valid() && Init(sys) && sys.cfg == cfg && sys.clock == now && |queues| == |tiers|
      ensures outstanding == 0 && !hasWaiters && !isClosed && running && waiters == [] && |debt| == |tiers|
      ensures forall i :: 0 <= i < |tiers| ==>
                sys.queues[i].room == tiers[i] && sys.queues[i].items == [] && sys.debt[i].x == 0.0
    {
      var built: seq<Tier>;
      ghost var own;
      built, own := Build(tiers, cfg.shortTimeout, cfg.longTimeout, created,
                          start, cfg.capacity as real, cfg.DecayPerSec());
      capacity, longTimeout, debtForgivePerSuccess := cfg.capacity, cfg.longTimeout, cfg.debtForgivePerSuccess;
      outstanding, hasWaiters, reapTicker, bgDone, isClosed := 0, false, Some(INFINITY), false, false;
      running := true;
      queues := seq(|built|, i requires 0 <= i < |built| => built[i].q);
      debt := seq(|built|, i requires 0 <= i < |built| => built[i].d);
      decks := seq(|built|, i requires 0 <= i < |built| => built[i].deck);
      arrays := seq(|built|, i requires 0 <= i < |built| => built[i].cells);
      owner := own;
      waiters, answers := [], [];
      sys := Fresh(cfg, tiers, start, created, now);
      new;
      FreshInit(cfg, tiers, start, created, now);
    }

    // ---- The debts ----

    ghost predicate DebtIs(ds: seq<Decay>)
      reads debt
    {
      |debt| == |ds| && forall i :: 0 <= i < |debt| ==> Owner(debt[i], i) && debt[i].Model() == ds[i]
    }

    method CanAdmit(now: Time, tokenDemand: int, targetPriority: nat, ghost ds: seq<Decay>) returns (ok: bool)
      requires DebtIs(ds) && targetPriority < |debt|
      modifies debt
      ensures DebtIs(ds[targetPriority := ds[targetPriority].Get(now)])
      ensures ok <==> capacity as real - outstanding as real >= ds[targetPriority].Value(now) + tokenDemand as real
    {
      var available := capacity as real - outstanding as real;
      var owed := debt[targetPriority].Get(now);
      ok := available >= owed + tokenDemand as real;
    }

    // One turn of the loop of a success, then the loop.
    method ForgiveAt(i: nat, now: Time, amount: real, ghost ds: seq<Decay>)
      requires DebtIs(ds) && 0 < i < |debt|
      modifies debt
      ensures DebtIs(ForgiveOne(ds, i, now, amount))
    {
      debt[i].Add(now, -amount);
      var above := debt[i - 1].Get(now);
      debt[i].Floor(now, above);
    }

    method ForgiveLower(targetPriority: nat, now: Time, amount: real, ghost ds: seq<Decay>)
      requires DebtIs(ds) && targetPriority < |debt|
      modifies debt
      ensures DebtIs(Forgive(ds, targetPriority + 1, now, amount))
    {
      ghost var at := ds;
      var i := targetPriority + 1;
      while i < |debt|
        invariant targetPriority < i <= |debt| && DebtIs(at)
        invariant Forgive(at, i, now, amount) == Forgive(ds, targetPriority + 1, now, amount)
      {
        ForgiveAt(i, now, amount, at);
        at := ForgiveOne(at, i, now, amount);
        i := i + 1;
      }
    }

    // The loop of a failure.
    method PenaliseLower(targetPriority: nat, now: Time, amount: real, ghost ds: seq<Decay>)
      requires DebtIs(ds) && targetPriority < |debt|
      modifies debt
      ensures DebtIs(Penalise(ds, targetPriority + 1, now, amount, capacity as real))
    {
      var i := targetPriority + 1;
      while i < |debt|
        invariant targetPriority < i <= |debt|
        invariant forall j :: 0 <= j < |debt| ==>
                    debt[j].Model() == if targetPriority < j < i
                                       then ds[j].Add(now, amount).SetMax(now, capacity as real)
                                       else ds[j]
      {
        debt[i].Add(now, amount);
        debt[i].SetMax(now, capacity as real);
        i := i + 1;
      }
    }

    // ---- The queues and their waiters ----

    // Queue i owns its deque and array and holds the waiters whose tickets q lists.
    ghost predicate QueueIs(i: nat, q: Queue)
      requires i < |queues| == |decks| == |arrays|
      reads this`waiters, queues[i], decks[i], arrays[i]
    {
      && queues[i].items == decks[i] && decks[i].a == arrays[i]
      && Owner(queues[i], i) && Owner(decks[i], i) && Owner(arrays[i], i)
      && queues[i].Valid() && queues[i].q == q
      && Holds(queues[i].items.Contents, q.items, waiters)
    }

    ghost predicate QueuesAre(qs: seq<Queue>)
      reads this`waiters, queues, decks, arrays
    {
      |queues| == |decks| == |arrays| == |qs| && forall i :: 0 <= i < |queues| ==> QueueIs(i, qs[i])
    }

    ghost predicate WaiterIs(k: nat, c: Call)
      requires k < |waiters| == |answers|
      reads this`waiters, this`answers, waiters[k]
    {
      answers[k] == c.outcome &&
      if waiters[k] == null then c.fast
      else waiters[k].state == c.state && waiters[k].c == c.chan
    }

    ghost predicate Numbered()
      reads this`waiters
    {
      forall k :: 0 <= k < |waiters| && waiters[k] != null ==> waiters[k].id == k
    }

    ghost predicate WaitersAre(calls: seq<Call>)
      reads this`waiters, this`answers, waiters
    {
      |waiters| == |answers| == |calls| && Numbered() && forall k :: 0 <= k < |waiters| ==> WaiterIs(k, calls[k])
    }

    // Waiter k stands at position j exactly if the items carry its ticket there, and a reap drops it
    // exactly if that is among the positions shed.
    lemma Position(ws: seq<CoDelWaiter?>, q: Queue, now: Time, k: nat, j: nat)
      requires Holds(ws, q.items, waiters) && Arrived(q.items) && j < |ws| && k < |waiters|
      requires Numbered()
      requires ws[j] == waiters[k] != null
      ensures HasTicket(q.Shed(now), k) <==> j < |q.Shed(now)|
    {
      assert q.items[j].id == k;
      assert j < |q.Shed(now)| ==> q.Shed(now)[j].id == k;
    }

    lemma NotThere(ws: seq<CoDelWaiter?>, q: Queue, now: Time, k: nat)
      requires Holds(ws, q.items, waiters) && k < |waiters|
      requires waiters[k] !in ws
      ensures !HasTicket(q.Shed(now), k)
    {
      assert forall h :: 0 <= h < |q.Shed(now)| ==> q.Shed(now)[h] == q.items[h];
    }

    // A reap of queue i, seen from its waiters.
    method ReapWaiters(i: nat, now: Time, ghost q: Queue)
      requires i < |queues| == |decks| == |arrays| && QueueIs(i, q) && Arrived(q.items)
      requires Numbered()
      requires forall j :: 0 <= j < |q.items| ==> queues[i].items.Contents[j].c == []
      modifies queues[i], decks[i], arrays[i], (set w: CoDelWaiter | w in queues[i].items.Contents)`c
      ensures QueueIs(i, q.Reap(now))
      ensures forall k :: 0 <= k < |waiters| && waiters[k] != null ==>
                waiters[k].c == if HasTicket(q.Shed(now), k) then [false] else old(waiters[k].c)
    {
      ghost var ws := queues[i].items.Contents;
      HoldsSlice(ws, q.items, waiters, |q.Shed(now)|, |q.items|);
      queues[i].Reap(now);
      forall k | 0 <= k < |waiters| && waiters[k] != null
        ensures waiters[k].c == if HasTicket(q.Shed(now), k) then [false] else old(waiters[k].c)
      {
        if waiters[k] in ws {
          var j :| 0 <= j < |ws| && ws[j] == waiters[k];
          Position(ws, q, now, k, j);
        } else {
          NotThere(ws, q, now, k);
        }
      }
    }

    method ReapQueue(i: nat, now: Time, ghost qs: seq<Queue>, ghost calls: seq<Call>)
      requires i < |queues| && QueuesAre(qs) && WaitersAre(calls) && Arrived(qs[i].items)
      requires forall j :: 0 <= j < |qs[i].items| ==> calls[qs[i].items[j].id].chan == []
      requires forall j :: 0 <= j < |qs[i].items| ==>
                 queues[i].items.Contents[j] != null && queues[i].items.Contents[j].c == []
      modifies queues, decks, arrays, waiters
      ensures QueuesAre(qs[i := qs[i].Reap(now)])
      ensures WaitersAre(DropAll(calls, qs[i].Shed(now)))
    {
      assert QueueIs(i, qs[i]);
      ReapWaiters(i, now, qs[i]);
      forall p | 0 <= p < |queues| && p != i
        ensures QueueIs(p, qs[p])
      {
        assert old(QueueIs(p, qs[p]));
      }
      forall k | 0 <= k < |waiters|
        ensures WaiterIs(k, DropAll(calls, qs[i].Shed(now))[k])
      {
        assert old(WaiterIs(k, calls[k]));
        ShedChannel(qs[i], now, calls, k);
      }
    }

    // A pop from queue i, seen from its waiters.
    method PopWaiter(i: nat, now: Time, ghost q: Queue) returns (r: Option<int>)
      requires i < |queues| == |decks| == |arrays| && QueueIs(i, q) && q.items != [] && Numbered()
      requires queues[i].NextWaiter().state == Waiting ==> queues[i].NextWaiter().c == []
      modifies queues[i], decks[i], arrays[i], queues[i].NextWaiter()
      ensures QueueIs(i, q.Pop(now))
      ensures q.Next().id < |waiters| && waiters[q.Next().id] == old(queues[i].NextWaiter())
      ensures var w := old(queues[i].NextWaiter());
              if old(w.state) == Waiting then r == Some(q.Next().demand) && w.state == Admitted && w.c == [true]
              else r == None && w.state == old(w.state) && w.c == old(w.c)
    {
      ghost var ws := queues[i].items.Contents;
      var a, b := if q.mode == FIFO then 1 else 0, if q.mode == FIFO then |ws| else |ws| - 1;
      HoldsSlice(ws, q.items, waiters, a, b);
      r := queues[i].Pop(now);
    }

    method PopQueue(i: nat, now: Time, ghost qs: seq<Queue>, ghost calls: seq<Call>) returns (r: Option<int>)
      requires i < |queues| && QueuesAre(qs) && WaitersAre(calls) && qs[i].items != []
      requires qs[i].Next().id < |calls| && !calls[qs[i].Next().id].fast && calls[qs[i].Next().id].chan == []
      requires QueueIs(i, qs[i])
      modifies queues, decks, arrays, waiters
      ensures var k := qs[i].Next().id;
              && QueuesAre(qs[i := qs[i].Pop(now)])
              && r == (if calls[k].state == Waiting then Some(qs[i].Next().demand) else None)
              && WaitersAre(AfterPop(calls, k))
    {
      ghost var k := qs[i].Next().id;
      NextHeld(i, qs[i]);
      assert WaiterIs(k, calls[k]);
      r := PopWaiter(i, now, qs[i]);
      forall p | 0 <= p < |queues| && p != i
        ensures QueueIs(p, qs[p])
      {
        assert old(QueueIs(p, qs[p]));
      }
      forall h | 0 <= h < |waiters| && h != k
        ensures WaiterIs(h, calls[h])
      {
        assert old(WaiterIs(h, calls[h]));
      }
    }

    lemma NextHeld(i: nat, q: Queue)
      requires i < |queues| == |decks| == |arrays| && QueueIs(i, q) && q.items != []
      ensures q.Next().id < |waiters| && waiters[q.Next().id] == queues[i].NextWaiter()
    {
    }

    method PushWaiter(i: nat, now: Time, demand: int, ghost q: Queue) returns (cw: CoDelWaiter)
      requires i < |queues| == |decks| == |arrays| && QueueIs(i, q) && |answers| == |waiters|
      modifies queues[i], decks[i], arrays[i], this`waiters, this`answers
      ensures fresh(cw) && waiters == old(waiters) + [cw] && answers == old(answers) + [Pending]
      ensures cw.Item() == Item(|old(waiters)|, now, demand) && cw.state == Waiting && cw.c == []
      ensures QueueIs(i, q.Push(cw.Item(), now))
    {
      cw := new CoDelWaiter(now, demand, |waiters|);
      ghost var item := Item(|waiters|, now, demand);
      HoldsMore(queues[i].items.Contents, q.items, waiters, item, cw);
      queues[i].Push(cw, now);
      waiters, answers := waiters + [cw], answers + [Pending];
    }

    // ---- The object and the transition system ----

    ghost predicate FieldsAre(s: Sys)
      reads this`outstanding, this`hasWaiters, this`reapTicker, this`bgDone, this`running, this`isClosed
    {
      && capacity == s.cfg.capacity && longTimeout == s.cfg.longTimeout
      && debtForgivePerSuccess == s.cfg.debtForgivePerSuccess
      && outstanding == s.outstanding && hasWaiters == s.hasWaiters
      && reapTicker == s.ticker && isClosed == bgDone == s.closed && running == s.running
    }

    // The object is in state s.
    ghost predicate Is(s: Sys)
      reads this`outstanding, this`hasWaiters, this`reapTicker, this`bgDone, this`running, this`isClosed
      reads this`waiters, this`answers
      reads debt, queues, decks, arrays, waiters
    {
      FieldsAre(s) && DebtIs(s.debt) && QueuesAre(s.queues) && WaitersAre(s.calls)
    }

    // The object is in the state sys, which the system can reach.
    ghost predicate Valid()
      reads this, debt, queues, decks, arrays, waiters
    {
      Is(sys) && Reachable(sys)
    }

    // The object is in state t already; now sys says so.
    ghost method Move(t: Sys)
      requires Is(t) && Reachable(t)
      modifies this`sys
      ensures Valid() && sys == t
    {
      sys := t;
    }

    // What the theorems about reachable states say of the object's own fields whenever it is unlocked.
    lemma WhenUnlocked()
      requires Valid() && sys.pc == Free
      ensures outstanding == AllHeld(sys.calls) - sys.faults.stray
      ensures sys.Fair() ==> sys.faults.stray == 0 && 0 <= outstanding <= capacity
      ensures hasWaiters <==> exists i :: 0 <= i < |queues| && queues[i].q.items != []
      ensures !isClosed ==> reapTicker == Some(if hasWaiters then longTimeout else INFINITY)
      ensures !sys.faults.panicked && |queues| > 0 && queues[0].q.items != [] ==>
                outstanding + queues[0].q.Next().demand > capacity
      ensures forall k :: 0 <= k < |waiters| && waiters[k] != null && answers[k] != Pending ==>
                (answers[k] == Granted <==> waiters[k].state == Admitted)
    {
      TokensConserved(sys);
      ReaperArmedExactly(sys);
      forall i | 0 <= i < |queues|
        ensures queues[i].q == sys.queues[i]
      {
        assert QueueIs(i, sys.queues[i]);
      }
      if SomeWaiter(sys.queues) {
        var i :| 0 <= i < |queues| && sys.queues[i].items != [];
        assert queues[i].q.items != [];
      }
      if !sys.faults.panicked && |queues| > 0 && queues[0].q.items != [] {
        NoIdleSlot(sys);
      }
      forall k | 0 <= k < |waiters| && waiters[k] != null && answers[k] != Pending
        ensures answers[k] == Granted <==> waiters[k].state == Admitted
      {
        assert WaiterIs(k, sys.calls[k]);
        ExactlyOneOutcome(sys, k);
      }
    }

    // What Acquire will answer, on the object's own fields: the first guard that fails, or a grant exactly
    // if nobody waits at this priority or above it and the demand fits beside what is taken and owed.
    lemma WhenAsked(tokenDemand: int, targetPriority: int, now: Time)
      requires Valid() && sys.pc == Free && sys.clock <= now
      ensures |queues| == |debt| && |sys.debt| == |sys.queues|
      ensures var r := Expected(sys, tokenDemand, targetPriority, now);
              && (r == Refused(AlreadyClosed) <==> isClosed)
              && (r == Refused(NoCapacity) <==> !isClosed && capacity == 0)
              && (r == Refused(InvalidPriority) <==> !isClosed && capacity > 0 && !(0 <= targetPriority < |queues|))
              && (r == Refused(DemandTooLarge)
                  <==> !isClosed && 0 <= targetPriority < |queues| && tokenDemand > capacity > 0)
              && (r == GrantedNow
                  <==> && !isClosed && capacity > 0 && 0 <= targetPriority < |queues| && tokenDemand <= capacity
                       && (forall i :: 0 <= i <= targetPriority ==> queues[i].q.items == [])
                       && capacity as real - outstanding as real
                          >= debt[targetPriority].Model().Value(now) + tokenDemand as real)
              && r != Unbalanced
    {
      LockReady(sys);
      RefusedIff(sys, tokenDemand, targetPriority, now);
      forall i | 0 <= i < |queues|
        ensures queues[i].q == sys.queues[i]
      {
        assert QueueIs(i, sys.queues[i]);
      }
      if Taken(sys, tokenDemand, targetPriority) {
        GrantedOnArrivalIff(sys, tokenDemand, targetPriority, now);
      }
    }

    // wait, in one of its two branches: the context is done, or a value has arrived.
    method Wait(k: nat, contextDone: bool, ghost calls: seq<Call>)
      requires WaitersAre(calls) && k < |waiters| && waiters[k] != null
      requires contextDone || waiters[k].c != []
      modifies this`answers, waiters[k]
      ensures WaitersAre(calls[k := if contextDone then ExpireStep(calls[k]) else ReceiveStep(calls[k])])
    {
      assert WaiterIs(k, calls[k]);
      var answer: Outcome;
      if contextDone {
        answer := waiters[k].ContextDone();
      } else {
        answer := waiters[k].Receive();
      }
      answers := answers[k := answer];
      forall h | 0 <= h < |waiters| && h != k
        ensures WaiterIs(h, calls[h])
      {
        assert old(WaiterIs(h, calls[h]));
      }
    }

    method WaitTo(k: nat, contextDone: bool, ghost s: Sys, ghost t: Sys)
      requires Is(s) && k < |waiters| && waiters[k] != null && (contextDone || waiters[k].c != [])
      requires t == s.(calls := s.calls[k := if contextDone then ExpireStep(s.calls[k]) else ReceiveStep(s.calls[k])])
      modifies this`answers, waiters[k]
      ensures Is(t)
    {
      Wait(k, contextDone, s.calls);
    }

    // A caller blocked in wait acts.
    method CallerActs(k: nat, contextDone: bool)
      requires Valid() && k < |waiters| && waiters[k] != null && answers[k] == Pending
      requires contextDone || waiters[k].c != []
      modifies this`sys, this`answers, waiters[k]
      ensures Valid()
      ensures Enabled(old(sys), Wakes(k, contextDone)) && sys == Apply(old(sys), Wakes(k, contextDone))
    {
      assert WaiterIs(k, sys.calls[k]);
      ghost var t := WaiterActs(sys, k, contextDone);
      WaitTo(k, contextDone, sys, t);
      Move(t);
    }

    // Any callers act, any number of times: what may happen between two actions of the lock holder.
    method Interleave()
      requires Valid()
      modifies this`sys, this`answers, waiters
      ensures Valid() && Leads(old(sys), sys) && sys.(calls := old(sys).calls) == old(sys)
    {
      ghost var start := sys;
      LeadsNowhere(start);
      var turns: nat := *;
      while turns > 0
        invariant Valid() && Leads(start, sys) && sys.(calls := start.calls) == start
      {
        var k: int := *;
        var contextDone: bool := *;
        if 0 <= k < |waiters| && waiters[k] != null && answers[k] == Pending && (contextDone || waiters[k].c != []) {
          ghost var s := sys;
          CallerActs(k, contextDone);
          LeadsOn(start, s, Wakes(k, contextDone));
        }
        turns := turns - 1;
      }
    }

    // The lock holder's actions inside admit.
    lemma UnsignalledIn(i: nat, qs: seq<Queue>, calls: seq<Call>)
      requires i < |queues| && QueuesAre(qs) && WaitersAre(calls)
      requires forall j :: 0 <= j < |qs[i].items| ==>
                 var k := qs[i].items[j].id; k < |calls| && calls[k].chan == [] && !calls[k].fast
      ensures |queues[i].items.Contents| == |qs[i].items|
      ensures forall j :: 0 <= j < |qs[i].items| ==>
                queues[i].items.Contents[j] != null && queues[i].items.Contents[j].c == []
    {
      assert QueueIs(i, qs[i]);
      forall j | 0 <= j < |qs[i].items|
        ensures queues[i].items.Contents[j] != null && queues[i].items.Contents[j].c == []
      {
        assert WaiterIs(qs[i].items[j].id, calls[qs[i].items[j].id]);
      }
    }

    method ReapTo(i: nat, now: Time, ghost s: Sys) returns (ghost t: Sys)
      requires i < |queues| && Is(s) && Reachable(s) && s.pc == Reaping(i) && now == s.clock
      modifies queues, decks, arrays, waiters
      ensures Is(t) && Reachable(t) && Leads(s, t) && t.pc == Reaping(i + 1) && t.clock == now
    {
      t := ReapReady(s, i);
      UnsignalledIn(i, s.queues, s.calls);
      ReapQueue(i, now, s.queues, s.calls);
    }

    method ReapNext(i: nat, now: Time)
      requires Valid() && sys.pc == Reaping(i) && i < |queues| && now == sys.clock
      modifies this`sys, queues, decks, arrays, waiters
      ensures Valid() && sys.pc == Reaping(i + 1) && sys.clock == now && Leads(old(sys), sys)
    {
      ghost var t := ReapTo(i, now, sys);
      Move(t);
    }

    method PopHeap(i: nat, now: Time, charge: int, ghost s: Sys, ghost t: Sys)
      requires i < |queues| && Is(s) && SameRest(s, t) && now == s.clock
      requires s.queues[i].items != [] && s.queues[i].Next().demand == charge
      requires var k := s.queues[i].Next().id;
               && k < |s.calls| && s.calls[k].chan == [] && !s.calls[k].fast
               && t.calls == AfterPop(s.calls, k)
               && t.outstanding == s.outstanding + (if s.calls[k].state == Waiting then charge else 0)
      requires t.queues == s.queues[i := s.queues[i].Pop(now)]
      modifies this`outstanding, queues, decks, arrays, waiters
      ensures Is(t)
    {
      assert QueueIs(i, s.queues[i]);
      var popped := PopQueue(i, now, s.queues, s.calls);
      if popped.Some? {
        outstanding := outstanding + charge;
      }
    }

    method PopTo(i: nat, now: Time, charge: int, ghost s: Sys) returns (ghost t: Sys)
      requires i < |queues| && Is(s) && Reachable(s) && s.pc == Popping(i, charge) && now == s.clock
      modifies this`outstanding, queues, decks, arrays, waiters
      ensures Is(t) && Popped(s, t, i, now)
    {
      PopFacts(s, i, charge);
      t := PopReady(s, i, charge);
      PopHeap(i, now, charge, s, t);
    }

    method PopNext(i: nat, now: Time, charge: int)
      requires Valid() && sys.pc == Popping(i, charge) && i < |queues| && now == sys.clock
      modifies this`sys, this`outstanding, queues, decks, arrays, waiters
      ensures Valid() && Popped(old(sys), sys, i, now)
    {
      ghost var s := sys;
      ghost var t := PopTo(i, now, charge, s);
      Move(t);
    }

    method PeekAt(i: nat, ghost qs: seq<Queue>) returns (next: Option<int>)
      requires i < |queues| && QueuesAre(qs)
      ensures next == if qs[i].items == [] then None else Some(qs[i].Next().demand)
    {
      assert QueueIs(i, qs[i]);
      next := queues[i].Peek();
    }

    method EmptyAt(i: nat, ghost qs: seq<Queue>) returns (empty: bool)
      requires i < |queues| && QueuesAre(qs)
      ensures empty <==> qs[i].items == []
    {
      assert QueueIs(i, qs[i]);
      empty := queues[i].IsEmpty();
    }

    method TestDebt(i: nat, now: Time, demand: int, ghost s: Sys, ghost t: Sys) returns (fits: bool)
      requires Is(s) && i < |debt| && SameRest(s, t.(debt := s.debt)) && t.outstanding == s.outstanding
      requires t.debt == s.debt[i := s.debt[i].Get(now)] && t.queues == s.queues && t.calls == s.calls
      modifies debt
      ensures Is(t) && fits == Fits(s.cfg.capacity, s.outstanding, s.debt[i].Value(now), demand)
    {
      fits := CanAdmit(now, demand, i, s.debt);
    }

    // peek and canAdmit: decide whether queue i's next waiter goes, and stop serving if it does not.
    method TestTo(i: nat, now: Time, ghost s: Sys) returns (next: Option<int>, ghost t: Sys)
      requires i < |queues| && Is(s) && Reachable(s) && s.pc == Serving(i) && now == s.clock
      modifies debt
      ensures Is(t) && Reachable(t) && Leads(s, t) && t.queues == s.queues && t.clock == now && i < |s.queues|
      ensures t.pc == if next.Some? then Popping(i, next.value)
                      else if s.queues[i].items == [] then Serving(i)
                      else Free
    {
      LeadsNowhere(s);
      t := s;
      next := PeekAt(i, s.queues);
      if next.Some? {
        t := TestActs(s, i);
        var fits := TestDebt(i, now, next.value, s, t);
        if !fits {
          next := None;
        }
      }
    }

    method TestNext(i: nat, now: Time) returns (next: Option<int>)
      requires Valid() && sys.pc == Serving(i) && i < |queues| && now == sys.clock
      modifies this`sys, debt
      ensures Valid() && sys.clock == now && Leads(old(sys), sys) && sys.queues == old(sys).queues
      ensures i < |sys.queues|
      ensures sys.pc == if next.Some? then Popping(i, next.value)
                        else if sys.queues[i].items == [] then Serving(i)
                        else Free
    {
      ghost var t: Sys;
      next, t := TestTo(i, now, sys);
      Move(t);
    }

    // One turn of the inner loop of admit: true if a waiter was popped.
    method ServeOne(i: nat, now: Time) returns (more: bool)
      requires Valid() && sys.pc == Serving(i) && i < |queues| && now == sys.clock
      modifies this`sys, this`outstanding, this`answers, debt, queues, decks, arrays, waiters
      ensures Valid() && sys.clock == now && Leads(old(sys), sys) && i < |sys.queues| == |old(sys).queues|
      ensures if more then sys.pc == Serving(i) && |sys.queues[i].items| < |old(sys).queues[i].items|
              else if sys.queues[i].items == [] then sys.pc == Serving(i)
              else sys.pc == Free
    {
      Interleave();
      ghost var s1 := sys;
      var next := TestNext(i, now);
      LeadsChain(old(sys), s1, sys);
      more := next.Some?;
      if more {
        ghost var s2 := sys;
        Interleave();
        LeadsChain(old(sys), s2, sys);
        ghost var s3 := sys;
        PopNext(i, now, next.value);
        LeadsChain(old(sys), s3, sys);
      }
    }

    // The inner loop of admit.
    method ServeQueue(i: nat, now: Time)
      requires Valid() && sys.pc == Serving(i) && i < |queues| && now == sys.clock
      modifies this`sys, this`outstanding, this`answers, debt, queues, decks, arrays, waiters
      ensures Valid() && sys.clock == now && Leads(old(sys), sys) && i < |sys.queues|
      ensures sys.pc == if sys.queues[i].items == [] then Serving(i) else Free
    {
      ghost var start := sys;
      LeadsNowhere(start);
      var more := true;
      while more
        invariant Valid() && sys.clock == now && Leads(start, sys) && i < |sys.queues|
        invariant if more || sys.queues[i].items == [] then sys.pc == Serving(i) else sys.pc == Free
        decreases more, |sys.queues[i].items|
      {
        ghost var s := sys;
        more := ServeOne(i, now);
        LeadsChain(start, s, sys);
      }
    }

    // Moving on from an empty queue.
    ghost method Skip(i: nat)
      requires Valid() && sys.pc == Serving(i) && i < |sys.queues| && sys.queues[i].items == []
      modifies this`sys
      ensures Valid() && sys.pc == Serving(i + 1) && sys.clock == old(sys).clock && Leads(old(sys), sys)
    {
      var t := SkipActs(sys, i);
      Move(t);
    }

    // Every queue is empty: put the ticker to sleep.
    method RestTo(ghost s: Sys, ghost t: Sys)
      requires Is(s) && t == s.(pc := t.pc, hasWaiters := false, ticker := t.ticker)
      requires t.ticker == if s.hasWaiters then Some(INFINITY) else s.ticker
      modifies this`hasWaiters, this`reapTicker
      ensures Is(t)
    {
      if hasWaiters {
        reapTicker := Some(INFINITY);
        hasWaiters := false;
      }
    }

    method Rest()
      requires Valid() && sys.pc == Serving(|queues|)
      modifies this`sys, this`hasWaiters, this`reapTicker
      ensures Valid() && sys.pc == Free && Leads(old(sys), sys)
    {
      ghost var t := RestActs(sys);
      RestTo(sys, t);
      Move(t);
    }

    // One turn of admit's loop over the priorities: true if it goes on to the next.
    method ServeTurn(i: nat, now: Time) returns (goOn: bool)
      requires Valid() && sys.pc == Serving(i) && i < |queues| && now == sys.clock
      modifies this`sys, this`outstanding, this`answers, debt, queues, decks, arrays, waiters
      ensures Valid() && sys.clock == now && Leads(old(sys), sys)
      ensures sys.pc == if goOn then Serving(i + 1) else Free
    {
      ServeQueue(i, now);
      goOn := EmptyAt(i, sys.queues);
      if goOn {
        ghost var s := sys;
        Skip(i);
        LeadsChain(old(sys), s, sys);
      }
    }

    method ServeAll(now: Time) returns (goOn: bool)
      requires Valid() && sys.pc == Serving(0) && now == sys.clock
      modifies this`sys, this`outstanding, this`answers, debt, queues, decks, arrays, waiters
      ensures Valid() && Leads(old(sys), sys)
      ensures sys.pc == if goOn then Serving(|queues|) else Free
    {
      ghost var start := sys;
      LeadsNowhere(start);
      goOn := true;
      var i := 0;
      while goOn && i < |queues|
        invariant i <= |queues| && Valid() && sys.clock == now && Leads(start, sys)
        invariant sys.pc == if goOn then Serving(i) else Free
        decreases |queues| - i
      {
        ghost var s := sys;
        goOn := ServeTurn(i, now);
        LeadsChain(start, s, sys);
        i := i + 1;
      }
    }

    // The second half of admit: serve, and when that leaves every queue empty, rest.
    method Serve(now: Time)
      requires Valid() && sys.pc == Serving(0) && now == sys.clock
      modifies this`sys, this`outstanding, this`answers, this`hasWaiters, this`reapTicker
      modifies debt, queues, decks, arrays, waiters
      ensures Valid() && sys.pc == Free && Leads(old(sys), sys)
    {
      var goOn := ServeAll(now);
      if goOn {
        ghost var s := sys;
        Rest();
        LeadsChain(old(sys), s, sys);
      }
    }

    // One turn of the first half of admit.
    method ReapTurn(i: nat, now: Time)
      requires Valid() && sys.pc == Reaping(i) && i < |queues| && now == sys.clock
      modifies this`sys, this`answers, queues, decks, arrays, waiters
      ensures Valid() && sys.pc == Reaping(i + 1) && sys.clock == now && Leads(old(sys), sys)
    {
      Interleave();
      ghost var s := sys;
      ReapNext(i, now);
      LeadsChain(old(sys), s, sys);
    }

    // The first half of admit.
    method ReapAll(now: Time)
      requires Valid() && sys.pc == Reaping(0) && now == sys.clock
      modifies this`sys, this`answers, queues, decks, arrays, waiters
      ensures Valid() && sys.pc == Reaping(|queues|) && sys.clock == now && Leads(old(sys), sys)
    {
      ghost var start := sys;
      LeadsNowhere(start);
      for i := 0 to |queues|
        invariant Valid() && sys.pc == Reaping(i) && sys.clock == now && Leads(start, sys)
      {
        ghost var s := sys;
        ReapTurn(i, now);
        LeadsChain(start, s, sys);
      }
    }

    ghost method Reaped()
      requires Valid() && sys.pc == Reaping(|queues|)
      modifies this`sys
      ensures Valid() && sys.pc == Serving(0) && sys.clock == old(sys).clock && Leads(old(sys), sys)
    {
      var t := ReapedActs(sys);
      Move(t);
    }

    method Admit(now: Time)
      requires Valid() && sys.pc == Reaping(0) && now == sys.clock
      modifies this`sys, this`outstanding, this`answers, this`hasWaiters, this`reapTicker
      modifies debt, queues, decks, arrays, waiters
      ensures Valid() && sys.pc == Free && Leads(old(sys), sys)
    {
      ReapAll(now);
      ghost var s := sys;
      Reaped();
      LeadsChain(old(sys), s, sys);
      ghost var t := sys;
      Serve(now);
      LeadsChain(old(sys), t, sys);
    }

    // ---- Release, the ticker, Close ----

    method ReturnTo(tokens: int, ghost ticket: Option<nat>, ghost s: Sys, ghost t: Sys)
      requires Is(s) && SameRest(s.(clock := t.clock, faults := t.faults), t)
      requires t.outstanding == s.outstanding - tokens
      requires t.queues == s.queues && (ticket.Some? ==> ticket.value < |s.calls|)
      requires t.calls == Released(s.calls, ticket)
      modifies this`outstanding
      ensures Is(t)
    {
      outstanding := outstanding - tokens;
    }

    // Release up to the call of admit.
    method Returned(tokens: int, now: Time, ghost ticket: Option<nat>) returns (panics: bool)
      requires Valid() && MayReturn(sys, tokens, ticket, now)
      modifies this`sys, this`outstanding
      ensures Valid() && sys == Apply(old(sys), Returning(tokens, ticket, now))
      ensures panics <==> old(outstanding) < tokens
      ensures if panics then sys.pc == Free else sys.pc == Reaping(0) && sys.clock == now
      ensures ticket.Some? && old(sys).Fair() ==> !panics
    {
      ghost var t := ReturnActs(sys, tokens, ticket, now);
      ReturnTo(tokens, ticket, sys, t);
      panics := outstanding < 0;
      Move(t);
    }

    // Gives back the grant whose ticket the caller names; a caller that returns anything else names
    // none. The panic leaves the lock free and outstanding below zero.
    method Release(tokens: int, now: Time, ghost ticket: Option<nat>) returns (r: Result<(), Panic>)
      requires Valid() && MayReturn(sys, tokens, ticket, now)
      modifies this`sys, this`outstanding, this`answers, this`hasWaiters, this`reapTicker
      modifies debt, queues, decks, arrays, waiters
      ensures Valid() && sys.pc == Free && Follows(old(sys), Returning(tokens, ticket, now), sys)
      ensures r == if old(outstanding) < tokens then Err(UnbalancedTokens) else Ok(())
      ensures r.Err? ==> sys == Apply(old(sys), Returning(tokens, ticket, now))
      ensures ticket.Some? && old(sys).Fair() ==> r.Ok?
    {
      var panics := Returned(tokens, now, ticket);
      if panics {
        LeadsNowhere(sys);
        return Err(UnbalancedTokens);
      }
      Admit(now);
      r := Ok(());
    }

    // One turn of the background goroutine's loop: on a tick it runs admit, and when bgDone is closed
    // it may return instead.
    method Background(ticked: bool, now: Time)
      requires Valid() && Enabled(sys, if ticked then Tick(now) else Quit)
      modifies this`sys, this`outstanding, this`answers, this`hasWaiters, this`reapTicker, this`running
      modifies debt, queues, decks, arrays, waiters
      ensures Valid() && sys.pc == Free
      ensures if ticked then Follows(old(sys), Tick(now), sys) else sys == Apply(old(sys), Quit) && bgDone && !running
    {
      ghost var e := if ticked then Tick(now) else Quit;
      ReachableStep(sys, e);
      ghost var t := Apply(sys, e);
      if ticked {
        Move(t);
        Admit(now);
      } else {
        running := false;
        Move(t);
      }
    }

    method Close()
      requires Valid() && sys.pc == Free
      modifies this`sys, this`isClosed, this`bgDone, this`reapTicker
      ensures Valid() && Enabled(old(sys), Event.Close) && sys == Apply(old(sys), Event.Close)
      ensures isClosed && bgDone && reapTicker == if old(isClosed) then old(reapTicker) else None
    {
      LockReady(sys);
      ReachableStep(sys, Event.Close);
      ghost var t := Apply(sys, Event.Close);
      if isClosed {
        return;
      }
      isClosed := true;
      reapTicker := None;
      bgDone := true;
      Move(t);
    }

    // ---- Acquire ----

    method HigherPriorityPresent(targetPriority: nat, ghost qs: seq<Queue>) returns (present: bool)
      requires targetPriority < |queues| && QueuesAre(qs)
      ensures present <==> exists i :: 0 <= i <= targetPriority && qs[i].items != []
    {
      present := false;
      var i := 0;
      while i <= targetPriority
        invariant i <= targetPriority + 1
        invariant forall p :: 0 <= p < i ==> qs[p].items == []
      {
        var empty := EmptyAt(i, qs);
        if !empty {
          return true;
        }
        i := i + 1;
      }
    }

    // Whether the request can be admitted straight.
    method Arrive(tokenDemand: int, targetPriority: nat, now: Time, ghost s: Sys) returns (atOnce: bool)
      requires Is(s) && targetPriority < |queues| == |debt|
      modifies debt
      ensures DebtIs(TestedDebt(s, targetPriority, now)) && QueuesAre(s.queues) && WaitersAre(s.calls)
      ensures atOnce <==> AdmitsAtOnce(s, tokenDemand, targetPriority, now)
    {
      var higher := HigherPriorityPresent(targetPriority, s.queues);
      atOnce := false;
      if !higher {
        atOnce := CanAdmit(now, tokenDemand, targetPriority, s.debt);
      }
    }

    method ForgiveTo(tokenDemand: int, targetPriority: nat, now: Time, ghost cfg: Config, ghost ds: seq<Decay>)
      requires DebtIs(ds) && targetPriority < |debt| && debtForgivePerSuccess == cfg.debtForgivePerSuccess
      modifies debt
      ensures DebtIs(Forgive(ds, targetPriority + 1, now, cfg.Forgiven(tokenDemand)))
    {
      var amount := debtForgivePerSuccess * tokenDemand as real;
      assert amount == cfg.Forgiven(tokenDemand);
      ForgiveLower(targetPriority, now, amount, ds);
    }

    // The tokens are taken: the lower priorities are forgiven some debt and the caller is told.
    method GrantTo(tokenDemand: int, targetPriority: nat, now: Time, ghost s: Sys, ghost t: Sys)
      requires FieldsAre(t) && t.cfg == s.cfg && targetPriority < |s.debt| == |debt|
      requires DebtIs(TestedDebt(s, targetPriority, now)) && QueuesAre(s.queues) && WaitersAre(s.calls)
      requires t.debt == Forgive(TestedDebt(s, targetPriority, now), targetPriority + 1, now,
                                 s.cfg.Forgiven(tokenDemand))
      requires t.queues == s.queues && t.calls == s.calls + [FastCall(tokenDemand, targetPriority, now)]
      modifies this`waiters, this`answers, debt
      ensures Is(t) && waiters == old(waiters) + [null]
    {
      ForgiveTo(tokenDemand, targetPriority, now, s.cfg, TestedDebt(s, targetPriority, now));
      NewCaller(null, Granted, s.queues, s.calls, FastCall(tokenDemand, targetPriority, now));
    }

    // The request is admitted straight.
    method TakeTo(tokenDemand: int, targetPriority: nat, now: Time, ghost s: Sys, ghost t: Sys)
      returns (r: Result<(), Panic>)
      requires FieldsAre(s) && targetPriority < |s.debt| == |debt| && DebtIs(TestedDebt(s, targetPriority, now))
      requires QueuesAre(s.queues) && WaitersAre(s.calls)
      requires SameRest(s.(debt := t.debt, clock := t.clock, faults := t.faults), t) && t.queues == s.queues
      requires t.outstanding == s.outstanding + tokenDemand <= capacity
      requires t.debt == Forgive(TestedDebt(s, targetPriority, now), targetPriority + 1, now,
                                 s.cfg.Forgiven(tokenDemand))
      requires t.calls == s.calls + [FastCall(tokenDemand, targetPriority, now)]
      modifies this`outstanding, this`waiters, this`answers, debt
      ensures r == Ok(()) && Is(t) && waiters == old(waiters) + [null]
    {
      outstanding := outstanding + tokenDemand;
      if outstanding > capacity {
        return Err(UnbalancedTokens);
      }
      GrantTo(tokenDemand, targetPriority, now, s, t);
      r := Ok(());
    }

    // One more caller, standing in no queue.
    method NewCaller(cw: CoDelWaiter?, answer: Outcome, ghost qs: seq<Queue>, ghost calls: seq<Call>, ghost c: Call)
      requires QueuesAre(qs) && WaitersAre(calls) && cw == null && c.fast && c.outcome == answer
      modifies this`waiters, this`answers
      ensures QueuesAre(qs) && WaitersAre(calls + [c]) && waiters == old(waiters) + [cw]
    {
      forall i | 0 <= i < |queues|
        ensures QueueIs(i, qs[i]) && Holds(queues[i].items.Contents, qs[i].items, waiters + [cw])
      {
        assert QueueIs(i, qs[i]);
      }
      assert forall k :: 0 <= k < |waiters| ==> WaiterIs(k, calls[k]);
      waiters, answers := waiters + [cw], answers + [answer];
    }

    method PushQueue(i: nat, now: Time, demand: int, ghost qs: seq<Queue>, ghost calls: seq<Call>)
      returns (cw: CoDelWaiter)
      requires i < |queues| && QueuesAre(qs) && WaitersAre(calls)
      modifies this`waiters, this`answers, queues, decks, arrays
      ensures fresh(cw) && waiters == old(waiters) + [cw]
      ensures QueuesAre(qs[i := qs[i].Push(Item(|calls|, now, demand), now)])
      ensures WaitersAre(calls + [SlowCall(demand, i, now, !qs[i].Full())])
    {
      assert QueueIs(i, qs[i]);
      cw := PushWaiter(i, now, demand, qs[i]);
      forall p | 0 <= p < |queues| && p != i
        ensures QueueIs(p, qs[p])
      {
        assert old(QueueIs(p, qs[p]));
        HoldsMore(queues[p].items.Contents, qs[p].items, old(waiters), Item(|calls|, now, demand), cw);
      }
      forall k | 0 <= k < |calls|
        ensures WaiterIs(k, calls[k])
      {
        assert old(WaiterIs(k, calls[k]));
      }
    }

    // The waiter joins its queue and the reaper is armed.
    method JoinTo(tokenDemand: int, targetPriority: nat, now: Time, ghost s: Sys, ghost t: Sys)
      returns (cw: CoDelWaiter)
      requires FieldsAre(s) && targetPriority < |queues| && DebtIs(t.debt) && QueuesAre(s.queues) && WaitersAre(s.calls)
      requires Joins(s, t, tokenDemand, targetPriority, now)
      modifies this`hasWaiters, this`reapTicker, this`waiters, this`answers, queues, decks, arrays
      ensures Is(t) && fresh(cw) && waiters == old(waiters) + [cw]
    {
      cw := PushQueue(targetPriority, now, tokenDemand, s.queues, s.calls);
      Arm();
    }

    method Arm()
      modifies this`hasWaiters, this`reapTicker
      ensures hasWaiters && reapTicker == if old(hasWaiters) then old(reapTicker) else Some(longTimeout)
    {
      if !hasWaiters {
        reapTicker := Some(longTimeout);
        hasWaiters := true;
      }
    }

    // What the two outcomes of the admission test start from: the test has read a debt.
    ghost predicate Tested(s: Sys, prio: nat, now: Time)
      requires prio < |s.debt|
      reads this`outstanding, this`hasWaiters, this`reapTicker, this`bgDone, this`running, this`isClosed
      reads this`waiters, this`answers
      reads debt, queues, decks, arrays, waiters
    {
      FieldsAre(s) && DebtIs(TestedDebt(s, prio, now)) && QueuesAre(s.queues) && WaitersAre(s.calls)
    }

    // The request is admitted straight.
    method Take(tokenDemand: int, targetPriority: nat, now: Time) returns (r: Result<(), Panic>)
      requires Reachable(sys) && Enabled(sys, Event.Acquire(tokenDemand, targetPriority, now))
      requires Refuses(sys, tokenDemand, targetPriority) == None
      requires Tested(sys, targetPriority, now) && AdmitsAtOnce(sys, tokenDemand, targetPriority, now)
      modifies this`sys, this`outstanding, this`waiters, this`answers, debt
      ensures r == Ok(()) && Valid() && waiters == old(waiters) + [null]
      ensures sys == Apply(old(sys), Event.Acquire(tokenDemand, targetPriority, now)) && sys.pc == Free
    {
      ghost var t := FastActs(sys, tokenDemand, targetPriority, now);
      r := TakeTo(tokenDemand, targetPriority, now, sys, t);
      Move(t);
    }

    // The request is penalised for.
    method PenaliseTo(tokenDemand: int, targetPriority: nat, now: Time, ghost s: Sys) returns (ghost t: Sys)
      requires Reachable(s) && Enabled(s, Event.Acquire(tokenDemand, targetPriority, now))
      requires Refuses(s, tokenDemand, targetPriority) == None && !AdmitsAtOnce(s, tokenDemand, targetPriority, now)
      requires DebtIs(TestedDebt(s, targetPriority, now)) && capacity == s.cfg.capacity
      modifies debt
      ensures DebtIs(t.debt) && Reachable(t) && t == Apply(s, Event.Acquire(tokenDemand, targetPriority, now))
      ensures Joins(s, t, tokenDemand, targetPriority, now)
      ensures t.pc == Reaping(0) && t.clock == now
    {
      t := SlowActs(s, tokenDemand, targetPriority, now);
      PenaliseLower(targetPriority, now, tokenDemand as real, TestedDebt(s, targetPriority, now));
    }

    // The request, penalised for already, joins its queue.
    method Join(tokenDemand: int, targetPriority: nat, now: Time, ghost s: Sys, ghost t: Sys) returns (cw: CoDelWaiter)
      requires FieldsAre(s) && targetPriority < |queues| && DebtIs(t.debt) && QueuesAre(s.queues) && WaitersAre(s.calls)
      requires Joins(s, t, tokenDemand, targetPriority, now)
      requires Reachable(t)
      modifies this`sys, this`hasWaiters, this`reapTicker, this`waiters, this`answers, queues, decks, arrays
      ensures Valid() && sys == t && fresh(cw) && waiters == old(waiters) + [cw]
    {
      cw := JoinTo(tokenDemand, targetPriority, now, s, t);
      Move(t);
    }

    // The request has to wait: Acquire up to the call of admit.
    method Enqueue(tokenDemand: int, targetPriority: nat, now: Time) returns (cw: CoDelWaiter)
      requires Reachable(sys) && Enabled(sys, Event.Acquire(tokenDemand, targetPriority, now))
      requires Refuses(sys, tokenDemand, targetPriority) == None
      requires Tested(sys, targetPriority, now) && !AdmitsAtOnce(sys, tokenDemand, targetPriority, now)
      modifies this`sys, this`waiters, this`answers, this`hasWaiters, this`reapTicker
      modifies debt, queues, decks, arrays
      ensures Valid() && sys == Apply(old(sys), Event.Acquire(tokenDemand, targetPriority, now))
      ensures sys.pc == Reaping(0) && sys.clock == now
      ensures fresh(cw) && waiters == old(waiters) + [cw]
    {
      ghost var t := PenaliseTo(tokenDemand, targetPriority, now, sys);
      cw := Join(tokenDemand, targetPriority, now, sys, t);
    }

    // Acquire past its guards, up to the call of admit.
    method Begin(tokenDemand: int, targetPriority: nat, now: Time) returns (r: Reply, cw: CoDelWaiter?)
      requires Valid() && Enabled(sys, Event.Acquire(tokenDemand, targetPriority, now))
      requires Refuses(sys, tokenDemand, targetPriority) == None
      modifies this`sys, this`outstanding, this`waiters, this`answers, this`hasWaiters, this`reapTicker
      modifies debt, queues, decks, arrays
      ensures Valid() && sys == Apply(old(sys), Event.Acquire(tokenDemand, targetPriority, now))
      ensures if cw == null then sys.pc == Free else sys.pc == Reaping(0) && sys.clock == now
      ensures r == Expected(old(sys), tokenDemand, targetPriority, now)
      ensures waiters == old(waiters) + [cw] && (r == MustWait <==> cw != null) && (cw != null ==> fresh(cw))
    {
      var atOnce := Arrive(tokenDemand, targetPriority, now, sys);
      if atOnce {
        var taken := Take(tokenDemand, targetPriority, now);
        return if taken.Ok? then GrantedNow else Unbalanced, null;
      }
      cw := Enqueue(tokenDemand, targetPriority, now);
      r := MustWait;
    }

    // Acquire once it is past its guards.
    method AcquireChecked(tokenDemand: int, targetPriority: nat, now: Time) returns (r: Reply, cw: CoDelWaiter?)
      requires Valid() && Enabled(sys, Event.Acquire(tokenDemand, targetPriority, now))
      requires Refuses(sys, tokenDemand, targetPriority) == None
      modifies this`sys, this`outstanding, this`waiters, this`answers, this`hasWaiters, this`reapTicker
      modifies debt, queues, decks, arrays, waiters
      ensures Valid() && sys.pc == Free && Follows(old(sys), Event.Acquire(tokenDemand, targetPriority, now), sys)
      ensures r == Expected(old(sys), tokenDemand, targetPriority, now)
      ensures waiters == old(waiters) + [cw] && (r == MustWait <==> cw != null) && (cw != null ==> fresh(cw))
      ensures cw == null ==> TookAndForgave(old(sys), sys, tokenDemand, targetPriority, now)
    {
      ghost var was := sys;
      r, cw := Begin(tokenDemand, targetPriority, now);
      LeadsNowhere(sys);
      if cw != null {
        Admit(now);
      } else {
        GrantedIs(was, tokenDemand, targetPriority, now);
      }
    }

    // The guards of Acquire, in order.
    method Guards(tokenDemand: int, targetPriority: int, ghost s: Sys) returns (why: Option<Refusal>)
      requires FieldsAre(s) && |queues| == |s.queues|
      ensures why == Refuses(s, tokenDemand, targetPriority)
    {
      if isClosed {
        return Some(AlreadyClosed);
      }
      if capacity == 0 {
        return Some(NoCapacity);
      }
      if targetPriority < 0 || targetPriority >= |queues| {
        return Some(InvalidPriority);
      }
      if tokenDemand > capacity {
        return Some(DemandTooLarge);
      }
      why := None;
    }

    // Acquire up to the point where it unlocks. A caller that must wait then goes on in wait, which
    // is CallerActs; the two panics of the guards come back as refusals.
    method Acquire(tokenDemand: int, targetPriority: int, now: Time) returns (r: Reply, cw: CoDelWaiter?)
      requires Valid() && Enabled(sys, Event.Acquire(tokenDemand, targetPriority, now))
      modifies this`sys, this`outstanding, this`waiters, this`answers, this`hasWaiters, this`reapTicker
      modifies debt, queues, decks, arrays, waiters
      ensures Valid() && sys.pc == Free && Follows(old(sys), Event.Acquire(tokenDemand, targetPriority, now), sys)
      ensures r == Expected(old(sys), tokenDemand, targetPriority, now)
      ensures waiters == old(waiters) + (if r.Refused? then [] else [cw])
      ensures r == MustWait <==> cw != null
      ensures cw != null ==> fresh(cw)
      ensures r == GrantedNow ==> TookAndForgave(old(sys), sys, tokenDemand, targetPriority, now)
    {
      var why := Guards(tokenDemand, targetPriority, sys);
      if why.Some? {
        LeadsNowhere(sys);
        return Refused(why.value), null;
      }
      r, cw := AcquireChecked(tokenDemand, targetPriority, now);
    }
  }
}

/** The semaphore of backpressure/semaphore.go as a transition system.

    One event is one atomic action. The goroutine that holds the lock performs Acquire (up to the
    call of admit), Release or Stray (likewise), Tick or Close, and then runs admit one Lock event at
    a time: a reap of one queue, one look at a queue's next waiter, one pop with its
    compare-and-swap, one send. Release returns what a grant holds; Stray is a call of Release with
    any other number of tokens. Quit is the background goroutine's return. Waiters act without the
    lock: Expire is the ctx.Done branch of wait, with its compare-and-swap, and Receive is the branch
    that reads the channel. Waiter events may come between any two events of the lock holder. */
module Admission {
  import opened Wrappers
  import opened Clocks
  import opened Decays
  import opened Queues

  // The ticker period that stands for "never": a year.
  const INFINITY: Duration := 365 * 24 * 3600 * 1000000000

  datatype Config = Config(
    capacity: nat, shortTimeout: Duration, longTimeout: Duration,
    debtForgivePerSuccess: real, debtDecayInterval: Duration)
  {
    predicate Ok() {
      && 0 < shortTimeout <= longTimeout
      && debtDecayInterval > 0
      && 0.0 <= debtForgivePerSuccess <= 1.0
    }

    function DecayPerSec(): (rate: real)
      requires Ok()
    {
      capacity as real / Seconds(debtDecayInterval)
    }

    // What a success forgives each lower priority.
    function Forgiven(demand: int): (amount: real)
      ensures Ok() && demand >= 0 ==> amount >= 0.0
    {
      debtForgivePerSuccess * demand as real
    }
  }

  // One call of Acquire that passed the guards, at the time since. Its ticket is its position in the
  // history. A fast call was granted on arrival and has no waiter; placed tells whether the push
  // found room; chan is the content of the one-slot channel and sends how often it was sent to.
  datatype Call = Call(
    prio: nat, demand: int, since: Time, fast: bool, placed: bool,
    state: WaiterState, chan: seq<bool>, sends: nat, outcome: Outcome, released: bool)

  datatype Reason = Immediate | Served | Shed(mode: Mode)

  // The log: a ticket arrives when it is granted at once or finds room in its queue, and departs
  // when it is granted at once, popped by admit, or dropped by a reap in the given mode.
  datatype Note =
    | Arrival(ticket: nat, prio: nat, time: Time)
    | Departure(ticket: nat, prio: nat, time: Time, reason: Reason)

  // What the lock holder does next. charge is the demand that peek reported.
  datatype Pc =
    | Free
    | Reaping(i: nat)
    | Serving(i: nat)
    | Popping(i: nat, charge: int)
    | Sending(i: nat, ticket: nat, charge: int)

  // What callers did that they should not: the sum of the stray tokens that they returned, whether
  // any ever returned such, whether any ever asked for a negative number, and whether a Release has
  // panicked since admit last started.
  datatype Faults = Faults(stray: int, strayed: bool, negative: bool, panicked: bool) {
    function Returned(tokens: int): (f: Faults) {
      this.(stray := stray + tokens, strayed := true)
    }

    function Asked(demand: int): (f: Faults) {
      this.(negative := negative || demand < 0)
    }
  }

  // The fields of Semaphore, whether the background goroutine runs, the lock holder's position, and
  // the history: calls, log, the time clock read by the latest critical section, the time of the
  // latest reap of all queues, that of the latest Acquire that added debt, and the callers' faults.
  datatype Sys = Sys(
    cfg: Config, outstanding: int, queues: seq<Queue>, debt: seq<Decay>,
    hasWaiters: bool, ticker: Option<Duration>, closed: bool, running: bool,
    pc: Pc, calls: seq<Call>, log: seq<Note>,
    clock: Time, lastReap: Time, lastPenalty: Time, faults: Faults)
  {
    // Callers return what they were granted, once, and ask for no less than nothing.
    predicate Fair() {
      !faults.strayed && !faults.negative
    }
  }

  datatype Refusal = AlreadyClosed | NoCapacity | InvalidPriority | DemandTooLarge

  datatype Event =
    | Acquire(demand: int, prio: int, now: Time)
    | Release(ticket: nat, now: Time)
    | Stray(tokens: int, now: Time)
    | Tick(now: Time)
    | Close
    | Quit
    | Lock
    | Expire(ticket: nat)
    | Receive(ticket: nat)

  // ---- Acquire ----

  // The guards of Acquire, in order.
  function Refuses(s: Sys, demand: int, prio: int): (r: Option<Refusal>) {
    if s.closed then Some(AlreadyClosed)
    else if s.cfg.capacity == 0 then Some(NoCapacity)
    else if prio < 0 || prio >= |s.queues| then Some(InvalidPriority)
    else if demand > s.cfg.capacity then Some(DemandTooLarge)
    else None
  }

  // Some queue at this priority or above it holds a waiter.
  predicate Crowded(queues: seq<Queue>, prio: nat) {
    exists i :: 0 <= i < |queues| && i <= prio && queues[i].items != []
  }

  predicate Fits(capacity: nat, outstanding: int, debt: real, demand: int) {
    capacity as real - outstanding as real >= debt + demand as real
  }

  // One turn of the loop of a fast success: forgive a priority, then floor it at the one above.
  function ForgiveOne(debt: seq<Decay>, i: nat, now: Time, amount: real): (r: seq<Decay>)
    requires 0 < i < |debt|
    ensures |r| == |debt|
  {
    var above := debt[i - 1].Get(now);
    debt[i - 1 := above][i := debt[i].Add(now, -amount).Floor(now, above.x)]
  }

  function Forgive(debt: seq<Decay>, i: nat, now: Time, amount: real): (r: seq<Decay>)
    requires i > 0
    ensures |r| == |debt|
    decreases |debt| - i
  {
    if i >= |debt| then debt else Forgive(ForgiveOne(debt, i, now, amount), i + 1, now, amount)
  }

  function Penalise(debt: seq<Decay>, first: nat, now: Time, amount: real, capacity: real): (r: seq<Decay>)
    ensures |r| == |debt|
    ensures forall i :: 0 <= i < |r| ==>
              r[i] == if i < first then debt[i] else debt[i].Add(now, amount).SetMax(now, capacity)
  {
    seq(|debt|, i requires 0 <= i < |debt| =>
      if i < first then debt[i] else debt[i].Add(now, amount).SetMax(now, capacity))
  }

  // The debts after the admission test: canAdmit reads one, and only when no queue is in the way.
  function TestedDebt(s: Sys, prio: nat, now: Time): (debt: seq<Decay>)
    requires prio < |s.debt|
  {
    if Crowded(s.queues, prio) then s.debt else s.debt[prio := s.debt[prio].Get(now)]
  }

  predicate AdmitsAtOnce(s: Sys, demand: int, prio: nat, now: Time)
    requires prio < |s.debt|
  {
    !Crowded(s.queues, prio) && Fits(s.cfg.capacity, s.outstanding, s.debt[prio].Value(now), demand)
  }

  function FastCall(demand: int, prio: nat, now: Time): (c: Call) {
    Call(prio, demand, now, true, false, Admitted, [], 0, Granted, false)
  }

  function SlowCall(demand: int, prio: nat, now: Time, placed: bool): (c: Call) {
    Call(prio, demand, now, false, placed, Waiting, [], 0, Pending, false)
  }

  // The test for too many tokens ends in a panic, after the lock is given back.
  function AcquireFast(s: Sys, demand: int, prio: nat, now: Time, forgiven: real): (r: Sys)
    requires prio < |s.debt|
  {
    var taken := s.(
      outstanding := s.outstanding + demand, debt := TestedDebt(s, prio, now), clock := now,
      faults := s.faults.Asked(demand));
    if taken.outstanding > s.cfg.capacity then taken
    else
      taken.(
        debt := Forgive(taken.debt, prio + 1, now, forgiven),
        lastPenalty := if forgiven < 0.0 then now else s.lastPenalty,
        calls := s.calls + [FastCall(demand, prio, now)],
        log := s.log + [Arrival(|s.calls|, prio, now), Departure(|s.calls|, prio, now, Immediate)])
  }

  function AcquireSlow(s: Sys, demand: int, prio: nat, now: Time): (r: Sys)
    requires prio < |s.debt| == |s.queues|
  {
    var q := s.queues[prio];
    s.(
      debt := Penalise(TestedDebt(s, prio, now), prio + 1, now, demand as real, s.cfg.capacity as real),
      lastPenalty := if prio + 1 < |s.debt| && demand > 0 then now else s.lastPenalty,
      queues := s.queues[prio := q.Push(Item(|s.calls|, now, demand), now)],
      calls := s.calls + [SlowCall(demand, prio, now, !q.Full())],
      log := s.log + (if q.Full() then [] else [Arrival(|s.calls|, prio, now)]),
      hasWaiters := true,
      ticker := if s.hasWaiters then s.ticker else Some(s.cfg.longTimeout),
      clock := now,
      faults := s.faults.Asked(demand).(panicked := false),
      pc := Reaping(0))
  }

  // The lock is held, the time read and admit called.
  function Enter(s: Sys, now: Time): (r: Sys) {
    s.(clock := now, faults := s.faults.(panicked := false), pc := Reaping(0))
  }

  // Release up to the call of admit. Fewer than no tokens is a panic, after the lock is given back.
  function Return(s: Sys, tokens: int, now: Time): (r: Sys) {
    var left := s.outstanding - tokens;
    if left < 0 then s.(outstanding := left, faults := s.faults.(panicked := true))
    else Enter(s.(outstanding := left), now)
  }

  // ---- admit, one action at a time ----

  predicate HasTicket(items: seq<Item>, ticket: nat) {
    exists j :: 0 <= j < |items| && items[j].id == ticket
  }

  function Dropped(c: Call): (r: Call) {
    c.(chan := c.chan + [false], sends := c.sends + 1)
  }

  function DropAll(calls: seq<Call>, shed: seq<Item>): (r: seq<Call>)
    ensures |r| == |calls|
    ensures forall k :: 0 <= k < |r| ==> r[k] == if HasTicket(shed, k) then Dropped(calls[k]) else calls[k]
  {
    seq(|calls|, k requires 0 <= k < |calls| => if HasTicket(shed, k) then Dropped(calls[k]) else calls[k])
  }

  function ShedLog(shed: seq<Item>, prio: nat, now: Time, mode: Mode): (r: seq<Note>)
    ensures |r| == |shed|
    ensures forall j :: 0 <= j < |r| ==> r[j] == Departure(shed[j].id, prio, now, Shed(mode))
  {
    seq(|shed|, j requires 0 <= j < |shed| => Departure(shed[j].id, prio, now, Shed(mode)))
  }

  function ReapStep(s: Sys, i: nat): (r: Sys)
    requires i <= |s.queues|
  {
    if i < |s.queues| then
      var q := s.queues[i];
      s.(
        queues := s.queues[i := q.Reap(s.clock)],
        calls := DropAll(s.calls, q.Shed(s.clock)),
        log := s.log + ShedLog(q.Shed(s.clock), i, s.clock, q.SetMode(s.clock).mode),
        pc := Reaping(i + 1))
    else
      s.(lastReap := s.clock, pc := Serving(0))
  }

  function ServeStep(s: Sys, i: nat): (r: Sys)
    requires i <= |s.queues| == |s.debt|
  {
    if i == |s.queues| then
      s.(hasWaiters := false, ticker := if s.hasWaiters then Some(INFINITY) else s.ticker, pc := Free)
    else if s.queues[i].items == [] then
      s.(pc := Serving(i + 1))
    else
      var demand := s.queues[i].Next().demand;
      s.(
        debt := s.debt[i := s.debt[i].Get(s.clock)],
        pc := if Fits(s.cfg.capacity, s.outstanding, s.debt[i].Value(s.clock), demand)
              then Popping(i, demand) else Free)
  }

  // The compare-and-swap 0 -> 1 on a waiter's word.
  function Swap(calls: seq<Call>, k: nat): (r: seq<Call>)
    requires k < |calls|
    ensures |r| == |calls|
  {
    if calls[k].state == Waiting then calls[k := calls[k].(state := Admitted)] else calls
  }

  function PopStep(s: Sys, i: nat, charge: int): (r: Sys)
    requires i < |s.queues| && s.queues[i].items != [] && s.queues[i].Next().id < |s.calls|
  {
    var q := s.queues[i];
    var k := q.Next().id;
    var wins := s.calls[k].state == Waiting;
    s.(
      queues := s.queues[i := q.Pop(s.clock)],
      calls := Swap(s.calls, k),
      log := s.log + [Departure(k, i, s.clock, Served)],
      pc := if wins then Sending(i, k, charge) else Serving(i))
  }

  function SendStep(s: Sys, i: nat, k: nat, charge: int): (r: Sys)
    requires k < |s.calls|
  {
    var c := s.calls[k];
    s.(
      calls := s.calls[k := c.(chan := c.chan + [true], sends := c.sends + 1)],
      outstanding := s.outstanding + charge,
      pc := Serving(i))
  }

  // ---- The waiters ----

  function ExpireStep(c: Call): (r: Call) {
    if c.state == Waiting then c.(state := Expired, outcome := Cancelled) else c.(outcome := Granted)
  }

  function ReceiveStep(c: Call): (r: Call)
    requires c.chan != []
  {
    c.(chan := c.chan[1..], outcome := if c.chan[0] then Granted else Rejected)
  }

  // ---- The transition system ----

  // What every action needs in order to make sense.
  ghost predicate Shape(s: Sys) {
    && |s.debt| == |s.queues|
    && (forall p, j :: 0 <= p < |s.queues| && 0 <= j < |s.queues[p].items| ==> s.queues[p].items[j].id < |s.calls|)
    && match s.pc {
         case Reaping(i) => i <= |s.queues|
         case Serving(i) => i <= |s.queues|
         case Popping(i, _) => i < |s.queues| && s.queues[i].items != []
         case Sending(i, k, _) => i < |s.queues| && k < |s.calls|
         case _ => true
       }
  }

  ghost predicate Enabled(s: Sys, e: Event) {
    && Shape(s)
    && match e {
         case Acquire(_, _, now) => s.pc == Free && s.clock <= now
         case Release(k, now) => s.pc == Free && s.clock <= now
                                 && k < |s.calls| && s.calls[k].outcome == Granted && !s.calls[k].released
         case Stray(_, now) => s.pc == Free && s.clock <= now
         case Tick(now) => s.pc == Free && s.clock <= now && s.running
         case Close => s.pc == Free
         case Quit => s.pc == Free && s.closed && s.running
         case Lock => s.pc != Free
         case Expire(k) => k < |s.calls| && s.calls[k].outcome == Pending
         case Receive(k) => k < |s.calls| && s.calls[k].outcome == Pending && s.calls[k].chan != []
       }
  }

  function LockStep(s: Sys): (r: Sys)
    requires Shape(s)
  {
    match s.pc
    case Reaping(i) => ReapStep(s, i)
    case Serving(i) => ServeStep(s, i)
    case Popping(i, charge) => PopStep(s, i, charge)
    case Sending(i, k, charge) => SendStep(s, i, k, charge)
    case _ => s
  }

  function Apply(s: Sys, e: Event): (r: Sys)
    requires Enabled(s, e)
  {
    match e
    case Acquire(demand, prio, now) =>
      if Refuses(s, demand, prio).Some? then s
      else if AdmitsAtOnce(s, demand, prio, now) then AcquireFast(s, demand, prio, now, s.cfg.Forgiven(demand))
      else AcquireSlow(s, demand, prio, now)
    case Release(k, now) =>
      var c := s.calls[k];
      Return(s.(calls := s.calls[k := c.(released := true)]), c.demand, now)
    case Stray(tokens, now) => Return(s.(faults := s.faults.Returned(tokens)), tokens, now)
    case Tick(now) => Enter(s, now)
    case Close => if s.closed then s else s.(closed := true, ticker := None)
    case Quit => s.(running := false)
    case Lock => LockStep(s)
    case Expire(k) => s.(calls := s.calls[k := ExpireStep(s.calls[k])])
    case Receive(k) => s.(calls := s.calls[k := ReceiveStep(s.calls[k])])
  }

  ghost predicate Step(s: Sys, e: Event, t: Sys) {
    Enabled(s, e) && t == Apply(s, e)
  }

  // states[i + 1] results from states[i] by es[i].
  ghost predicate IsPath(states: seq<Sys>, es: seq<Event>) {
    && |states| == |es| + 1
    && forall i, j {:trigger Step(states[i], es[i], states[j])} ::
         0 <= i < |es| && j == i + 1 ==> Step(states[i], es[i], states[j])
  }

  // The events es, in order, lead from s to t.
  ghost predicate IsRun(s: Sys, es: seq<Event>, t: Sys) {
    exists states :: IsPath(states, es) && states[0] == s && states[|es|] == t
  }

  lemma NoRun(s: Sys)
    ensures IsRun(s, [], s)
  {
    assert IsPath([s], []);
  }

  lemma RunOne(s: Sys, e: Event)
    requires Enabled(s, e)
    ensures IsRun(s, [e], Apply(s, e))
  {
    var states := [s, Apply(s, e)];
    assert IsPath(states, [e]);
  }

  // A run is its first step and the run of the rest.
  lemma RunHead(s: Sys, es: seq<Event>, t: Sys)
    requires IsRun(s, es, t)
    ensures es == [] ==> t == s
    ensures es != [] ==> Enabled(s, es[0]) && IsRun(Apply(s, es[0]), es[1..], t)
  {
    var states :| IsPath(states, es) && states[0] == s && states[|es|] == t;
    if es != [] {
      assert Step(states[0], es[0], states[1]);
      forall i, j | 0 <= i < |es[1..]| && j == i + 1
        ensures Step(states[1..][i], es[1..][i], states[1..][j])
      {
        assert Step(states[i + 1], es[i + 1], states[j + 1]);
      }
      assert IsPath(states[1..], es[1..]);
    }
  }

  lemma RunChain(s: Sys, es: seq<Event>, r: Sys, fs: seq<Event>, t: Sys)
    requires IsRun(s, es, r) && IsRun(r, fs, t)
    ensures IsRun(s, es + fs, t)
  {
    var a :| IsPath(a, es) && a[0] == s && a[|es|] == r;
    var b :| IsPath(b, fs) && b[0] == r && b[|fs|] == t;
    var states := a + b[1..];
    forall i, j | 0 <= i < |es + fs| && j == i + 1
      ensures Step(states[i], (es + fs)[i], states[j])
    {
      if i < |es| {
        assert Step(a[i], es[i], a[j]);
      } else {
        assert Step(b[i - |es|], fs[i - |es|], b[j - |es|]);
      }
    }
    assert IsPath(states, es + fs);
  }

  lemma RunFrom(s: Sys, e: Event, es: seq<Event>, t: Sys)
    requires Enabled(s, e) && IsRun(Apply(s, e), es, t)
    ensures IsRun(s, [e] + es, t)
  {
    RunOne(s, e);
    RunChain(s, [e], Apply(s, e), es, t);
  }

  // What NewSemaphore builds: nothing taken, nobody waiting, no debt, the ticker asleep, the
  // background goroutine started.
  ghost predicate Init(s: Sys) {
    && s.cfg.Ok()
    && s.outstanding == 0 && !s.hasWaiters && s.ticker == Some(INFINITY) && !s.closed && s.running
    && s.faults.stray == 0 && s.Fair() && !s.faults.panicked
    && s.pc == Free && s.calls == [] && s.log == []
    && s.lastReap <= s.clock && s.lastPenalty <= s.clock
    && |s.debt| == |s.queues|
    && (forall p :: 0 <= p < |s.queues| ==>
          && s.queues[p].room > 0 && s.queues[p].lastEmptied <= s.clock
          && s.queues[p] == NewQueue(s.cfg.shortTimeout, s.cfg.longTimeout, s.queues[p].room, s.queues[p].lastEmptied))
    && (forall p :: 0 <= p < |s.debt| ==>
          && s.debt[p].last <= s.clock
          && s.debt[p] == Decay(0.0, s.debt[p].last, s.cfg.DecayPerSec(), s.cfg.capacity as real))
  }

  ghost predicate Reachable(s: Sys) {
    exists s0, es :: Init(s0) && IsRun(s0, es, s)
  }
}

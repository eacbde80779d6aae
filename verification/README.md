# Catfish admission control and SCRAM, verified

Catfish is a Postgres proxy that admits queries through a prioritized semaphore. This project models
that semaphore with everything under it, and the SCRAM-SHA-256 exchange by which a client logs in, and
proves what the two are for.

`dafny verify dfyconfig.toml` checks the whole project.

## What is modelled

- **The ring buffer** (`Deque.dfy`): the deque of utils/deque as a class over an array, proved to be a
  bounded sequence through every wrap-around, from `New` and from the zero value.
- **The decaying debt** (`Decay.dfy`): a lazily evaluated value and the continuous decay that it stands for.
- **The CoDel queue** (`Queue.dfy`, `QueueHistory.dfy`, `CoDel.dfy`): what each operation computes, as
  functions on a value; the mode as a function of history; and the waiter and queue classes proved equal to
  those functions.
- **The semaphore as a transition system** (`Admission.dfy`): one event per atomic action. The lock
  holder's actions are Acquire up to admit, Release, Tick, Close, a reap of one queue, a look at a
  queue's next waiter (peek and canAdmit), a pop with its compare-and-swap, and the send with the charge
  that follows. A waiter's own actions, its context firing or a receive from its channel, may come
  between any two of these.
- **What every event keeps** (`Invariants.dfy`, `Fairness.dfy`, `Preservation.dfy`) and what follows for
  every reachable state and every run (`Theorems.dfy`, `Runs.dfy`, `Order.dfy`, `Closing.dfy`), with
  concrete runs where a result says that something goes wrong (`Witnesses.dfy`, `FaultyCallers.dfy`,
  `AbandonedExample.dfy`). What Acquire's loops make of the debts stands by itself in `Debts.dfy`, and what each event does, told on
  fields, times and amounts alone, in `Effects.dfy`; `Relief.dfy` adds up what successes forgive.
- **The semaphore as an object** (`Actions.dfy`, `Semaphore.dfy`): the class with its queues, debts and waiters on the
  heap. Its ghost field `sys` is a state of the transition system; `Valid()` says that the object is in
  that state and that the system can reach it; each method's effect is a run of the system that starts
  with that method's event. So every theorem about reachable states holds of the object. `Interleave`
  stands for the other goroutines and is called between the actions of admit. The fields `waiters` and
  `answers` are the callers' side: the waiter that each blocked caller holds, and what Acquire has
  answered it.
- **SCRAM** (`Scram.dfy`): the two parsers, the proof and the signature, against the client that section 3
  of RFC 5802 describes.

Callers may do anything. A call of Release that matches no grant is the event `Stray`, and a negative
demand is let through as the source lets it through. Flags record whether either ever happened. Most
results hold in spite of them; the few that need callers without such faults say so, with `Fair()` for both
and `!faults.negative` for the second alone, and have the exact condition beside them.

Times are integers in nanoseconds and never go back from one critical section to the next. Debts are
reals. A tier's queue size is positive and the options are in the ranges that their comments give, since
construction panics, or the ticker does, otherwise.

## Where the code does not do what its comments say

- `coDel.Push` ignores the error of a full deque, and the comment at proxy/proxy.go:362 expects an error
  from Acquire in that case. There is none: `PlacedIffRoom` gives the exact condition, `StrandedForever`
  that such a caller is never admitted, dropped or signalled in any continuation, and
  `StrandedIsReachable` a run that gets there.
- `linearDecay` is described as a value in [0, max]. `floor` and `setMax` do not clamp, and under a
  negative rate the value grows without bound (`FloorStaysInRangeIff`, `SetMaxStaysInRangeIff`,
  `SetDecayPerSecStaysInRangeIff`, and one failing input for each in `ThreeWaysOut`). `get` stores a time
  that lies in the past, after which the same stretch decays twice (`ReadIsInvisibleIff`, and one such value
  in `PastReadExample`). The semaphore reaches none of these: its rate, maximum and floors are in range and
  its clock does not go back (`DebtsInOrder`).
- The comment in `pop` says that a waiter whose admission fails was rejected by reap. It never was: the
  admission fails exactly if the waiter's own context has ended its call (`PopFailsIffExpired`), and a run
  gets there (`ExpiredIsPopped`).
- Release panics about unbalanced tokens, but not where the imbalance is made: exactly when the stray tokens
  returned so far exceed what the other grants hold, so the panic can hit a caller that returns just what
  it was granted (`PanicsIff`; `FairCallerPanics` is such a run). The same panic in Acquire is out of reach.
- Nothing refuses a negative demand. Event by event, `StaysInRangeIff` says exactly what takes outstanding
  out of [0, capacity]: a grant, on arrival or after a wait, of fewer tokens than minus what is outstanding,
  and the return of too many tokens or of too few, as when a negative grant is given back. Only one of
  these panics. `BelowZero` and `AboveCapacity` are runs with neither a panic nor a stray return; in the
  latter three tokens are held of two. A caller can avoid it exactly by asking for no negative number
  (`SafeDemandIff`). Nor does such a demand leave the debts alone: it can upset their order, raise them, and
  make room for a waiter that no admit then serves, each under the exact condition of
  `DebtsStayInOrderIff`, `SuccessRaisesNoDebtIff` and `SuccessAdmitsNobodyIff` (`OrderUpset`,
  `RaisedBySuccess`).
- A Release that panics has taken its tokens off and runs no admit. Until the next admit, and then only, the
  top priority waits beside a slot that fits it (`NoIdleSlot`; `IdleSlot` is such a run).
- Close stops the ticker but does not see to the waiters. Once the background goroutine has returned and
  every granted token is back, whoever is still queued stays queued until its own context ends its call,
  however many tokens are free, unless somebody returns tokens it does not hold (`AbandonedForever`). Among
  fair callers these, and those whom a full deque refused, are exactly the waiters that nobody will ever
  signal (`NeverSignalledIff`). Debt can keep a waiter queued so (`AbandonedIsReachable`).
- `parseClientFinal` is said to verify the nonce. It compares every `r=` attribute that it finds and
  asks for none (`NonceVerifiedIffPresent`, `NonceMayBeAbsent`).
- The README speaks of weights; the semaphore reads only the order of the tiers, and what holds is
  strict priority (`NoneOvertaken`).

## Model

| member | source | states |
|---|---|---|
| Deques.WrapsOnce | utils/deque/deque.go:187-193 | stepping one slot over either end lands on the other end, for the increment and for the sign-corrected decrement |
| Deques.PositiveModIsFlooredRemainder | utils/deque/deque.go:183-193 | positiveMod is the remainder of floored division for every sign of its argument |
| Deques.RingPushFront | utils/deque/deque.go:91-97 | a front push prepends to the sequence the ring holds; dead slots stay zero |
| Deques.RingPushBack | utils/deque/deque.go:115-120 | a back push appends to the sequence the ring holds; dead slots stay zero |
| Deques.RingPopFront | utils/deque/deque.go:131-142 | the front slot holds the first item, and clearing it leaves the ring of the rest |
| Deques.RingPopBack | utils/deque/deque.go:151-162 | the back slot holds the last item, and clearing it leaves the ring of the rest |
| Deques.Deque.New | utils/deque/deque.go:22-31 | a new deque is an empty sequence bounded by the capacity asked for |
| Deques.Deque.ZeroValue | utils/deque/deque.go:33-42 | the zero value is an empty sequence bounded by the default capacity |
| Deques.Deque.EnsureInit | utils/deque/deque.go:45-51 | allocating late changes neither contents nor bound |
| Deques.Deque.Len | utils/deque/deque.go:54-63 | the two indices give the length of the contents |
| Deques.Deque.IsFull | utils/deque/deque.go:65-76 | full exactly when the contents reach the bound |
| Deques.Deque.PushFront | utils/deque/deque.go:78-101 | prepends, or refuses exactly when full and then changes nothing |
| Deques.Deque.PushBack | utils/deque/deque.go:103-123 | appends, or refuses exactly when full and then changes nothing |
| Deques.Deque.PopFront | utils/deque/deque.go:126-143 | takes the first item, or fails exactly when empty |
| Deques.Deque.PopBack | utils/deque/deque.go:146-163 | takes the last item, or fails exactly when empty |
| Deques.Deque.Front | utils/deque/deque.go:166-171 | shows the first item, or fails exactly when empty |
| Deques.Deque.Back | utils/deque/deque.go:174-181 | shows the last item, or fails exactly when empty |
| Decays.ReadsAreInvisible | backpressure/decay.go:57-65 | after any number of reads in time order the value is still the linear decay from the last real change |
| Decays.ReadIsInvisibleIff | backpressure/decay.go:61-65 | a read leaves all later values alone exactly when the clock did not go back or nothing is left to decay |
| Decays.ValueFalls | backpressure/decay.go:61-65 | the value never rises, stays in [0, max] and is gone after max divided by the rate |
| Decays.OnlyChangesCount | backpressure/decay.go:22-65 | however reads and changes are mixed, in time order, the value at every later time is what the changes alone make of it |
| Decays.PastReadExample | backpressure/decay.go:61-65 | one value that a read at a past time makes decay twice |
| Decays.AddActsOnValue | backpressure/decay.go:22-31 | at every later time the value is the decayed one, raised and clamped to [0, max], and fallen since |
| Decays.FloorActsOnValue | backpressure/decay.go:50-55 | likewise, lifted to the argument |
| Decays.SetMaxActsOnValue | backpressure/decay.go:41-47 | likewise, cut to the argument |
| Decays.SetDecayPerSecActsOnValue | backpressure/decay.go:36-39 | likewise, falling at the new rate |
| Decays.FloorStaysInRangeIff | backpressure/decay.go:50-55 | floor leaves [0, max] exactly when its argument exceeds max |
| Decays.SetMaxStaysInRangeIff | backpressure/decay.go:41-47 | setMax leaves [0, max] exactly when its argument is negative, and otherwise caps the decayed value |
| Decays.SetDecayPerSecStaysInRangeIff | backpressure/decay.go:36-39 | a new rate keeps the value in [0, max] at all later times exactly when it is not negative |
| Decays.ThreeWaysOut | backpressure/decay.go:33-55 | one input on which floor, one on which setMax and one on which setDecayPerSec leaves [0, max] |
| Decays.OrderSurvivesDecay | backpressure/decay.go:61-65 | two values that share rate and ceiling keep their order for ever |
| Decays.LinearDecay.Get | backpressure/decay.go:61-65 | returns and stores the decayed value |
| Decays.LinearDecay.Add | backpressure/decay.go:22-31 | the new state is that of Decay.Add on the old |
| Decays.LinearDecay.SetDecayPerSec | backpressure/decay.go:36-39 | the new state is that of Decay.SetDecayPerSec on the old |
| Decays.LinearDecay.SetMax | backpressure/decay.go:41-47 | the new state is that of Decay.SetMax on the old |
| Decays.LinearDecay.Floor | backpressure/decay.go:50-55 | the new state is that of Decay.Floor on the old |
| Queues.ReapIsFilter | backpressure/codel.go:202-213 | although reap scans only the front, it drops exactly the waiters older than shortTimeout, if the queue has been busy for more than longTimeout or is in LIFO mode, and than longTimeout otherwise, and keeps the others in order |
| Queues.ReapTellsByAge | backpressure/codel.go:202-213 | the same position by position |
| Queues.HealthyQueueShedsNothing | backpressure/codel.go:202-213 | a reap that finds the queue in FIFO mode drops nobody; whatever a reap drops, it drops in LIFO mode |
| QueueHistory.ModeIsHistory | backpressure/codel.go:142-149 | after any sequence of pushes, pops and reaps the queue is FIFO if empty, and otherwise LIFO exactly when last touched more than longTimeout after the push that ended its last emptiness |
| QueueHistory.LifoEndsWhenEmpty | backpressure/codel.go:142-149 | an operation ends LIFO mode exactly when it empties the queue |
| CoDels.CoDelWaiter.Admit | backpressure/codel.go:117-123 | admits exactly a waiter that still waits, sends one true, and otherwise changes nothing |
| CoDels.CoDelWaiter.Drop | backpressure/codel.go:129-131 | puts one false into the empty channel and leaves the state alone |
| CoDels.CoDelWaiter.ContextDone | backpressure/codel.go:92-103 | answers ctx.Err() and expires a waiter that still waits; answers nil otherwise |
| CoDels.CoDelWaiter.Receive | backpressure/codel.go:105-112 | takes the value and answers nil for true, ErrRejected for false |
| CoDels.CoDel.SetMode | backpressure/codel.go:142-149 | the new state is that of Queue.SetMode on the old |
| CoDels.CoDel.Push | backpressure/codel.go:134-138 | the new state is that of Queue.Push; a full deque is left as it is and nobody is told |
| CoDels.CoDel.Peek | backpressure/codel.go:153-166 | shows the demand of the waiter that the next pop takes in the same mode |
| CoDels.CoDel.Pop | backpressure/codel.go:172-197 | the new state is that of Queue.Pop; the waiter shown by peek is admitted and signalled if it still waits, and untouched otherwise |
| CoDels.CoDel.Reap | backpressure/codel.go:202-213 | the new state is that of Queue.Reap: the front waiters go that are older than shortTimeout, if the queue is overdue or in LIFO mode, and than longTimeout otherwise; they receive one false, all others keep their channel |
| Theorems.ExactlyOneOutcome | backpressure/codel.go:87-131 | under every interleaving Acquire answers nil exactly to admitted calls, ctx.Err() exactly to expired ones, ErrRejected only to dropped ones, and at most one value is sent to each channel |
| Theorems.HolderNeverBlocks | backpressure/codel.go:117-131 | whenever the lock holder is about to send, the one-slot channel is empty |
| Theorems.NoLostWakeUp | backpressure/codel.go:172-213 | at every unlock a caller that still waits has its signal in its channel, or is unsignalled and stands in its queue exactly if its push found room |
| Theorems.PopFailsIffExpired | backpressure/codel.go:188-197 | a popped waiter was never signalled, and the pop fails to admit it, and then changes no call, exactly if the waiter's context has ended its call |
| Witnesses.ExpiredIsPopped | backpressure/codel.go:188-197 | a fair run of two requests in which admit is about to pop such a waiter, whose answer then stands in every continuation |
| Theorems.QueuedOnce | backpressure/codel.go:134-138 | no waiter is in two places of the queues |
| Theorems.PlacedIffRoom | backpressure/semaphore.go:248-250 | a caller that must wait gets a place exactly when the deque has room, and is stranded otherwise |
| Theorems.StrandedForever | backpressure/codel.go:134-138 | a call refused by a full deque is never admitted, dropped or signalled in any continuation |
| Witnesses.StrandedIsReachable | backpressure/codel.go:134-138 | with one slot and room for one waiter, the third request ends so |
| Theorems.TokensConserved | backpressure/semaphore.go:298-349 | in every run, at every unlock, outstanding is the sum of the demands of the grants told or about to be told nil and not released, less the stray tokens returned; while callers are fair it stays in [0, capacity] |
| Theorems.PanicsIff | backpressure/semaphore.go:340-346 | Acquire never panics about unbalanced tokens, whoever calls; Release of a grant does so exactly when stray tokens exceed what the other grants hold, never among fair callers; a stray return exactly when it is of more than is held |
| FaultyCallers.FairCallerPanics | backpressure/semaphore.go:340-346 | a run after which a caller that returns exactly its grant panics, because another returned a token it did not hold |
| Theorems.StaysInRangeIff | backpressure/semaphore.go:215-349 | from every reachable state in range, each event keeps outstanding in [0, capacity] exactly if its guard holds: on a grant's demand, a return's tokens or the charge after a pop |
| Theorems.SafeDemandIff | backpressure/semaphore.go:196-222 | of any semaphore: a grant on arrival of this demand keeps outstanding in range after every run of fair callers exactly if it is not negative |
| FaultyCallers.BelowZero | backpressure/semaphore.go:214-222 | a first request for -1 tokens is granted and leaves outstanding at -1 |
| FaultyCallers.AboveCapacity | backpressure/semaphore.go:340-349 | a run of four grants, each in range, and one return of what was granted, after which three tokens of two are held |
| Theorems.NoIdleSlot | backpressure/semaphore.go:203-215 | at every unlock with a waiter in the top queue, its next one does not fit exactly if no Release has panicked since admit last started, so always among fair callers, and with unit demands nothing is free then |
| FaultyCallers.IdleSlot | backpressure/semaphore.go:340-346 | a run after which the top queue's next waiter fits and is not served, because a stray return panicked |
| Theorems.ReaperArmedExactly | backpressure/semaphore.go:252-256 | at every unlock hasWaiters tells whether some queue holds a waiter, and before Close the ticker period is longTimeout exactly then and a year otherwise, whatever callers do |
| Theorems.NoneOvertaken | backpressure/semaphore.go:206-215 | whoever is taken up, on arrival or by admit, leaves nobody waiting at a higher priority, and an arrival nobody at its own |
| Theorems.AdmitIsMaximal | backpressure/semaphore.go:291-330 | when admit returns, every queue is empty or the demand of the first non-empty one's next waiter, what is taken and what is owed together exceed the capacity |
| Theorems.SuccessAdmitsNobodyIff | backpressure/semaphore.go:214-232 | a grant on arrival lets nothing fit, at any priority, that did not fit before, exactly if its demand is not negative |
| Theorems.DebtsWithinCapacity | backpressure/semaphore.go:225-246 | whatever callers do, at every later time each effective debt is in [0, capacity], and that of the top priority 0 |
| Theorems.DebtsInOrder | backpressure/semaphore.go:225-246 | in every reachable state without a negative demand before it, and at every later time, the effective debts rise with the priority index, from 0, within the capacity |
| Theorems.DebtsStayInOrderIff | backpressure/semaphore.go:224-246 | from every reachable state with its debts in order, each event keeps the order exactly if it is not a failure with a negative demand that lowers the next priority's debt below that of its own |
| FaultyCallers.OrderUpset | backpressure/semaphore.go:241-246 | a fair run of three priorities and such a failure |
| Theorems.SuccessRaisesNoDebt | backpressure/semaphore.go:224-232 | a grant on arrival raises nobody's debt, now or later, floor included |
| Theorems.SuccessRaisesNoDebtIff | backpressure/semaphore.go:224-232 | from debts in order, a grant on arrival raises nobody's debt exactly if what it forgives is not negative or every lower priority owes the whole capacity |
| FaultyCallers.RaisedBySuccess | backpressure/semaphore.go:224-232 | a first grant of -1 tokens raises the lower priority's debt |
| Debts.ForgiveIs | backpressure/semaphore.go:225-232 | the loop of a success leaves each lower priority its debt less what is forgiven, clamped, or the one above if that is more |
| Debts.ForgiveKeepsDebt | backpressure/semaphore.go:225-232 | so it keeps the debts in range and in order, and raises none if nothing is charged |
| Debts.PenaliseSortsIff | backpressure/semaphore.go:241-246 | the loop of a failure keeps the order of the debts exactly if it keeps that of its own priority and the next |
| Runs.ShedOnlyInLifo | backpressure/codel.go:202-213 | in every run each drop happens in LIFO mode and meets a caller that has waited longer than shortTimeout |
| Runs.ReapedAges | backpressure/codel.go:202-213 | after a reap nobody is older than longTimeout, nor than shortTimeout in a LIFO queue, and at every unlock this holds as of the latest reap |
| Runs.BoundedResidency | backpressure/semaphore.go:268-295 | in every run whose critical sections come within longTimeout of the latest reap while anybody waits, nobody stays in a queue longer than twice longTimeout |
| Runs.AnsweredInTime | backpressure/semaphore.go:258-295 | in such a run, at every unlock, each caller that found a place and arrived more than twice longTimeout ago has its answer or has it in its channel |
| Runs.DebtIsForgotten | backpressure/semaphore.go:159-164 | debtDecayInterval without a penalty in which no grant charges instead of forgiving leaves every debt at 0, whatever else happened before or meanwhile |
| Runs.AdmitTerminates | backpressure/semaphore.go:291-330 | whatever the waiters do meanwhile, the lock holder is never stuck and unlocks within 2q + 3w + 2 actions of its own, for q queues that hold w waiters |
| Runs.HolderUnlocks | backpressure/semaphore.go:291-330 | from every reachable state the lock holder's own actions lead to an unlocked one |
| Order.FifoKeepsOrder | backpressure/semaphore.go:206-215 | over any stretch in which a priority's queue is in FIFO mode, its requests leave in the order they came, those granted on arrival included |
| Order.ModeFollowsHistory | backpressure/codel.go:142-149 | in every run each queue is what the run's own pushes, pops and reaps of it make of it, and its mode is FIFO if it is empty and otherwise LIFO exactly when the last of them came more than longTimeout after the push that ended its last emptiness |
| Closing.CloseIsFinal | backpressure/semaphore.go:351-363 | after Close nobody joins, the background goroutine does not come back, and the ticker is stopped or has a period of a year |
| Closing.AbandonedForever | backpressure/semaphore.go:351-363 | with Close done, the background goroutine gone and all granted tokens back, an unsignalled caller is left alone until its own context ends its call, unless a stray return comes |
| Closing.NeverSignalledIff | backpressure/semaphore.go:268-363 | among fair callers, an unsignalled caller at an unlock is signalled in no continuation without a stray return exactly if it found no room or the state is one of those just described |
| AbandonedExample.AbandonedIsReachable | backpressure/semaphore.go:351-363 | a fair run of one slot and two priorities that leaves a queued waiter so, with the slot free |
| Effects.RefusedIff | backpressure/semaphore.go:180-199 | which requests each guard refuses; a refused one changes nothing |
| Effects.GrantedOnArrivalIff | backpressure/semaphore.go:203-215 | a request that is taken is granted on arrival exactly if nobody waits at its priority or above it and its demand, what is taken and what its priority owes together do not exceed the capacity; otherwise it waits |
| Effects.GrantEffect | backpressure/semaphore.go:215-235 | a grant on arrival takes its tokens and leaves each lower priority its debt less debtForgivePerSuccess times the demand, clamped to [0, capacity], or what the priority above it then owes if that is more; queues, flag and ticker stay |
| Effects.WaitEffect | backpressure/semaphore.go:239-256 | a request that waits adds its demand to each lower priority's debt, clamped, joins the back of its queue if there is room, and arms the reaper if nobody waited before |
| Effects.DecayEffect | backpressure/semaphore.go:159-164 | each debt falls evenly by the capacity in debtDecayInterval |
| Effects.ReturnEffect | backpressure/semaphore.go:340-349 | Release takes its tokens off, and goes on to admit exactly if none are missing |
| Effects.TickAndCloseEffect | backpressure/semaphore.go:268-287 | a tick reads the clock and goes on to admit; Close ends the ticker once and touches nothing else |
| Effects.ReapEffect | backpressure/codel.go:202-213 | caller by caller: a reap sends false to exactly those that have waited longer than the timeout in force and takes them out of the queue |
| Effects.PoppedFits | backpressure/semaphore.go:298-316 | whoever admit pops fits: its demand, what is taken and what its priority owes together do not exceed the capacity |
| Effects.PopEffect | backpressure/codel.go:172-197 | a queue in FIFO mode gives up its oldest waiter, one in LIFO mode its newest, which is admitted exactly if it still waits; nobody else is touched |
| Effects.SendEffect | backpressure/semaphore.go:313-317 | an admitted caller gets one true and is charged its own demand |
| Effects.AnswerEffect | backpressure/codel.go:87-115 | a context ends a call with an error exactly if it was not admitted, a signal with nil exactly if it is true |
| Relief.SuccessesClearDebt | backpressure/semaphore.go:224-232 | over a run without a penalty the most that anybody owes falls by debtForgivePerSuccess of the tokens that the top priority is granted on arrival, down to nothing |
| Preservation.StepKeepsInv | backpressure/semaphore.go:176-349 | every event keeps the invariant, its fair part as long as callers are fair |
| Preservation.RunKeepsInv | backpressure/semaphore.go:176-349 | so does every run |
| Preservation.InitInv | backpressure/semaphore.go:119-169 | what NewSemaphore builds satisfies it |
| Semaphores.Semaphore.constructor | backpressure/semaphore.go:119-169 | builds an object in an initial state of the system: nothing taken, one empty queue of its tier's size and one zero debt for each tier, nobody waiting |
| Semaphores.Semaphore.Acquire | backpressure/semaphore.go:176-261 | for every demand and priority: refuses, grants at once or queues as the old state dictates, and leaves an unlocked object reached by a run that starts with this Acquire; a grant takes the tokens and forgives debtForgivePerSuccess of them |
| Semaphores.Semaphore.WhenAsked | backpressure/semaphore.go:176-235 | on the fields of an unlocked object: which refusal Acquire will give, or that it will grant exactly if nobody waits at this priority or above it and the demand fits beside what is taken and owed |
| Semaphores.Semaphore.Guards | backpressure/semaphore.go:180-199 | the first guard that applies, or none |
| Semaphores.Semaphore.HigherPriorityPresent | backpressure/semaphore.go:206-212 | tells whether some queue at this priority or above holds a waiter |
| Semaphores.Semaphore.CanAdmit | backpressure/semaphore.go:332-336 | tells whether capacity less outstanding is at least the decayed debt, which it reads, plus the demand |
| Semaphores.Semaphore.ForgiveLower | backpressure/semaphore.go:225-232 | the debts become those of Forgive |
| Semaphores.Semaphore.PenaliseLower | backpressure/semaphore.go:241-246 | the debts become those of Penalise |
| Semaphores.Semaphore.TestTo | backpressure/semaphore.go:299-310 | shows the next waiter's demand if there is one and it fits, and stops serving if it does not |
| Semaphores.Semaphore.ServeQueue | backpressure/semaphore.go:298-323 | serves a queue until it is empty or its next waiter does not fit, under any interference by the waiters |
| Semaphores.Semaphore.Admit | backpressure/semaphore.go:291-330 | reaps and serves, and ends unlocked in a state that a run of the lock holder and the waiters leads to |
| Semaphores.Semaphore.Release | backpressure/semaphore.go:340-349 | for any caller: panics exactly if more is returned than is outstanding, never for a grant returned among fair callers, and otherwise a run that starts with this Release |
| Semaphores.Semaphore.Background | backpressure/semaphore.go:268-287 | one turn of the loop: a run that starts with Tick, or, once bgDone is closed, the goroutine's return |
| Semaphores.Semaphore.Close | backpressure/semaphore.go:352-363 | closes the semaphore and bgDone and stops the ticker, once; a second call changes nothing |
| Semaphores.Semaphore.CallerActs | backpressure/codel.go:87-115 | one branch of wait is one waiter event of the system |
| Semaphores.Semaphore.Interleave | backpressure/codel.go:39-51 | any number of such events, in any order, keeps the object valid and touches nothing but the calls |
| Semaphores.Semaphore.WhenUnlocked | backpressure/semaphore.go:298-349 | the fields of an unlocked object: tokens balanced but for strays, flag and ticker exact, no idle slot for the top priority, nil exactly for admitted waiters |
| Scram.JoinSplit | proxy/clientAuth.go:390-433 | joining what Split returns gives the message back |
| Scram.SplitJoin | proxy/clientAuth.go:390-433 | splitting what Join returns gives non-empty lists of comma-free parts back |
| Scram.ParseClientFirst | proxy/clientAuth.go:382-401 | the loop computes ClientFirst |
| Scram.ClientFirstUndoesPrinting | proxy/clientAuth.go:382-401 | a printed client-first message gives back its bare part and its nonce, whatever attributes surround it |
| Scram.ClientFirstIff | proxy/clientAuth.go:382-401 | a client-first message is accepted exactly if it starts with the header for no channel binding and the last of its nonce attributes is not empty, and which error it gets otherwise |
| Scram.ParseClientFinal | proxy/clientAuth.go:406-434 | the loop computes ClientFinal, with its early exit on a wrong nonce |
| Scram.ClientFinalUndoesPrinting | proxy/clientAuth.go:406-434 | a printed client-final message gives back its prefix and its proof |
| Scram.ClientFinalRefusedIff | proxy/clientAuth.go:406-434 | which client-final messages get which error: fewer than three attributes, a foreign nonce, no proof or an empty last one |
| Scram.ProofAnywhere | proxy/clientAuth.go:406-434 | wherever its one proof stands, the parser takes it out and joins the other attributes in order |
| Scram.EarlierProofIgnored | proxy/clientAuth.go:406-434 | of several proofs the last counts, and the others are dropped |
| Scram.ClientFinalRebuildsIff | proxy/clientAuth.go:406-434 | prefix, ",p=" and proof rebuild an accepted message exactly when its one proof attribute is the last |
| Scram.NonceVerifiedIffPresent | proxy/clientAuth.go:403-427 | an accepted message carries the expected nonce exactly when it carries a nonce |
| Scram.NonceMayBeAbsent | proxy/clientAuth.go:403-427 | a message with two other attributes and a proof parses under every expected nonce |
| Scram.NonceAbsentExample | proxy/clientAuth.go:403-427 | one such message, without any nonce |
| Scram.XorLoop | proxy/clientAuth.go:348-352 | the loop computes the bytewise XOR |
| Scram.ServerFirst | proxy/clientAuth.go:278-303 | the first reply, or the parser's error |
| Scram.ServerFinal | proxy/clientAuth.go:323-367 | the verdict on the client's answer |
| Scram.GreetingIs | proxy/clientAuth.go:278-303 | the first reply spelled out: the client's nonce continued, the salt, 4096 iterations; or the parser's error |
| Scram.VerdictIff | proxy/clientAuth.go:323-367 | of an answer that parses the server accepts exactly the RFC's proof for the transcript and then returns what the RFC's client demands; otherwise it tells an unreadable proof from a wrong one |
| Scram.AcceptedProofsMeetRfc | proxy/clientAuth.go:340-361 | whatever proof the server accepts, the check of RFC 5802 accepts for the same transcript |
| Scram.ViewsAgree | proxy/clientAuth.go:343-344 | client and server derive the same AuthMessage and salted password |
| Scram.HonestExchangeCompletes | proxy/clientAuth.go:278-367 | for every password, salt, nonce and attribute lists an honest client finds its nonce continued, is accepted, and the reply passes its own check of the server's signature under the server key |

## Left out

- proxy/proxy.go: relaying, listeners and shutdown are network plumbing; only the pairing of Acquire and Release is used.
- pool/pool.go, config/ and cmd/: wrappers over pgxpool, defaults and process startup.
- The tiers' weights: the semaphore does not read them.
- Real scheduling, timers and clocks: replaced by events, a clock that never goes back, and the spacing of ticks that BoundedResidency assumes.
- Rounding: debts are reals where the source has float64, and durations do not saturate.
- The type parameter of coDel and coDelWaiter: fixed to the token demand, its only use.
- The panics of deque.New and NewSemaphore on bad sizes: their constructors require good ones. Those of Acquire's guards come back as refusals, those of the deque as errors.
- The sends of one reap are one event: each goes to a channel of its own, and no action of a waiter depends on another waiter's channel.
- The object interleaves waiters between reaps, before peek and between peek and pop; the point between a pop's compare-and-swap and its send is covered in the transition system alone.
- A waiter may act in the transition system as soon as its call exists, a little before the source lets it enter wait; this only adds runs.
- Theorems.DebtsInOrder: assumes that no demand was negative, as does Theorems.SuccessRaisesNoDebt; what a negative demand breaks is told exactly by Theorems.DebtsStayInOrderIff and Theorems.SuccessRaisesNoDebtIff.
- A test of the ticker for nil in the background goroutine, which nothing makes nil.
- After Close a tick may come any number of times until the background goroutine returns, where the source allows few; this only adds runs.
- MD5 and cleartext logins, random generation, and the insides of SHA-256, HMAC, PBKDF2 and base64: functions with known output sizes, and base64 undone by its decoder with comma-free output.
- The iteration count of SCRAM is carried as its decimal text; the fixed count 4096 is the only one that occurs.

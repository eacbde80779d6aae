/** What Close leaves behind. */
module Closing {
  import opened Wrappers
  import opened Clocks
  import opened Queues
  import opened Admission
  import opened Invariants
  import opened Preservation
  import opened Theorems
  import opened Runs

  // Nobody joins any more, and the background goroutine, once it has returned, is gone.
  ghost predicate StaysClosed(s: Sys, t: Sys) {
    t.closed && |t.calls| == |s.calls| && (t.running ==> s.running)
  }

  lemma ClosedLock(s: Sys)
    requires Enabled(s, Lock) && s.closed
    ensures StaysClosed(s, LockStep(s))
  {
  }

  lemma ClosedStep(s: Sys, e: Event)
    requires Enabled(s, e) && s.closed
    ensures StaysClosed(s, Apply(s, e))
  {
    if e == Lock {
      ClosedLock(s);
    }
  }

  lemma {:induction false} ClosedStays(s: Sys, es: seq<Event>, t: Sys)
    requires IsRun(s, es, t) && s.closed
    ensures StaysClosed(s, t)
    decreases |es|
  {
    RunHead(s, es, t);
    if es != [] {
      ClosedStep(s, es[0]);
      ClosedStays(Apply(s, es[0]), es[1..], t);
    }
  }

  // Close is for good: nobody joins afterwards, and the ticker never again has a period below a
  // year, for all that an admit which empties the queues starts it again.
  lemma CloseIsFinal(s: Sys, es: seq<Event>, t: Sys)
    requires Reachable(s) && s.closed && IsRun(s, es, t)
    ensures StaysClosed(s, t) && (t.ticker == None || t.ticker == Some(INFINITY))
  {
    ClosedStays(s, es, t);
    ReachableRun(s, es, t);
    ReachableInv(t);
  }

  // Nobody is left to make admit run: the lock is free, the background goroutine has returned, and
  // every token that was granted is back.
  ghost predicate Abandoned(s: Sys) {
    && s.closed && !s.running && s.pc == Free
    && forall k :: 0 <= k < |s.calls| && s.calls[k].state == Admitted ==> s.calls[k].released
  }

  lemma AbandonedStep(s: Sys, e: Event)
    requires CoreInv(s) && Enabled(s, e) && !e.Stray? && Abandoned(s)
    ensures Abandoned(Apply(s, e)) && Apply(s, e).queues == s.queues && |Apply(s, e).calls| == |s.calls|
    ensures forall k :: 0 <= k < |s.calls| && s.calls[k].outcome == Pending && s.calls[k].sends == 0 ==>
              Apply(s, e).calls[k] == s.calls[k] || Apply(s, e).calls[k].outcome == Cancelled
  {
    assert forall k :: 0 <= k < |s.calls| ==> CallOk(s.calls[k], false);
  }

  lemma NothingSent(s: Sys, e: Event, k: nat)
    requires Enabled(s, e) && s.pc == Free && k < |s.calls|
    ensures k < |Apply(s, e).calls| && Apply(s, e).calls[k].sends == s.calls[k].sends
  {
    if e.Acquire? {
      EarlierCallsStay(s, e.demand, e.prio, e.now, k);
    }
  }

  predicate NoStray(es: seq<Event>) {
    forall j :: 0 <= j < |es| ==> !es[j].Stray?
  }

  // Whoever is queued or stranded then stays so: with no reap and no admit to come, only its own
  // context ends its call, however many tokens are free.
  lemma {:induction false} AbandonedForever(s: Sys, es: seq<Event>, t: Sys, k: nat)
    requires Reachable(s) && Abandoned(s) && IsRun(s, es, t) && NoStray(es)
    requires k < |s.calls| && s.calls[k].sends == 0
    requires s.calls[k].outcome == Pending || s.calls[k].outcome == Cancelled
    ensures t.queues == s.queues && |t.calls| == |s.calls|
    ensures t.calls[k].sends == 0 && (t.calls[k] == s.calls[k] || t.calls[k].outcome == Cancelled)
    decreases |es|
  {
    RunHead(s, es, t);
    if es != [] {
      ReachableInv(s);
      var r := Apply(s, es[0]);
      AbandonedStep(s, es[0]);
      ReachableStep(s, es[0]);
      if s.calls[k].outcome == Cancelled {
        AnswerStep(s, es[0], k);
      }
      NothingSent(s, es[0], k);
      AbandonedForever(r, es[1..], t, k);
    }
  }

  // ---- Who is left without an answer ----

  ghost predicate SameCaller(c: Call, c': Call) {
    c'.outcome == c.outcome && c'.placed == c.placed && c'.since == c.since
  }

  lemma HolderAnswersNobody(s: Sys, k: nat)
    requires Enabled(s, Lock) && k < |s.calls|
    ensures |LockStep(s).calls| == |s.calls| && SameCaller(s.calls[k], LockStep(s).calls[k])
  {
    match s.pc
    case Reaping(_) =>
    case Serving(_) =>
    case Popping(_, _) =>
    case Sending(_, _, _) =>
  }

  lemma HolderKeepsTime(s: Sys)
    requires Enabled(s, Lock) && (s.pc.Reaping? || s.lastReap == s.clock)
    ensures LockStep(s).cfg == s.cfg && LockStep(s).clock == s.clock
    ensures LockStep(s).pc.Reaping? || LockStep(s).lastReap == s.clock
  {
    match s.pc
    case Reaping(_) =>
    case Serving(_) =>
    case Popping(_, _) =>
    case Sending(_, _, _) =>
  }

  // An admit that reaps reaps everything, and its lock holder answers no call.
  lemma {:induction false} HolderReaps(s: Sys, es: seq<Event>, t: Sys, k: nat)
    requires IsRun(s, es, t) && (forall j :: 0 <= j < |es| ==> es[j] == Lock) && t.pc == Free && k < |s.calls|
    requires s.pc.Reaping? || s.lastReap == s.clock
    ensures t.cfg == s.cfg && t.lastReap == s.clock && |t.calls| == |s.calls|
    ensures SameCaller(s.calls[k], t.calls[k])
    decreases |es|
  {
    RunHead(s, es, t);
    if es != [] {
      HolderAnswersNobody(s, k);
      HolderKeepsTime(s);
      HolderReaps(LockStep(s), es[1..], t, k);
    }
  }

  // Whoever an admit leaves queued came no more than longTimeout before it.
  lemma QueuedSince(s: Sys, k: nat)
    requires Reachable(s) && s.pc == Free && k < |s.calls|
    requires s.calls[k].prio < |s.queues| && HasTicket(s.queues[s.calls[k].prio].items, k)
    ensures s.lastReap - s.calls[k].since <= s.cfg.longTimeout
  {
    ReachableInv(s);
    var p := s.calls[k].prio;
    var j :| 0 <= j < |s.queues[p].items| && s.queues[p].items[j].id == k;
    assert Linked(s.queues[p].items[j], p, s.calls);
    ReapedAges(s, p, j);
  }

  // An admit that starts more than longTimeout after a placed caller came signals it: true if it is
  // popped, false if it is reaped.
  lemma AdmitSignals(s: Sys, k: nat) returns (es: seq<Event>, t: Sys)
    requires Reachable(s) && s.pc == Reaping(0)
    requires k < |s.calls| && s.calls[k].outcome == Pending && s.calls[k].placed
    requires s.clock - s.calls[k].since > s.cfg.longTimeout
    ensures IsRun(s, es, t) && NoStray(es) && k < |t.calls| && t.calls[k].sends == 1
  {
    es, t := HolderUnlocks(s);
    ReachableRun(s, es, t);
    HolderReaps(s, es, t, k);
    NoLostWakeUp(t, k);
    ExactlyOneOutcome(t, k);
    if t.calls[k].sends == 0 {
      QueuedSince(t, k);
    }
  }

  function Late(s: Sys, k: nat): (now: Time)
    requires k < |s.calls|
    ensures now >= s.clock && now - s.calls[k].since > s.cfg.longTimeout
  {
    var due := s.calls[k].since + s.cfg.longTimeout + 1;
    if due >= s.clock then due else s.clock
  }

  // While the background goroutine runs, a tick does so.
  lemma TickSignals(s: Sys, k: nat) returns (es: seq<Event>, t: Sys)
    requires Reachable(s) && s.pc == Free && s.running
    requires k < |s.calls| && s.calls[k].outcome == Pending && s.calls[k].placed
    ensures IsRun(s, es, t) && NoStray(es) && k < |t.calls| && t.calls[k].sends == 1
  {
    var e := Tick(Late(s, k));
    LockReady(s);
    ReachableStep(s, e);
    es, t := AdmitSignals(Apply(s, e), k);
    RunFrom(s, e, es, t);
    es := [e] + es;
  }

  // While a grant is not returned, its return does so, for among fair callers it does not panic.
  lemma ReleaseSignals(s: Sys, k: nat, h: nat) returns (es: seq<Event>, t: Sys)
    requires Reachable(s) && s.Fair() && s.pc == Free
    requires k < |s.calls| && s.calls[k].outcome == Pending && s.calls[k].placed
    requires h < |s.calls| && s.calls[h].outcome == Granted && !s.calls[h].released
    ensures IsRun(s, es, t) && NoStray(es) && k < |t.calls| && t.calls[k].sends == 1
  {
    var e := Release(h, Late(s, k));
    LockReady(s);
    PanicsIff(s, e);
    ReachableStep(s, e);
    es, t := AdmitSignals(Apply(s, e), k);
    RunFrom(s, e, es, t);
    es := [e] + es;
  }

  // A caller that was admitted and does not know it yet first takes its signal.
  lemma GrantSignals(s: Sys, k: nat, h: nat) returns (es: seq<Event>, t: Sys)
    requires Reachable(s) && s.Fair() && s.pc == Free
    requires k < |s.calls| && s.calls[k].outcome == Pending && s.calls[k].placed && s.calls[k].sends == 0
    requires h < |s.calls| && s.calls[h].state == Admitted && !s.calls[h].released
    ensures IsRun(s, es, t) && NoStray(es) && k < |t.calls| && t.calls[k].sends == 1
  {
    ExactlyOneOutcome(s, h);
    if s.calls[h].outcome != Pending {
      es, t := ReleaseSignals(s, k, h);
    } else {
      var e := Receive(h);
      LockReady(s);
      NoLostWakeUp(s, h);
      NoLostWakeUp(s, k);
      ReachableStep(s, e);
      es, t := ReleaseSignals(Apply(s, e), k, h);
      RunFrom(s, e, es, t);
      es := [e] + es;
    }
  }

  // Exactly when does a caller that waits at an unlock have nobody left to signal it, however fair
  // callers go on? When it found no room, or when the semaphore is abandoned.
  lemma NeverSignalledIff(s: Sys, k: nat)
    requires Reachable(s) && s.Fair() && s.pc == Free
    requires k < |s.calls| && s.calls[k].outcome == Pending && s.calls[k].sends == 0
    ensures (forall es, t :: IsRun(s, es, t) && NoStray(es) ==> k < |t.calls| && t.calls[k].sends == 0)
            <==> (Abandoned(s) || !s.calls[k].placed)
  {
    if Abandoned(s) || !s.calls[k].placed {
      forall es, t | IsRun(s, es, t) && NoStray(es)
        ensures k < |t.calls| && t.calls[k].sends == 0
      {
        if Abandoned(s) {
          AbandonedForever(s, es, t, k);
        } else {
          NoLostWakeUp(s, k);
          NotFast(s, k);
          StrandedForever(s, es, t, k);
        }
      }
    } else {
      var es, t;
      if s.running {
        es, t := TickSignals(s, k);
      } else {
        ReachableInv(s);
        var h :| 0 <= h < |s.calls| && s.calls[h].state == Admitted && !s.calls[h].released;
        es, t := GrantSignals(s, k, h);
      }
      assert IsRun(s, es, t) && NoStray(es);
    }
  }

  lemma NotFast(s: Sys, k: nat)
    requires Reachable(s) && s.pc == Free && k < |s.calls| && s.calls[k].outcome == Pending
    ensures !s.calls[k].fast
  {
    ReachableInv(s);
    assert CallOk(s.calls[k], false);
  }
}

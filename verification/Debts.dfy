/** The debts of all priorities together: what the loops of Acquire make of them, value by value. */
module Debts {
  import opened Clocks
  import opened Decays
  import opened Admission

  // The debts at time t, whatever callers do: in [0, capacity], and none for the top priority.
  ghost predicate DebtIn(debt: seq<Decay>, cfg: Config, t: Time)
    requires cfg.Ok()
  {
    && (forall i :: 0 <= i < |debt| ==>
          && debt[i].InRange() && debt[i].last <= t
          && debt[i].perSec == cfg.DecayPerSec() && debt[i].max == cfg.capacity as real)
    && (debt != [] ==> debt[0].x == 0.0)
  }

  // Read at time t, no debt is less than that of a higher priority.
  ghost predicate Sorted(debt: seq<Decay>, t: Time) {
    forall i, j :: 0 <= i < j < |debt| ==> debt[i].Value(t) <= debt[j].Value(t)
  }

  // The same debt had it been full at the time since.
  function Full(d: Decay, since: Time): (full: Decay) {
    d.(x := d.max, last := since)
  }

  // No more debt than a full one of that time, decayed since.
  ghost predicate DebtForgotten(debt: seq<Decay>, since: Time, t: Time) {
    forall i :: 0 <= i < |debt| ==> debt[i].Value(t) <= Full(debt[i], since).Value(t)
  }

  lemma DebtsLater(debt: seq<Decay>, cfg: Config, since: Time, t: Time, u: Time)
    requires cfg.Ok() && since <= t <= u && DebtIn(debt, cfg, t) && DebtForgotten(debt, since, t)
    ensures DebtIn(debt, cfg, u) && DebtForgotten(debt, since, u)
    ensures Sorted(debt, t) ==> Sorted(debt, u)
  {
    forall i | 0 <= i < |debt|
      ensures debt[i].Value(u) <= Full(debt[i], since).Value(u)
    {
      OrderSurvivesDecay(debt[i], Full(debt[i], since), t, u);
    }
    if Sorted(debt, t) {
      forall i, j | 0 <= i < j < |debt|
        ensures debt[i].Value(u) <= debt[j].Value(u)
      {
        OrderSurvivesDecay(debt[i], debt[j], t, u);
      }
    }
  }

  lemma DebtsInRange(debt: seq<Decay>, cfg: Config, t: Time)
    requires cfg.Ok() && DebtIn(debt, cfg, t)
    ensures forall i :: 0 <= i < |debt| ==> 0.0 <= debt[i].Value(t) <= cfg.capacity as real
  {
    forall i | 0 <= i < |debt|
      ensures 0.0 <= debt[i].Value(t) <= cfg.capacity as real
    {
      ValueFalls(debt[i], t, t);
    }
  }

  lemma RateIs(capacity: real, interval: Duration, elapsed: Duration)
    requires interval > 0
    ensures Seconds(elapsed) * (capacity / Seconds(interval)) == capacity * elapsed as real / interval as real
  {
    var i, e := Seconds(interval), Seconds(elapsed);
    assert interval as real == i * NANOS_PER_SECOND && elapsed as real == e * NANOS_PER_SECOND;
    assert capacity * elapsed as real == (capacity * e) * NANOS_PER_SECOND;
    assert e * (capacity / i) == (capacity * e) / i;
  }

  lemma FallsInInterval(d: Decay, capacity: real, interval: Duration, t: Time, u: Time)
    requires d.x >= 0.0 && d.perSec >= 0.0 && d.last <= t <= u
    requires interval > 0 && d.perSec == capacity / Seconds(interval)
    ensures d.Value(u) == Max(0.0, d.Value(t) - capacity * (u - t) as real / interval as real)
  {
    FallsBy(d, t, u);
    RateIs(capacity, interval, u - t);
  }

  // The debt falls by the capacity in each debtDecayInterval, evenly, down to nothing.
  ghost predicate FallsEvenly(d: Decay, cfg: Config, t: Time, u: Time) {
    && cfg.debtDecayInterval > 0
    && d.Value(u) == Max(0.0, d.Value(t) - cfg.capacity as real * (u - t) as real / cfg.debtDecayInterval as real)
  }

  lemma DebtFalls(debt: seq<Decay>, cfg: Config, since: Time, t: Time, u: Time, i: nat)
    requires cfg.Ok() && DebtIn(debt, cfg, since) && since <= t <= u && i < |debt|
    ensures FallsEvenly(debt[i], cfg, t, u)
  {
    FallsInInterval(debt[i], cfg.capacity as real, cfg.debtDecayInterval, t, u);
  }

  // Two lists of debts of the same values.
  ghost predicate Alike(a: seq<Decay>, b: seq<Decay>, t: Time) {
    |a| == |b| && forall j :: 0 <= j < |a| ==> a[j].Value(t) == b[j].Value(t)
  }

  lemma GetIsQuiet(debt: seq<Decay>, cfg: Config, t: Time, i: nat)
    requires cfg.Ok() && i < |debt| && DebtIn(debt, cfg, t)
    ensures DebtIn(debt[i := debt[i].Get(t)], cfg, t) && Alike(debt, debt[i := debt[i].Get(t)], t)
  {
    ValueFalls(debt[i], t, t);
  }

  // The bound of DebtForgotten is one and the same for all debts.
  lemma OneBound(a: seq<Decay>, b: seq<Decay>, cfg: Config, since: Time, t: Time, i: nat, j: nat)
    requires cfg.Ok() && DebtIn(a, cfg, t) && DebtIn(b, cfg, t) && i < |a| && j < |b|
    ensures Full(a[i], since) == Full(b[j], since)
  {
  }

  lemma AlikeKeepsDebt(a: seq<Decay>, b: seq<Decay>, cfg: Config, since: Time, t: Time)
    requires cfg.Ok() && DebtIn(a, cfg, t) && DebtIn(b, cfg, t) && Alike(a, b, t)
    ensures Sorted(a, t) ==> Sorted(b, t)
    ensures DebtForgotten(a, since, t) ==> DebtForgotten(b, since, t)
  {
    forall i | 0 <= i < |a|
      ensures Full(a[i], since) == Full(b[i], since)
    {
      OneBound(a, b, cfg, since, t, i, i);
    }
  }

  // Any debts in range are forgotten by the time that a full one is.
  lemma FullNow(debt: seq<Decay>, cfg: Config, t: Time)
    requires cfg.Ok() && DebtIn(debt, cfg, t)
    ensures DebtForgotten(debt, t, t)
  {
    forall i | 0 <= i < |debt|
      ensures debt[i].Value(t) <= Full(debt[i], t).Value(t)
    {
      ValueFalls(debt[i], t, t);
      ReadAtOnce(Full(debt[i], t), t);
    }
  }

  // What add leaves of v.
  function Charged(v: real, amount: real, max: real): (r: real) {
    if v + amount > max then max else if v + amount < 0.0 then 0.0 else v + amount
  }

  // ---- The loop of a success ----

  // One turn moves one debt, and floors it at the one above.
  lemma ForgiveOneIs(debt: seq<Decay>, cfg: Config, t: Time, i: nat, amount: real)
    requires cfg.Ok() && 0 < i < |debt| && DebtIn(debt, cfg, t)
    ensures var r := ForgiveOne(debt, i, t, amount);
            && DebtIn(r, cfg, t)
            && (forall j :: 0 <= j < |r| && j != i ==> r[j].Value(t) == debt[j].Value(t))
            && r[i].Value(t) == Max(Charged(debt[i].Value(t), -amount, cfg.capacity as real), debt[i - 1].Value(t))
  {
    AddActsOnValue(debt[i], t, -amount, t);
    FloorActsOnValue(debt[i].Add(t, -amount), t, debt[i - 1].Value(t), t);
    ValueFalls(debt[i - 1], t, t);
    ReadAtOnce(debt[i - 1], t);
  }

  // r is debt after a success whose first forgiven priority is i.
  ghost predicate Forgives(debt: seq<Decay>, r: seq<Decay>, i: nat, t: Time, amount: real, max: real) {
    && |r| == |debt|
    && (forall j :: 0 <= j < |r| && j < i ==> r[j].Value(t) == debt[j].Value(t))
    && forall j, h :: 0 < j < |r| && i <= j && h == j - 1 ==>
         r[j].Value(t) == Max(Charged(debt[j].Value(t), -amount, max), r[h].Value(t))
  }

  lemma {:induction false} ForgiveIs(debt: seq<Decay>, cfg: Config, t: Time, i: nat, amount: real)
    requires cfg.Ok() && i > 0 && DebtIn(debt, cfg, t)
    ensures DebtIn(Forgive(debt, i, t, amount), cfg, t)
    ensures Forgives(debt, Forgive(debt, i, t, amount), i, t, amount, cfg.capacity as real)
    decreases |debt| - i
  {
    if i < |debt| {
      ForgiveOneIs(debt, cfg, t, i, amount);
      ForgiveIs(ForgiveOne(debt, i, t, amount), cfg, t, i + 1, amount);
    }
  }

  // Whatever amount is forgiven or charged, the floor keeps the debts sorted.
  lemma {:induction false} SortedUpTo(debt: seq<Decay>, r: seq<Decay>, i: nat, t: Time, amount: real, max: real, n: nat)
    requires Sorted(debt, t) && Forgives(debt, r, i, t, amount, max) && i > 0 && n <= |r|
    ensures forall a, b :: 0 <= a < b < n ==> r[a].Value(t) <= r[b].Value(t)
    decreases n
  {
    if n > 0 {
      SortedUpTo(debt, r, i, t, amount, max, n - 1);
      if n - 1 >= i {
        assert r[n - 2].Value(t) <= r[n - 1].Value(t);
      }
    }
  }

  // A floor lifts nobody above a bound that all debts respect.
  lemma {:induction false} ForgiveKeepsBound(debt: seq<Decay>, r: seq<Decay>, i: nat, t: Time, amount: real, max: real,
                                             bound: real, j: nat)
    requires Forgives(debt, r, i, t, amount, max) && i > 0 && amount >= 0.0 && j < |r| && bound >= 0.0
    requires forall k :: 0 <= k < |debt| ==> debt[k].Value(t) <= bound
    ensures r[j].Value(t) <= bound
    decreases j
  {
    if i <= j {
      ForgiveKeepsBound(debt, r, i, t, amount, max, bound, j - 1);
    }
  }

  // And in order, a success raises nobody's debt: the floor cannot lift what the order already bounds.
  lemma {:induction false} ForgiveLowers(debt: seq<Decay>, r: seq<Decay>, i: nat, t: Time, amount: real, max: real,
                                         j: nat)
    requires Sorted(debt, t) && Forgives(debt, r, i, t, amount, max) && i > 0 && amount >= 0.0 && j < |r|
    ensures r[j].Value(t) <= debt[j].Value(t)
    decreases j
  {
    if i <= j {
      ForgiveLowers(debt, r, i, t, amount, max, j - 1);
      assert debt[j - 1].Value(t) <= debt[j].Value(t);
    }
  }

  lemma ForgivesAtMost(debt: seq<Decay>, r: seq<Decay>, cfg: Config, i: nat, t: Time, amount: real, j: nat)
    requires cfg.Ok() && DebtIn(debt, cfg, t) && i > 0 && amount >= 0.0 && j < |r|
    requires Forgives(debt, r, i, t, amount, cfg.capacity as real)
    ensures r[j].Value(t) >= debt[j].Value(t) - amount
  {
    DebtsInRange(debt, cfg, t);
    if i <= j {
      var above := r[j - 1].Value(t);
      assert r[j].Value(t) == Max(Charged(debt[j].Value(t), -amount, cfg.capacity as real), above);
    }
  }

  // From sorted debts nobody's is raised exactly if nothing is charged, or nothing is left to charge.
  lemma RaisesNoneIff(debt: seq<Decay>, r: seq<Decay>, cfg: Config, prio: nat, t: Time, amount: real)
    requires cfg.Ok() && DebtIn(debt, cfg, t) && DebtIn(r, cfg, t) && Sorted(debt, t)
    requires Forgives(debt, r, prio + 1, t, amount, cfg.capacity as real)
    ensures (forall i :: 0 <= i < |debt| ==> r[i].Value(t) <= debt[i].Value(t))
            <==> (amount >= 0.0 || forall j :: prio < j < |debt| ==> debt[j].Value(t) == cfg.capacity as real)
  {
    DebtsInRange(debt, cfg, t);
    DebtsInRange(r, cfg, t);
    if amount >= 0.0 {
      forall i | 0 <= i < |debt|
        ensures r[i].Value(t) <= debt[i].Value(t)
      {
        ForgiveLowers(debt, r, prio + 1, t, amount, cfg.capacity as real, i);
      }
    } else {
      forall j | prio < j < |debt| && debt[j].Value(t) != cfg.capacity as real
        ensures r[j].Value(t) > debt[j].Value(t)
      {
        var above := r[j - 1].Value(t);
        assert r[j].Value(t) == Max(Charged(debt[j].Value(t), -amount, cfg.capacity as real), above);
      }
    }
  }

  lemma ForgiveKeepsDebt(debt: seq<Decay>, cfg: Config, since: Time, t: Time, i: nat, amount: real)
    requires cfg.Ok() && i > 0 && DebtIn(debt, cfg, t) && DebtForgotten(debt, since, t)
    ensures var r := Forgive(debt, i, t, amount);
            && DebtIn(r, cfg, t)
            && (amount >= 0.0 ==> DebtForgotten(r, since, t))
            && (Sorted(debt, t) ==> Sorted(r, t))
            && (Sorted(debt, t) && amount >= 0.0 ==> forall j :: 0 <= j < |r| ==> r[j].Value(t) <= debt[j].Value(t))
  {
    var r, max := Forgive(debt, i, t, amount), cfg.capacity as real;
    ForgiveIs(debt, cfg, t, i, amount);
    if Sorted(debt, t) {
      SortedUpTo(debt, r, i, t, amount, max, |r|);
    }
    if amount >= 0.0 {
      forall j | 0 <= j < |r|
        ensures r[j].Value(t) <= Full(r[j], since).Value(t)
        ensures Sorted(debt, t) ==> r[j].Value(t) <= debt[j].Value(t)
      {
        forall k | 0 <= k < |debt|
          ensures debt[k].Value(t) <= Full(r[j], since).Value(t)
        {
          OneBound(debt, r, cfg, since, t, k, j);
        }
        ForgiveKeepsBound(debt, r, i, t, amount, max, Full(r[j], since).Value(t), j);
        if Sorted(debt, t) {
          ForgiveLowers(debt, r, i, t, amount, max, j);
        }
      }
    }
  }

  lemma ForgiveLeaves(debt: seq<Decay>, cfg: Config, since: Time, t: Time, i: nat, amount: real)
    requires cfg.Ok() && i > 0 && DebtIn(debt, cfg, t) && DebtForgotten(debt, since, t)
    ensures var r := Forgive(debt, i, t, amount);
            && DebtIn(r, cfg, t)
            && DebtForgotten(r, if amount < 0.0 then t else since, t)
            && (Sorted(debt, t) ==> Sorted(r, t))
  {
    ForgiveKeepsDebt(debt, cfg, since, t, i, amount);
    FullNow(Forgive(debt, i, t, amount), cfg, t);
  }

  // ---- The loop of a failure ----

  lemma PenalisedOne(d: Decay, t: Time, amount: real)
    requires d.InRange() && d.last <= t
    ensures var r := d.Add(t, amount).SetMax(t, d.max);
            && r.InRange() && r.max == d.max && r.perSec == d.perSec && r.last == t
            && r.Value(t) == Charged(d.Value(t), amount, d.max)
  {
    AddActsOnValue(d, t, amount, t);
    SetMaxActsOnValue(d.Add(t, amount), t, d.max, t);
  }

  lemma PenaliseIs(debt: seq<Decay>, cfg: Config, t: Time, first: nat, amount: real)
    requires cfg.Ok() && first > 0 && DebtIn(debt, cfg, t)
    ensures var r := Penalise(debt, first, t, amount, cfg.capacity as real);
            && DebtIn(r, cfg, t)
            && forall i :: 0 <= i < |r| ==>
                 r[i].Value(t) == if i < first then debt[i].Value(t)
                                  else Charged(debt[i].Value(t), amount, cfg.capacity as real)
  {
    forall i | first <= i < |debt|
      ensures var r := debt[i].Add(t, amount).SetMax(t, debt[i].max);
              && r.InRange() && r.max == debt[i].max && r.perSec == debt[i].perSec && r.last == t
              && r.Value(t) == Charged(debt[i].Value(t), amount, debt[i].max)
    {
      PenalisedOne(debt[i], t, amount);
    }
  }

  // A failure charges priorities above prio only upwards if the amount is not negative, and only
  // downwards if it is not positive.
  lemma PenaliseForgets(debt: seq<Decay>, cfg: Config, since: Time, t: Time, first: nat, amount: real)
    requires cfg.Ok() && first > 0 && DebtIn(debt, cfg, t) && DebtForgotten(debt, since, t)
    requires first >= |debt| || amount <= 0.0
    ensures DebtForgotten(Penalise(debt, first, t, amount, cfg.capacity as real), since, t)
  {
    var r := Penalise(debt, first, t, amount, cfg.capacity as real);
    PenaliseIs(debt, cfg, t, first, amount);
    DebtsInRange(debt, cfg, t);
    forall i | 0 <= i < |r|
      ensures r[i].Value(t) <= Full(r[i], since).Value(t)
    {
      OneBound(debt, r, cfg, since, t, i, i);
    }
  }

  // A failure leaves the debts of priorities 0 to prio and moves all others by the same amount, so it
  // keeps the order exactly if it keeps that of the two in between.
  lemma PenaliseSortsIff(debt: seq<Decay>, cfg: Config, t: Time, prio: nat, amount: real)
    requires cfg.Ok() && prio < |debt| && DebtIn(debt, cfg, t) && Sorted(debt, t)
    ensures Sorted(Penalise(debt, prio + 1, t, amount, cfg.capacity as real), t)
            <==> (amount >= 0.0 || prio + 1 == |debt| || debt[prio].Value(t) == 0.0
                  || debt[prio].Value(t) <= debt[prio + 1].Value(t) + amount)
  {
    var r := Penalise(debt, prio + 1, t, amount, cfg.capacity as real);
    PenaliseIs(debt, cfg, t, prio + 1, amount);
    DebtsInRange(debt, cfg, t);
    if prio + 1 < |debt| && r[prio].Value(t) <= r[prio + 1].Value(t) {
      forall i, j | 0 <= i < j < |r|
        ensures r[i].Value(t) <= r[j].Value(t)
      {
        if i <= prio < j {
          assert debt[i].Value(t) <= debt[prio].Value(t) || i == prio;
          assert debt[prio + 1].Value(t) <= debt[j].Value(t) || j == prio + 1;
        } else {
          assert debt[i].Value(t) <= debt[j].Value(t);
        }
      }
    }
  }
}

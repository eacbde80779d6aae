/** The lazily evaluated, clamped, linearly decaying value of backpressure/decay.go. */
module Decays {
  import opened Clocks

  function Max(a: real, b: real): (r: real) {
    if a >= b then a else b
  }

  // x is the value as of last; it falls by perSec every second and is meant to stay in [0, max].
  datatype Decay = Decay(x: real, last: Time, perSec: real, max: real) {
    // The continuous decay that the stored pair (x, last) stands for, at any time t.
    function Value(t: Time): (r: real) {
      Max(0.0, x - Max(0.0, Seconds(t - last)) * perSec)
    }

    function Get(now: Time): (r: Decay) {
      this.(x := Value(now), last := now)
    }

    function Add(now: Time, amount: real): (r: Decay) {
      var g := Get(now);
      var capped := if g.x + amount > g.max then g.max else g.x + amount;
      g.(x := if capped < 0.0 then 0.0 else capped)
    }

    function Floor(now: Time, least: real): (r: Decay) {
      var g := Get(now);
      if g.x < least then g.(x := least) else g
    }

    function SetMax(now: Time, most: real): (r: Decay) {
      var g := Get(now);
      g.(max := most, x := if g.x > most then most else g.x)
    }

    function SetDecayPerSec(now: Time, rate: real): (r: Decay) {
      Get(now).(perSec := rate)
    }

    function Reads(times: seq<Time>): (r: Decay)
      decreases |times|
    {
      if times == [] then this else Get(times[0]).Reads(times[1..])
    }

    predicate InRange() {
      0.0 <= x <= max && perSec >= 0.0
    }
  }

  lemma DecaySplits(a: real, b: real, perSec: real)
    requires a >= 0.0 && b >= 0.0 && perSec >= 0.0
    ensures (a + b) * perSec == a * perSec + b * perSec
    ensures a * perSec >= 0.0 && b * perSec >= 0.0
  {
  }

  // One read leaves every later value alone, unless it cuts a negative value off that is about to grow.
  lemma ReadIsInvisible(d: Decay, seen: Time, t: Time)
    requires (d.perSec >= 0.0 || d.x >= 0.0) && d.last <= seen <= t
    ensures d.Get(seen).Value(t) == d.Value(t)
  {
    var rate := if d.perSec >= 0.0 then d.perSec else -d.perSec;
    DecaySplits(Seconds(seen - d.last), Seconds(t - seen), rate);
    assert Seconds(seen - d.last) + Seconds(t - seen) == Seconds(t - d.last);
  }

  lemma ReadAtOnce(d: Decay, t: Time)
    ensures d.Get(t).Value(t) == d.Value(t)
  {
  }

  // The times of a series of reads, none before start and none after end.
  predicate InOrder(start: Time, times: seq<Time>, end: Time)
    decreases |times|
  {
    if times == [] then start <= end else start <= times[0] && InOrder(times[0], times[1..], end)
  }

  lemma {:induction false} ReadsLeaveValue(d: Decay, times: seq<Time>, t: Time)
    requires d.perSec >= 0.0 && InOrder(d.last, times, t)
    ensures d.last <= t && d.Reads(times).Value(t) == d.Value(t)
    decreases |times|
  {
    if times != [] {
      ReadsLeaveValue(d.Get(times[0]), times[1..], t);
      ReadIsInvisible(d, times[0], t);
    }
  }

  lemma NothingDecays(d: Decay, t: Time)
    requires d.x == 0.0 && d.perSec >= 0.0
    ensures d.Value(t) == 0.0
  {
    DecaySplits(Max(0.0, Seconds(t - d.last)), 0.0, d.perSec);
  }

  // Lazy decay refines continuous decay: any number of reads, in time order, goes unnoticed, and
  // the value is a function of the last real change alone.
  lemma ReadsAreInvisible(d: Decay, times: seq<Time>, t: Time)
    requires d.perSec >= 0.0 && InOrder(d.last, times, t)
    ensures d.Reads(times).Value(t) == Max(0.0, d.x - Seconds(t - d.last) * d.perSec)
  {
    ReadsLeaveValue(d, times, t);
  }

  // A use of the value: a read, or a change that reads first.
  datatype Use =
    | Read(now: Time)
    | AddTo(now: Time, amount: real)
    | FloorAt(now: Time, least: real)
    | CapAt(now: Time, most: real)
    | SetRate(now: Time, rate: real)

  function Do(d: Decay, u: Use): (r: Decay) {
    match u
    case Read(now) => d.Get(now)
    case AddTo(now, amount) => d.Add(now, amount)
    case FloorAt(now, least) => d.Floor(now, least)
    case CapAt(now, most) => d.SetMax(now, most)
    case SetRate(now, rate) => d.SetDecayPerSec(now, rate)
  }

  function DoAll(d: Decay, us: seq<Use>): (r: Decay)
    decreases |us|
  {
    if us == [] then d else DoAll(Do(d, us[0]), us[1..])
  }

  function Changes(us: seq<Use>): (r: seq<Use>) {
    if us == [] then [] else (if us[0].Read? then [] else [us[0]]) + Changes(us[1..])
  }

  predicate Ordered(start: Time, us: seq<Use>, end: Time)
    decreases |us|
  {
    if us == [] then start <= end else start <= us[0].now && Ordered(us[0].now, us[1..], end)
  }

  // No change makes the value grow out of the negative: the rate is never negative, or the value.
  predicate Proper(d: Decay, us: seq<Use>) {
    || (d.perSec >= 0.0 && forall j :: 0 <= j < |us| && us[j].SetRate? ==> us[j].rate >= 0.0)
    || (d.x >= 0.0 && forall j :: 0 <= j < |us| && us[j].CapAt? ==> us[j].most >= 0.0)
  }

  lemma DoStaysProper(d: Decay, us: seq<Use>, t: Time)
    requires us != [] && Ordered(d.last, us, t) && Proper(d, us)
    ensures Ordered(Do(d, us[0]).last, us[1..], t) && Proper(Do(d, us[0]), us[1..])
  {
    assert Do(d, us[0]).last == us[0].now;
  }

  lemma ChangesOf(us: seq<Use>)
    requires us != []
    ensures us[0].Read? ==> Changes(us) == Changes(us[1..])
    ensures !us[0].Read? ==> Changes(us) != [] && Changes(us)[0] == us[0] && Changes(us)[1..] == Changes(us[1..])
  {
  }

  lemma {:induction false} ChangesStayOrdered(start: Time, us: seq<Use>, end: Time)
    requires Ordered(start, us, end)
    ensures Ordered(start, Changes(us), end)
    ensures forall j :: 0 <= j < |Changes(us)| ==> !Changes(us)[j].Read?
    decreases |us|
  {
    if us != [] {
      ChangesOf(us);
      ChangesStayOrdered(us[0].now, us[1..], end);
      if us[0].Read? {
        OrderedBefore(start, us[0].now, Changes(us), end);
      }
    }
  }

  lemma OrderedBefore(since: Time, start: Time, us: seq<Use>, end: Time)
    requires since <= start && Ordered(start, us, end)
    ensures Ordered(since, us, end)
  {
  }

  // A read before a series of changes leaves no trace: the first change reads, too.
  lemma EarlierReadIsInvisible(d: Decay, seen: Time, cs: seq<Use>, t: Time)
    requires d.last <= seen && Ordered(seen, cs, t) && (d.perSec >= 0.0 || d.x >= 0.0)
    requires forall j :: 0 <= j < |cs| ==> !cs[j].Read?
    ensures DoAll(d.Get(seen), cs).Value(t) == DoAll(d, cs).Value(t)
  {
    ReadIsInvisible(d, seen, if cs == [] then t else cs[0].now);
    if cs != [] {
      assert d.Get(seen).Get(cs[0].now) == d.Get(cs[0].now);
      assert Do(d.Get(seen), cs[0]) == Do(d, cs[0]);
    }
  }

  // However reads and changes are mixed, in time order, the value is at every later time what the
  // changes alone make of it.
  lemma {:induction false} OnlyChangesCount(d: Decay, us: seq<Use>, t: Time)
    requires Ordered(d.last, us, t) && Proper(d, us)
    ensures DoAll(d, us).Value(t) == DoAll(d, Changes(us)).Value(t)
    decreases |us|
  {
    if us != [] {
      DoStaysProper(d, us, t);
      OnlyChangesCount(Do(d, us[0]), us[1..], t);
      ChangesOf(us);
      if us[0].Read? {
        ChangesStayOrdered(us[0].now, us[1..], t);
        EarlierReadIsInvisible(d, us[0].now, Changes(us[1..]), t);
      }
    }
  }

  // get stores the time it is given even when that time lies in the past, so a read can be noticed:
  // exactly when there is something left to decay and the clock went backwards.
  lemma ReadIsInvisibleIff(d: Decay, seen: Time)
    requires d.InRange()
    ensures (forall t :: t >= seen ==> d.Get(seen).Value(t) == d.Value(t))
            <==> (d.last <= seen || d.x == 0.0 || d.perSec == 0.0)
  {
    if d.last <= seen {
      forall t | t >= seen
        ensures d.Get(seen).Value(t) == d.Value(t)
      {
        ReadIsInvisible(d, seen, t);
      }
    } else if d.x == 0.0 || d.perSec == 0.0 {
      forall t
        ensures d.Get(seen).Value(t) == d.Value(t)
      {
        DecaySplits(Max(0.0, Seconds(t - seen)), Max(0.0, Seconds(t - d.last)), d.perSec);
      }
    } else {
      var elapsed := Seconds(d.last - seen);
      assert elapsed > 0.0 && elapsed * d.perSec > 0.0;
      assert d.Value(d.last) == d.x;
      assert d.Get(seen).Value(d.last) < d.x;
    }
  }

  // Reading in between splits the fall in two.
  lemma FallsBy(d: Decay, t: Time, u: Time)
    requires d.x >= 0.0 && d.perSec >= 0.0 && d.last <= t <= u
    ensures d.Value(u) == Max(0.0, d.Value(t) - Seconds(u - t) * d.perSec)
  {
    ReadIsInvisible(d, t, u);
  }

  // What was decayed up to 10 s decays again from 5 s to 10 s once it is read at 5 s.
  lemma PastReadExample()
    ensures var d := Decay(5.0, 10000000000, 1.0, 10.0);
            d.InRange() && d.Value(10000000000) == 5.0 && d.Get(5000000000).Value(10000000000) == 0.0
  {
    assert Seconds(5000000000) == 5.0;
  }

  // Decay never raises the value, and forgets [0, max] completely after max / perSec seconds.
  lemma ValueFalls(d: Decay, t: Time, u: Time)
    requires d.InRange() && d.last <= t <= u
    ensures 0.0 <= d.Value(u) <= d.Value(t) <= d.max
    ensures Seconds(u - t) * d.perSec >= d.max ==> d.Value(u) == 0.0
    ensures d.Value(u) == Max(0.0, d.Value(t) - Seconds(u - t) * d.perSec)
  {
    FallsBy(d, t, u);
    DecaySplits(Seconds(t - d.last), Seconds(u - t), d.perSec);
  }

  // From a change on, the value falls from what the change made of it.
  lemma FallsFrom(d: Decay, t: Time)
    requires d.last <= t
    ensures d.Value(t) == Max(0.0, d.x - Seconds(t - d.last) * d.perSec)
  {
  }

  // What add does to the continuous value, now and at every later time: it acts on the decayed value
  // and clamps the result to [0, max].
  lemma AddActsOnValue(d: Decay, now: Time, amount: real, t: Time)
    requires d.InRange() && d.last <= now <= t
    ensures var v := d.Value(now);
            var after := if v + amount > d.max then d.max else if v + amount < 0.0 then 0.0 else v + amount;
            d.Add(now, amount).InRange() && d.Add(now, amount).Value(now) == after
            && d.Add(now, amount).Value(t) == Max(0.0, after - Seconds(t - now) * d.perSec)
  {
    ValueFalls(d, now, now);
    FallsFrom(d.Add(now, amount), t);
  }

  // The other changes act on the decayed value, too, from which the value then falls; none clamps it.
  lemma FloorActsOnValue(d: Decay, now: Time, least: real, t: Time)
    requires d.last <= now <= t
    ensures d.Floor(now, least).Value(t) == Max(0.0, Max(d.Value(now), least) - Seconds(t - now) * d.perSec)
  {
    FallsFrom(d.Floor(now, least), t);
  }

  lemma SetMaxActsOnValue(d: Decay, now: Time, most: real, t: Time)
    requires d.last <= now <= t
    ensures var after := if d.Value(now) > most then most else d.Value(now);
            d.SetMax(now, most).Value(t) == Max(0.0, after - Seconds(t - now) * d.perSec)
  {
    FallsFrom(d.SetMax(now, most), t);
  }

  lemma SetDecayPerSecActsOnValue(d: Decay, now: Time, rate: real, t: Time)
    requires d.last <= now <= t
    ensures d.SetDecayPerSec(now, rate).Value(t) == Max(0.0, d.Value(now) - Seconds(t - now) * rate)
  {
    FallsFrom(d.SetDecayPerSec(now, rate), t);
  }

  // The type's comment promises a value in [0, max]. Three changes can leave that range, and each has
  // its condition. floor and setMax keep it exactly when their argument does not itself leave the
  // range: neither clamps.
  lemma FloorStaysInRangeIff(d: Decay, now: Time, least: real)
    requires d.InRange() && d.last <= now
    ensures d.Floor(now, least).InRange() <==> least <= d.max
  {
    ValueFalls(d, now, now);
  }

  lemma SetMaxStaysInRangeIff(d: Decay, now: Time, max: real)
    requires d.InRange() && d.last <= now
    ensures d.SetMax(now, max).InRange() <==> max >= 0.0
    ensures max >= 0.0 ==> d.SetMax(now, max).Value(now) == if d.Value(now) > max then max else d.Value(now)
  {
    ValueFalls(d, now, now);
  }

  lemma OutgrowsIn(enough: real, secs: real, growth: real, most: real)
    requires growth > 0.0 && enough == most / growth && secs > enough
    ensures secs * growth > most
  {
    assert enough * growth == most;
    assert (secs - enough) * growth > 0.0;
    assert secs * growth == enough * growth + (secs - enough) * growth;
  }

  // Under a negative rate any value, even 0, outgrows any bound.
  lemma NegativeRateGrows(d: Decay, most: real) returns (t: Time)
    requires d.perSec < 0.0 && d.x >= 0.0 && most >= 0.0
    ensures d.last <= t && d.Value(t) > most
  {
    var growth := -d.perSec;
    var enough := most / growth;
    var elapsed := (enough * NANOS_PER_SECOND).Floor + 1;
    t := d.last + elapsed;
    var secs := Seconds(elapsed);
    assert secs > enough >= 0.0;
    OutgrowsIn(enough, secs, growth, most);
    assert secs * d.perSec == -(secs * growth);
    assert d.Value(t) == Max(0.0, d.x - secs * d.perSec);
  }

  // setDecayPerSec keeps the value in range at all later times exactly when the new rate is not negative.
  lemma SetDecayPerSecStaysInRangeIff(d: Decay, now: Time, rate: real)
    requires d.InRange() && d.last <= now
    ensures (forall t :: now <= t ==> 0.0 <= d.SetDecayPerSec(now, rate).Value(t) <= d.max) <==> rate >= 0.0
  {
    ValueFalls(d, now, now);
    var r := d.SetDecayPerSec(now, rate);
    if rate >= 0.0 {
      forall t | now <= t
        ensures 0.0 <= r.Value(t) <= d.max
      {
        ValueFalls(r, now, t);
      }
    } else {
      var t := NegativeRateGrows(r, d.max);
      assert now <= t && r.Value(t) > d.max;
    }
  }

  // One way out of the range through each: a floor above max, a negative max, a negative rate.
  lemma ThreeWaysOut()
    ensures var d := Decay(1.0, 0, 1.0, 10.0);
            && d.InRange()
            && d.Floor(0, 11.0).Value(0) > d.Floor(0, 11.0).max
            && d.SetMax(0, -1.0).Value(0) > d.SetMax(0, -1.0).max
            && d.SetDecayPerSec(0, -1.0).Value(20000000000) > d.SetDecayPerSec(0, -1.0).max
  {
    assert Seconds(20000000000) == 20.0;
  }

  // Decay and its changes keep the order of two values that share rate and ceiling.
  lemma OrderSurvivesDecay(a: Decay, b: Decay, now: Time, t: Time)
    requires a.perSec == b.perSec && a.InRange() && b.InRange() && a.last <= now <= t && b.last <= now
    requires a.Value(now) <= b.Value(now)
    ensures a.Value(t) <= b.Value(t)
  {
    FallsBy(a, now, t);
    FallsBy(b, now, t);
  }

  class LinearDecay {
    var x: real
    var last: Time
    var decayPerSec: real
    var max: real

    function Model(): (d: Decay)
      reads this
    {
      Decay(x, last, decayPerSec, max)
    }

    constructor (last: Time, max: real, decayPerSec: real)
      ensures Model() == Decay(0.0, last, decayPerSec, max)
    {
      x := 0.0;
      this.last := last;
      this.max := max;
      this.decayPerSec := decayPerSec;
    }

    method Get(now: Time) returns (value: real)
      modifies this
      ensures Model() == old(Model()).Get(now) && value == old(Model()).Value(now)
    {
      x := Max(0.0, x - Max(0.0, Seconds(now - last)) * decayPerSec);
      last := now;
      value := x;
    }

    method Add(now: Time, amount: real)
      modifies this
      ensures Model() == old(Model()).Add(now, amount)
    {
      var _ := Get(now);
      x := x + amount;
      if x > max {
        x := max;
      }
      if x < 0.0 {
        x := 0.0;
      }
    }

    method SetDecayPerSec(now: Time, perSec: real)
      modifies this
      ensures Model() == old(Model()).SetDecayPerSec(now, perSec)
    {
      var _ := Get(now);
      decayPerSec := perSec;
    }

    method SetMax(now: Time, most: real)
      modifies this
      ensures Model() == old(Model()).SetMax(now, most)
    {
      var _ := Get(now);
      max := most;
      if x > max {
        x := max;
      }
    }

    method Floor(now: Time, least: real)
      modifies this
      ensures Model() == old(Model()).Floor(now, least)
    {
      var _ := Get(now);
      if x < least {
        x := least;
      }
    }
  }
}

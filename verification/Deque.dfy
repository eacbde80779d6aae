/** The fixed-capacity ring buffer of utils/deque/deque.go, proved to behave as a bounded sequence. */
module Deques {
  import opened Wrappers

  // Capacity given to a deque that was never passed through New.
  const DEFAULT_CAPACITY := 200

  datatype DequeError = Empty | Full

  // Go's remainder truncates toward zero, Dafny's does not.
  function TruncatedMod(l: int, d: int): (r: int)
    requires d > 0
  {
    if l >= 0 then l % d else -((-l) % d)
  }

  function PositiveMod(l: int, d: int): (r: int)
    requires d > 0
    ensures 0 <= r < d
  {
    var x := TruncatedMod(l, d);
    if x < 0 then x + d else x
  }

  // What the sign correction is for: PositiveMod is the remainder of floored division.
  lemma PositiveModIsFlooredRemainder(l: int, d: int)
    requires d > 0
    ensures exists turns: int :: l == turns * d + PositiveMod(l, d)
  {
    var q := (-l) / d;
    if l >= 0 {
      assert l == (l / d) * d + PositiveMod(l, d);
    } else if (-l) % d == 0 {
      assert l == -q * d + PositiveMod(l, d);
    } else {
      assert l == (-q - 1) * d + PositiveMod(l, d);
    }
  }

  // The two places a wrapped index can land when it is at most one step outside the array.
  lemma WrapsOnce(x: int, n: int)
    requires n > 0 && -1 <= x < 2 * n
    ensures x >= 0 ==> x % n == if x < n then x else x - n
    ensures PositiveMod(x, n) == if x < 0 then n - 1 else if x < n then x else x - n
  {
    if x >= n {
      assert x == n + (x - n);
      assert x / n == 1;
    } else if x >= 0 {
      assert x / n == 0;
    } else {
      assert n == 1 || 1 / n == 0;
    }
  }

  // Distance of slot k behind the front, walking forward around a circle of n slots.
  function Offset(front: int, k: int, n: int): (o: int)
    requires 0 <= front < n && 0 <= k < n
    ensures 0 <= o < n
  {
    if k >= front then k - front else k - front + n
  }

  // The slots hold exactly these contents, in order from the front, and the zero value elsewhere.
  ghost predicate Ring<T>(slots: seq<T>, front: int, back: int, zero: T, contents: seq<T>) {
    && |contents| <= |slots|
    && 0 <= front < |slots|
    && (if contents == [] then back == -1 && front == 0
        else 0 <= back < |slots| && Offset(front, back, |slots|) == |contents| - 1)
    && forall k :: 0 <= k < |slots| ==>
         slots[k] == var o := Offset(front, k, |slots|); if o < |contents| then contents[o] else zero
  }

  lemma RingPushFront<T>(slots: seq<T>, front: int, back: int, zero: T, contents: seq<T>, x: T, f: int)
    requires Ring(slots, front, back, zero, contents) && |contents| < |slots|
    requires f == PositiveMod(front - 1, |slots|)
    ensures Ring(slots[f := x], f, if contents == [] then f else back, zero, [x] + contents)
  {
    WrapsOnce(front - 1, |slots|);
  }

  lemma RingPushBack<T>(slots: seq<T>, front: int, back: int, zero: T, contents: seq<T>, x: T)
    requires Ring(slots, front, back, zero, contents) && |contents| < |slots|
    ensures var b := if contents == [] then front else (back + 1) % |slots|;
            0 <= b < |slots| && Ring(slots[b := x], front, b, zero, contents + [x])
  {
    WrapsOnce(back + 1, |slots|);
  }

  lemma RingPopFront<T>(slots: seq<T>, front: int, back: int, zero: T, contents: seq<T>)
    requires Ring(slots, front, back, zero, contents) && contents != []
    ensures slots[front] == contents[0]
    ensures if |contents| == 1 then Ring(slots[front := zero], 0, -1, zero, [])
            else Ring(slots[front := zero], (front + 1) % |slots|, back, zero, contents[1..])
  {
    WrapsOnce(front + 1, |slots|);
  }

  lemma RingPopBack<T>(slots: seq<T>, front: int, back: int, zero: T, contents: seq<T>)
    requires Ring(slots, front, back, zero, contents) && contents != []
    ensures slots[back] == contents[|contents| - 1]
    ensures if |contents| == 1 then Ring(slots[back := zero], 0, -1, zero, [])
            else Ring(slots[back := zero], front, PositiveMod(back - 1, |slots|), zero, contents[..|contents| - 1])
  {
    WrapsOnce(back - 1, |slots|);
  }

  class Deque<T(0)> {
    var a: array?<T>       // null until the first push when New was bypassed
    var front: int
    var back: int          // -1 means empty, once initialised
    var initialised: bool
    const zero: T          // the zero value of T
    ghost var Contents: seq<T>

    ghost predicate Valid()
      reads this, a
    {
      if a == null then
        !initialised && front == 0 && back == 0 && Contents == []
      else
        initialised && Ring(a[..], front, back, zero, Contents)
    }

    // How many items fit: the array's length, or the default that the first push will allocate.
    ghost function Capacity(): (n: nat)
      reads this
    {
      if a == null then DEFAULT_CAPACITY else a.Length
    }

    // deque.New; it panics unless capacity is positive
    constructor New(capacity: int, zeroValue: T)
      requires capacity > 0
      ensures Valid() && Contents == [] && Capacity() == capacity
      ensures a != null && fresh(a) && zero == zeroValue
    {
      a := new T[capacity](_ => zeroValue);
      front := 0;
      back := -1;
      initialised := true;
      zero := zeroValue;
      Contents := [];
    }

    // the zero value `var d Deque[T]`, on which New was never called
    constructor ZeroValue(zeroValue: T)
      ensures Valid() && Contents == [] && Capacity() == 200
      ensures a == null && zero == zeroValue
    {
      a := null;
      front := 0;
      back := 0;
      initialised := false;
      zero := zeroValue;
      Contents := [];
    }

    method EnsureInit()
      requires Valid()
      modifies this
      ensures Valid() && a != null && Contents == old(Contents) && Capacity() == old(Capacity())
      ensures if old(a) == null then fresh(a) else a == old(a) && a[..] == old(a[..])
    {
      if !initialised {
        var z := zero;
        a := new T[DEFAULT_CAPACITY](_ => z);
        back := -1;
        initialised := true;
      }
    }

    // Reads only the two indices, so PushFront may call it between its two updates.
    function Len(): (n: int)
      reads this, a
      ensures Valid() ==> n == |Contents|
    {
      if a == null || back == -1 then 0
      else if front <= back then back - front + 1
      else a.Length - front + back + 1
    }

    predicate IsFull()
      requires Valid()
      reads this, a
      ensures IsFull() <==> |Contents| == Capacity()
    {
      a != null && Len() == a.Length
    }

    method PushFront(x: T) returns (r: Result<(), DequeError>)
      requires Valid()
      modifies this, a
      ensures Valid()
      ensures Capacity() == old(Capacity())
      ensures if old(a) == null then fresh(a) else a == old(a)
      ensures r == if |old(Contents)| < Capacity() then Ok(()) else Err(Full)
      ensures Contents == if r.Ok? then [x] + old(Contents) else old(Contents)
    {
      EnsureInit();
      if IsFull() {
        return Err(Full);
      }
      ghost var slots, b := a[..], back;
      var f := PositiveMod(front - 1, a.Length);
      RingPushFront(slots, front, back, zero, Contents, x, f);
      front := f;
      a[f] := x;
      if Len() == 0 {
        back := f;
      }
      assert a[..] == slots[f := x];
      assert back == if Contents == [] then f else b;
      assert Ring(a[..], front, back, zero, [x] + Contents);
      Contents := [x] + Contents;
      r := Ok(());
    }

    method PushBack(x: T) returns (r: Result<(), DequeError>)
      requires Valid()
      modifies this, a
      ensures Valid() && Capacity() == old(Capacity())
      ensures if old(a) == null then fresh(a) else a == old(a)
      ensures r == if |old(Contents)| < Capacity() then Ok(()) else Err(Full)
      ensures Contents == if r.Ok? then old(Contents) + [x] else old(Contents)
    {
      EnsureInit();
      if IsFull() {
        return Err(Full);
      }
      RingPushBack(a[..], front, back, zero, Contents, x);
      ghost var slots := a[..];
      if Len() == 0 {
        back := front;
      } else {
        back := (back + 1) % a.Length;
      }
      a[back] := x;
      assert a[..] == slots[back := x];
      Contents := Contents + [x];
      r := Ok(());
    }

    method PopFront() returns (r: Result<T, DequeError>)
      requires Valid()
      modifies this, a
      ensures Valid() && a == old(a)
      ensures old(Contents) == [] ==> r == Err(Empty) && Contents == []
      ensures old(Contents) != [] ==> r == Ok(old(Contents)[0]) && Contents == old(Contents)[1..]
    {
      var l := Len();
      if l == 0 {
        return Err(Empty);
      }
      RingPopFront(a[..], front, back, zero, Contents);
      ghost var slots := a[..];
      var item := a[front];
      if l == 1 {
        a[front] := zero;
        assert a[..] == slots[front := zero];
        front := 0;
        back := -1;
        Contents := [];
        return Ok(item);
      }
      a[front] := zero;
      assert a[..] == slots[front := zero];
      front := (front + 1) % a.Length;
      Contents := Contents[1..];
      r := Ok(item);
    }

    method PopBack() returns (r: Result<T, DequeError>)
      requires Valid()
      modifies this, a
      ensures Valid() && a == old(a)
      ensures old(Contents) == [] ==> r == Err(Empty) && Contents == []
      ensures old(Contents) != [] ==>
                r == Ok(old(Contents)[|old(Contents)| - 1]) && Contents == old(Contents)[..|old(Contents)| - 1]
    {
      var l := Len();
      if l == 0 {
        return Err(Empty);
      }
      RingPopBack(a[..], front, back, zero, Contents);
      ghost var slots := a[..];
      var item := a[back];
      if l == 1 {
        a[back] := zero;
        assert a[..] == slots[back := zero];
        front := 0;
        back := -1;
        Contents := [];
        return Ok(item);
      }
      a[back] := zero;
      assert a[..] == slots[back := zero];
      back := PositiveMod(back - 1, a.Length);
      Contents := Contents[..|Contents| - 1];
      r := Ok(item);
    }

    method Front() returns (r: Result<T, DequeError>)
      requires Valid()
      ensures r == if Contents == [] then Err(Empty) else Ok(Contents[0])
    {
      if Len() == 0 {
        return Err(Empty);
      }
      r := Ok(a[front]);
    }

    method Back() returns (r: Result<T, DequeError>)
      requires Valid()
      ensures r == if Contents == [] then Err(Empty) else Ok(Contents[|Contents| - 1])
    {
      if Len() == 0 {
        return Err(Empty);
      }
      r := Ok(a[back]);
    }
  }
}

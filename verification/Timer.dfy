/**
 Reading and writing the 64-bit timer registers as two 32-bit halves while time goes on.
 */
module Timer {

  const HALF := 0x1_0000_0000

  function High(t: nat): nat { t / HALF }

  function Low(t: nat): nat { t % HALF }

  /** The value of mtime at each instant. */
  type Clock = nat -> nat

  ghost predicate Advances(mtime: Clock) {
    && (forall i: nat, j: nat :: i <= j ==> mtime(i) <= mtime(j))
    && (forall i: nat :: mtime(i) < HALF * HALF)
  }

  ghost predicate Ordered(at: nat -> nat) {
    forall i: nat, j: nat :: i <= j ==> at(i) <= at(j)
  }

  lemma HighMonotone(a: nat, b: nat)
    requires a <= b
    ensures High(a) <= High(b)
  {
  }

  /** A low half read between two equal high halves belongs to them. */
  lemma HalvesFit(a: nat, b: nat, c: nat)
    requires a <= b <= c && High(a) == High(c)
    ensures High(a) * HALF + Low(b) == b
  {
    HighMonotone(a, b);
    HighMonotone(b, c);
  }

  ghost predicate TrueAt(mtime: Clock, from: nat, to: nat, value: nat) {
    exists i: nat :: from <= i <= to && mtime(i) == value
  }

  /**
   Reads high, low and high again until both highs agree; `at(k)` is the instant of the k-th
   device read. The loop ends because each retry has seen the high half grow.
   */
  method TimerRead(mtime: Clock, at: nat -> nat) returns (time: nat, count: nat)
    requires Advances(mtime) && Ordered(at)
    ensures count >= 3 && TrueAt(mtime, at(0), at(count - 1), time)
  {
    count := 0;
    var high, low, check := 0, 0, 1;
    ghost var floor := 0;
    while high != check
      invariant count == 0 ==> high == 0 && check == 1 && floor == 0
      invariant count > 0 ==> count >= 3
      invariant count > 0 && high == check ==> TrueAt(mtime, at(0), at(count - 1), high * HALF + low)
      invariant count > 0 && high != check ==> floor == check == High(mtime(at(count - 1)))
      invariant floor <= HALF
      decreases high != check, HALF - floor
    {
      ghost var i := count;
      high := High(mtime(at(count)));
      low := Low(mtime(at(count + 1)));
      check := High(mtime(at(count + 2)));
      count := count + 3;
      var a, b, c := mtime(at(i)), mtime(at(i + 1)), mtime(at(i + 2));
      assert at(i) <= at(i + 1) <= at(i + 2) && a <= b <= c && c < HALF * HALF;
      HighMonotone(a, c);
      if high == check {
        HalvesFit(a, b, c);
        assert at(0) <= at(i + 1) <= at(count - 1) && mtime(at(i + 1)) == high * HALF + low;
      } else {
        if i > 0 {
          assert at(i - 1) <= at(i);
          HighMonotone(mtime(at(i - 1)), a);
        }
        floor := check;
      }
    }
    time := high * HALF + low;
  }

  // ----- writing the comparator -----

  class Comparator {
    var low: nat
    var high: nat

    // The value of mtimecmp at every instant so far.
    ghost var history: seq<nat>

    ghost predicate Valid()
      reads this
    {
      low < HALF && high < HALF
    }

    function Value(): nat
      reads this
    {
      high * HALF + low
    }

    constructor (value: nat)
      requires value < HALF * HALF
      ensures Valid() && Value() == value && history == [value]
    {
      low, high, history := Low(value), High(value), [value];
    }

    method WriteLow(v: nat)
      requires Valid() && v < HALF
      modifies this
      ensures Valid() && low == v && high == old(high) && history == old(history) + [Value()]
    {
      low := v;
      history := history + [high * HALF + low];
    }

    method WriteHigh(v: nat)
      requires Valid() && v < HALF
      modifies this
      ensures Valid() && high == v && low == old(low) && history == old(history) + [Value()]
    {
      high := v;
      history := history + [high * HALF + low];
    }

    /** Sets the comparator; no instant of it is below both values, so a timer below both never fires. */
    method TimecmpUpdate(newTime: nat)
      requires Valid() && newTime < HALF * HALF
      modifies this
      ensures Valid() && Value() == newTime && old(history) <= history
      ensures forall i :: |old(history)| <= i < |history| ==> history[i] >= Min(old(Value()), newTime)
    {
      SplitValue(newTime);
      WriteLow(HALF - 1);
      WriteHigh(High(newTime));
      WriteLow(Low(newTime));
    }
  }

  function Min(a: nat, b: nat): nat {
    if a < b then a else b
  }

  lemma SplitValue(v: nat)
    requires v < HALF * HALF
    ensures High(v) < HALF && Low(v) < HALF && High(v) * HALF + Low(v) == v
  {
  }
}

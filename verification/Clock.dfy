// The three fake clock functions.  Each adds a configured delta to what the kernel
// returned; the kernel's answer is what stands in the argument when the method is called.
// C leaves signed overflow undefined: a method returns `defined` false at the first
// operation that overflows, and its contract says exactly when that is.
module Clock {
  import opened Int64

  const BILLION: int := 1_000_000_000

  /** struct timespec */
  class Timespec {
    var sec: int
    var nsec: int

    constructor (sec: int, nsec: int)
      ensures this.sec == sec && this.nsec == nsec
    {
      this.sec, this.nsec := sec, nsec;
    }
  }

  /** struct timeval */
  class Timeval {
    var sec: int
    var usec: int
  }

  /** time_t, where the caller passed a place for it */
  class Time {
    var value: int
  }

  // ---------------------------------------------------------------- normalisation

  /** How many billions the two loops carry out of a sum t of nanoseconds.  The upper
      loop stops at a billion, not below it. */
  function Carry(t: int): (c: int)
    ensures t > BILLION ==> 0 < t - c * BILLION <= BILLION && c > 0
    ensures t < 0 ==> 0 <= t - c * BILLION < BILLION && c < 0
    ensures 0 <= t <= BILLION ==> c == 0
  {
    if t > BILLION then (t - 1) / BILLION
    else if t < 0 then t / BILLION
    else 0
  }

  lemma CarryUp(t: int)
    requires t > BILLION
    ensures Carry(t) == Carry(t - BILLION) + 1
  {}

  lemma CarryDown(t: int)
    requires t < 0
    ensures Carry(t) == Carry(t + BILLION) - 1
  {}

  /** No operation of the normalisation overflows. */
  predicate Normal(sec: int, nsec: int, shown: int) {
    InInt64(nsec + shown) && InInt64(sec + Carry(nsec + shown))
  }

  /** The two loops that move whole seconds from the nanoseconds into the seconds, against
      a clock that already shows `shown` nanoseconds. */
  method Normalise(sec: int, nsec: int, shown: int) returns (defined: bool, s: int, n: int)
    requires InInt64(sec) && InInt64(nsec) && 0 <= shown < BILLION
    ensures defined <==> Normal(sec, nsec, shown)
    ensures defined ==> s == sec + Carry(nsec + shown) && n == nsec - Carry(nsec + shown) * BILLION
    ensures defined ==> 0 <= n + shown <= BILLION && InInt64(s)
  {
    s, n := sec, nsec;
    if !InInt64(n + shown) { return false, s, n; }
    while n + shown > BILLION
      invariant InInt64(s) && InInt64(n) && InInt64(n + shown)
      invariant s + Carry(n + shown) == sec + Carry(nsec + shown)
      invariant n - Carry(n + shown) * BILLION == nsec - Carry(nsec + shown) * BILLION
      invariant s >= sec && (s > sec ==> n + shown > 0)
    {
      CarryUp(n + shown);
      if !InInt64(s + 1) { return false, s, n; }
      s, n := s + 1, n - BILLION;
    }
    while n + shown < 0
      invariant InInt64(s) && InInt64(n) && InInt64(n + shown) && n + shown <= BILLION
      invariant s + Carry(n + shown) == sec + Carry(nsec + shown)
      invariant n - Carry(n + shown) * BILLION == nsec - Carry(nsec + shown) * BILLION
      decreases -(n + shown)
    {
      CarryDown(n + shown);
      if !InInt64(s - 1) { return false, s, n; }
      s, n := s - 1, n + BILLION;
    }
    return true, s, n;
  }

  // ---------------------------------------------------------------- clock_gettime

  function Total(sec: int, nsec: int): int { sec * BILLION + nsec }

  /** When fake_clock_gettime is defined on a selected clock. */
  predicate ClockDefined(secDelta: int, nsecDelta: int, sec: int, nsec: int) {
    && Normal(secDelta, nsecDelta, nsec)
    && InInt64(sec + (secDelta + Carry(nsecDelta + nsec)))
  }

  /** fake_clock_gettime.  The mask is tested against 1 << clk_id, an int. */
  method FakeClockGettime(secDelta: int, nsecDelta: int, mask: nat, clkId: int, tp: Timespec)
      returns (defined: bool)
    requires InInt64(secDelta) && InInt64(nsecDelta) && mask < TWO64
    requires InInt64(tp.sec) && 0 <= tp.nsec < BILLION
    modifies tp
    ensures defined <==>
            0 <= clkId < 31 && (Bit(mask, clkId) ==> ClockDefined(secDelta, nsecDelta, old(tp.sec), old(tp.nsec)))
    ensures defined && !Bit(mask, clkId) ==> unchanged(tp)
    ensures defined && Bit(mask, clkId) ==>
              && Total(tp.sec, tp.nsec) == Total(old(tp.sec), old(tp.nsec)) + Total(secDelta, nsecDelta)
              && 0 <= tp.nsec <= BILLION && InInt64(tp.sec)
              && (tp.nsec == BILLION <==>
                  nsecDelta + old(tp.nsec) > 0 && (nsecDelta + old(tp.nsec)) % BILLION == 0)
  {
    if !(0 <= clkId < 31) { return false; }
    AndPow2(clkId, mask);
    if And(Pow2(clkId), mask) != 0 {
      var ok, s, n := Normalise(secDelta, nsecDelta, tp.nsec);
      if !ok || !InInt64(tp.sec + s) { return false; }
      BillionWhen(nsecDelta + tp.nsec);
      tp.sec, tp.nsec := tp.sec + s, tp.nsec + n;
    }
    return true;
  }

  /** A billion nanoseconds of room in the delta, and some in the seconds, are enough. */
  lemma HeadroomIsDefined(secDelta: int, nsecDelta: int, sec: int, nsec: int)
    requires 0 <= nsec < BILLION && -(TWO63 - BILLION) < nsecDelta < TWO63 - BILLION
    requires -(TWO63 / 4) < secDelta < TWO63 / 4 && -(TWO63 / 4) < sec < TWO63 / 4
    ensures ClockDefined(secDelta, nsecDelta, sec, nsec)
  {
    var c := Carry(nsecDelta + nsec);
    assert -TWO63 <= c * BILLION <= TWO63;
    assert -(TWO63 / 4) < c < TWO63 / 4;
  }

  lemma BillionWhen(t: int)
    ensures t - Carry(t) * BILLION == BILLION <==> t > 0 && t % BILLION == 0
  {
    assert (t - Carry(t) * BILLION) % BILLION == t % BILLION;
  }

  lemma LeftAfterCarry(t: int)
    ensures t - Carry(t) * BILLION == if t > 0 && t % BILLION == 0 then BILLION else t % BILLION
  {
    BillionWhen(t);
    assert (t - Carry(t) * BILLION) % BILLION == t % BILLION;
  }

  // ---------------------------------------------------------------- gettimeofday

  /** C's division truncates towards zero; both branches divide a number that is not
      negative, so Dafny's division agrees. */
  function DivRoundNearest(n: int, d: int): int
    requires d > 0
  {
    if n >= 0 then (n + d / 2) / d else -((-n + d / 2) / d)
  }

  /** The rounded quotient is a nearest one, and at a tie the one away from zero. */
  lemma RoundsToNearest(n: int)
    ensures var q := DivRoundNearest(n, 1000);
            && -500 <= n - 1000 * q <= 500
            && (n - 1000 * q == -500 ==> n > 0) && (n - 1000 * q == 500 ==> n < 0)
  {}

  /** Microseconds fake_gettimeofday adds, in all, to a clock that shows usec. */
  function MicroShift(secDelta: int, nsecDelta: int, usec: int): int {
    var c := Carry(nsecDelta + usec * 1000);
    (secDelta + c) * 1_000_000 + DivRoundNearest(nsecDelta - c * BILLION, 1000)
  }

  predicate TimeOfDayDefined(secDelta: int, nsecDelta: int, sec: int, usec: int) {
    && Normal(secDelta, nsecDelta, usec * 1000)
    && InInt64(sec + (secDelta + Carry(nsecDelta + usec * 1000)))
  }

  /** fake_gettimeofday.  What it adds is within half a microsecond of the deltas; at a tie the
      microseconds move away from where they were. */
  method FakeGettimeofday(secDelta: int, nsecDelta: int, tv: Timeval) returns (defined: bool)
    requires InInt64(secDelta) && InInt64(nsecDelta)
    requires InInt64(tv.sec) && 0 <= tv.usec < 1_000_000
    modifies tv
    ensures defined <==> TimeOfDayDefined(secDelta, nsecDelta, old(tv.sec), old(tv.usec))
    ensures defined ==>
              && tv.sec * 1_000_000 + tv.usec
                 == old(tv.sec) * 1_000_000 + old(tv.usec) + MicroShift(secDelta, nsecDelta, old(tv.usec))
              && 0 <= tv.usec <= 1_000_000 && InInt64(tv.sec)
    ensures defined ==>
              var moved := (tv.sec - old(tv.sec) - secDelta) * 1_000_000 + tv.usec - old(tv.usec);
              var e := moved * 1000 - nsecDelta;
              && -500 <= e <= 500
              && (e == 500 ==> tv.usec > old(tv.usec)) && (e == -500 ==> tv.usec < old(tv.usec))
    ensures defined ==>
              var t := nsecDelta + old(tv.usec) * 1000;
              var left := if t > 0 && t % 1_000_000_000 == 0 then 1_000_000_000 else t % 1_000_000_000;
              -500 <= tv.usec * 1000 - left <= 500
  {
    var ok, s, n := Normalise(secDelta, nsecDelta, tv.usec * 1000);
    if !ok || !InInt64(tv.sec + s) { return false; }
    RoundsToNearest(n);
    LeftAfterCarry(nsecDelta + tv.usec * 1000);
    tv.sec, tv.usec := tv.sec + s, tv.usec + DivRoundNearest(n, 1000);
    return true;
  }

  /** Taking whole seconds out before rounding moves the rounded value by those seconds,
      and by one more microsecond only at a tie that changes sign. */
  lemma ShiftOfCarry(n: int, c: int)
    ensures var k := if n % 1000 == 500 then (n - 500) / 1000 else DivRoundNearest(n, 1000);
            var q := c * 1_000_000 + DivRoundNearest(n - c * BILLION, 1000);
            k <= q <= k + (if n % 1000 == 500 then 1 else 0)
  {
    hide DivRoundNearest;
    var m := n - c * BILLION;
    RoundsToNearest(n);
    RoundsToNearest(m);
    var q, r := DivRoundNearest(n, 1000), DivRoundNearest(m, 1000);
    assert n - m == 1000 * (c * 1_000_000);
    assert -1 <= q - r - c * 1_000_000 <= 1;
  }

  /** For fixed deltas the shift is one of two neighbouring values, and the same for all
      instants unless the nanosecond delta is half a microsecond off. */
  lemma ShiftsAreNeighbours(secDelta: int, nsecDelta: int, u: int, v: int)
    ensures var a, b := MicroShift(secDelta, nsecDelta, u), MicroShift(secDelta, nsecDelta, v);
            -1 <= a - b <= 1 && (nsecDelta % 1000 != 500 ==> a == b)
  {
    hide DivRoundNearest, Carry;
    ShiftOfCarry(nsecDelta, Carry(nsecDelta + u * 1000));
    ShiftOfCarry(nsecDelta, Carry(nsecDelta + v * 1000));
  }

  /** Later real instants never read earlier. */
  lemma TimeOfDayIsMonotone(secDelta: int, nsecDelta: int, sec: int, usec: int, sec': int, usec': int)
    requires sec * 1_000_000 + usec <= sec' * 1_000_000 + usec'
    requires 0 <= usec < 1_000_000 && 0 <= usec' < 1_000_000
    ensures sec * 1_000_000 + usec + MicroShift(secDelta, nsecDelta, usec)
            <= sec' * 1_000_000 + usec' + MicroShift(secDelta, nsecDelta, usec')
  {
    hide MicroShift;
    ShiftsAreNeighbours(secDelta, nsecDelta, usec, usec');
  }

  // ---------------------------------------------------------------- time

  /** C's / and % on a positive divisor. */
  function TruncDiv(a: int, b: int): int
    requires b > 0
  {
    if a >= 0 then a / b else -((-a) / b)
  }

  function TruncMod(a: int, b: int): int
    requires b > 0
  {
    a - b * TruncDiv(a, b)
  }

  /** The whole seconds fake_time adds. */
  function TimeShift(secDelta: int, nsecDelta: int): int {
    secDelta + (nsecDelta + BILLION / 2) / BILLION
  }

  /** It is the whole number of seconds nearest to the deltas, and of two as near the later. */
  lemma NearestSecond(secDelta: int, nsecDelta: int, shift: int)
    ensures shift == TimeShift(secDelta, nsecDelta)
            <==> -500_000_000 < (shift - secDelta) * 1_000_000_000 - nsecDelta <= 500_000_000
  {
    var q := (nsecDelta + BILLION / 2) / BILLION;
    assert q * BILLION <= nsecDelta + BILLION / 2 < (q + 1) * BILLION;
    var d := shift - secDelta - q;
    assert (shift - secDelta) * BILLION == q * BILLION + d * BILLION;
  }

  predicate TimeDefined(secDelta: int, nsecDelta: int, original: int) {
    && InInt64(original + secDelta)
    && InInt64(original + TimeShift(secDelta, nsecDelta))
  }

  /** fake_time; the place t may be missing. */
  method FakeTime(secDelta: int, nsecDelta: int, original: int, t: Time?) returns (defined: bool, now: int)
    requires InInt64(secDelta) && InInt64(nsecDelta) && InInt64(original)
    modifies t
    ensures defined <==> TimeDefined(secDelta, nsecDelta, original)
    ensures defined ==> now == original + TimeShift(secDelta, nsecDelta)
    ensures defined ==> var e := (now - original - secDelta) * 1_000_000_000 - nsecDelta; -500_000_000 < e <= 500_000_000
    ensures defined && t != null ==> t.value == now
  {
    NearestSecond(secDelta, nsecDelta, TimeShift(secDelta, nsecDelta));
    now := original;
    var extraSec := TruncDiv(nsecDelta, BILLION);
    var remaining := TruncMod(nsecDelta, BILLION);
    if remaining < 0 {
      extraSec, remaining := extraSec - 1, remaining + BILLION;
    }
    if remaining >= 500_000_000 {
      extraSec := extraSec + 1;
    }
    if !InInt64(original + secDelta) || !InInt64(original + secDelta + extraSec) { return false, now; }
    now := original + secDelta + extraSec;
    if t != null { t.value := now; }
    return true, now;
  }

  /** time and clock_gettime, for one real instant and the same deltas, differ by at most a
      second. */
  lemma TimeNearClock(secDelta: int, nsecDelta: int, sec: int, nsec: int)
    requires 0 <= nsec < BILLION
    ensures var whole := (Total(sec, nsec) + Total(secDelta, nsecDelta)) / BILLION;
            -1 <= sec + TimeShift(secDelta, nsecDelta) - whole <= 1
  {
    assert Total(sec, nsec) + Total(secDelta, nsecDelta) == (sec + secDelta) * BILLION + (nsec + nsecDelta);
    assert ((sec + secDelta) * BILLION + (nsec + nsecDelta)) / BILLION == sec + secDelta + (nsec + nsecDelta) / BILLION;
  }

  // ---------------------------------------------------------------- merging

  /** Config: the deltas and the mask of the clocks they apply to. */
  class Config {
    var deltaSeconds: int
    var deltaNanoSeconds: int
    var clockIDsMask: nat

    predicate Valid() reads this {
      InInt64(deltaSeconds) && InInt64(deltaNanoSeconds) && clockIDsMask < TWO64
    }

    constructor (deltaSeconds: int, deltaNanoSeconds: int, clockIDsMask: nat)
      requires InInt64(deltaSeconds) && InInt64(deltaNanoSeconds) && clockIDsMask < TWO64
      ensures Valid()
      ensures this.deltaSeconds == deltaSeconds && this.deltaNanoSeconds == deltaNanoSeconds
      ensures this.clockIDsMask == clockIDsMask
    {
      this.deltaSeconds, this.deltaNanoSeconds := deltaSeconds, deltaNanoSeconds;
      this.clockIDsMask := clockIDsMask;
    }

    /** Go's additions wrap around.  The shift is the sum exactly when neither does, or when
        they wrap in ways that cancel. */
    method Merge(a: Config)
      requires Valid() && a.Valid()
      modifies this
      ensures Valid()
      ensures deltaSeconds == Wrap64(old(deltaSeconds) + old(a.deltaSeconds))
      ensures deltaNanoSeconds == Wrap64(old(deltaNanoSeconds) + old(a.deltaNanoSeconds))
      ensures forall k: nat :: Bit(clockIDsMask, k) <==> Bit(old(clockIDsMask), k) || Bit(old(a.clockIDsMask), k)
    {
      forall k: nat ensures Bit(Or(clockIDsMask, a.clockIDsMask), k)
                            <==> Bit(clockIDsMask, k) || Bit(a.clockIDsMask, k) {
        BitOr(clockIDsMask, a.clockIDsMask, k);
      }
      MaskFits(clockIDsMask, a.clockIDsMask);
      deltaSeconds := Wrap64(deltaSeconds + a.deltaSeconds);
      deltaNanoSeconds := Wrap64(deltaNanoSeconds + a.deltaNanoSeconds);
      clockIDsMask := Or(clockIDsMask, a.clockIDsMask);
    }
  }

  /** What fake_clock_gettime makes of a clock: Normalise, then the two additions. */
  function Faked(secDelta: int, nsecDelta: int, sec: int, nsec: int): (r: (int, int))
    ensures Total(r.0, r.1) == Total(sec, nsec) + Total(secDelta, nsecDelta)
  {
    var c := Carry(nsecDelta + nsec);
    (sec + secDelta + c, nsec + nsecDelta - c * BILLION)
  }

  /** Two skews one after the other read the same time as the merged skew. */
  lemma MergeIsComposition(s1: int, n1: int, s2: int, n2: int, sec: int, nsec: int)
    ensures var once := Faked(s1 + s2, n1 + n2, sec, nsec);
            var first := Faked(s1, n1, sec, nsec);
            var twice := Faked(s2, n2, first.0, first.1);
            && Total(twice.0, twice.1) == Total(once.0, once.1)
            && (Total(once.0, once.1) % BILLION != 0 ==> twice == once)
  {
    var once := Faked(s1 + s2, n1 + n2, sec, nsec);
    var first := Faked(s1, n1, sec, nsec);
    var twice := Faked(s2, n2, first.0, first.1);
    if Total(once.0, once.1) % BILLION != 0 {
      SplitTotal(once.0, once.1);
      SplitTotal(twice.0, twice.1);
    }
  }

  lemma SplitTotal(sec: int, nsec: int)
    ensures nsec == 0 || nsec == BILLION ==> Total(sec, nsec) % BILLION == 0
  {
    if nsec == BILLION { assert Total(sec, nsec) == (sec + 1) * BILLION; }
  }

  /** Merge's wrapping additions keep that total exactly when neither overflows. */
  lemma MergeKeepsTotal(s1: int, n1: int, s2: int, n2: int)
    requires InInt64(s1) && InInt64(n1) && InInt64(s2) && InInt64(n2)
    ensures Total(Wrap64(s1 + s2), Wrap64(n1 + n2)) == Total(s1, n1) + Total(s2, n2)
            <==> InInt64(s1 + s2) && InInt64(n1 + n2)
  {
    WrapOnce(s1, s2);
    WrapOnce(n1, n2);
  }

  lemma WrapOnce(a: int, b: int)
    requires InInt64(a) && InInt64(b)
    ensures var d := a + b - Wrap64(a + b); d == -TWO64 || d == 0 || d == TWO64
    ensures InInt64(a + b) <==> Wrap64(a + b) == a + b
  {}

  lemma MaskFits(a: nat, b: nat)
    requires a < TWO64 && b < TWO64
    ensures Or(a, b) < TWO64
  {
    assert Pow2(64) == TWO64 by { Pow2Is64(); }
    OrBelow(a, b, 64);
  }

  lemma Pow2Is64()
    ensures Pow2(64) == TWO64
  {
    assert Pow2(8) == 256;
    assert Pow2(16) == 0x1_0000;
    assert Pow2(24) == 0x100_0000;
    assert Pow2(32) == TWO32;
    assert Pow2(40) == 0x100_0000_0000;
    assert Pow2(48) == 0x1_0000_0000_0000;
    assert Pow2(56) == 0x100_0000_0000_0000;
  }
}
